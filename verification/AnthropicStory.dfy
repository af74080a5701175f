/** A whole Anthropic run told from the provider's replies and the tools' outputs: how
    often it calls, what each request holds, what is shown, what history is left. */
module AnthropicStory {
  import opened Decimal
  import opened Events
  import opened AnthropicRunner

  // ---- What is to be said of one call ----

  /** The reply asks for tools, and the run goes on if the budget allows. */
  predicate AsksTools(r: Reply) { r.Replied? && r.toolUse }

  /** How many dispatches a reply causes. */
  function Dispatches(r: Reply): nat { if AsksTools(r) then |Calls(r.blocks)| else 0 }

  /** One tool_use and one tool_result for each call, from place q of the events on. */
  ghost predicate Tools(es: seq<Event>, q: nat, calls: seq<Block>, tool: nat -> ToolOut, from: nat) {
    && |es| == q + 2 * |calls|
    && forall j :: 0 <= j < |calls| ==>
         && calls[j].ToolUseBlock?
         && es[q + 2 * j] == ToolUse(calls[j].name + "  " + calls[j].input)
         && es[q + 2 * j + 1] == ToolResult(tool(from + j).shown)
  }

  /** The events of one call: that it is made, the text as it streams in, and then
      how it ends, or the tools that are used. */
  ghost predicate Chapter(es: seq<Event>, r: Reply, tool: nat -> ToolOut, from: nat) {
    match r
    case Failed(deltas, stopped, text) =>
      es == [Thinking] + Tokens(deltas) + [if stopped then Notice("⏹ Stopped.") else Error(text), Done]
    case Replied(deltas, blocks, toolUse, tokensIn, tokensOut) =>
      var head := [Thinking] + Tokens(deltas) + [Usage(tokensIn, tokensOut)];
      if !toolUse then es == head + [Done]
      else head <= es && Tools(es, |head|, Calls(blocks), tool, from)
  }

  /** The history after a reply that asks for tools: the reply, and one answer for each
      call of it, under the call's id and with what the tool returned. */
  ghost predicate Answered(before: seq<Message>, after: seq<Message>, r: Reply, tool: nat -> ToolOut, from: nat) {
    AsksTools(r) &&
    var n, calls := |before|, Calls(r.blocks);
    && |after| == n + 2 && after[..n] == before
    && after[n] == Assistant(r.blocks) && after[n + 1].Results?
    && |after[n + 1].answers| == |calls|
    && forall j :: 0 <= j < |calls| ==>
         && calls[j].ToolUseBlock?
         && after[n + 1].answers[j] == Answer(calls[j].id, tool(from + j).out, tool(from + j).isErr)
  }

  /** The history a reply leaves. */
  ghost predicate Leaves(before: seq<Message>, after: seq<Message>, r: Reply, tool: nat -> ToolOut, from: nat) {
    if r.Failed? then after == before
    else if !r.toolUse then after == before + [Assistant(r.blocks)]
    else Answered(before, after, r, tool, from)
  }

  // ---- The run so far ----

  /** at[k] is where the events of call k start, from[k] how many dispatches came
      before it. */
  ghost predicate Told(t: Trace, start: seq<Message>, at: seq<nat>, from: seq<nat>,
                       reply: nat -> Reply, tool: nat -> ToolOut) {
    && |at| == |from| == |t.requests| + 1
    && EventsTold(t.events, t.dispatched, at, from, reply, tool)
    && RequestsTold(t.requests, t.msgs, start, from, reply, tool)
  }

  ghost predicate EventsTold(events: seq<Event>, dispatched: nat, at: seq<nat>, from: seq<nat>,
                             reply: nat -> Reply, tool: nat -> ToolOut)
    requires |at| == |from| >= 1
  {
    var n := |at| - 1;
    && at[0] == 0 && from[0] == 0 && at[n] <= |events| && dispatched == from[n]
    && forall k :: 0 <= k < n ==> ToldCall(events, at, from, k, reply(k), tool)
  }

  ghost predicate RequestsTold(requests: seq<seq<Message>>, msgs: seq<Message>, start: seq<Message>, from: seq<nat>,
                               reply: nat -> Reply, tool: nat -> ToolOut)
    requires |from| == |requests| + 1
  {
    var n := |requests|;
    && (n > 0 ==> requests[0] == start)
    && (forall k :: 0 <= k < n - 1 ==> Answered(requests[k], requests[k + 1], reply(k), tool, from[k]))
    && (if n == 0 then msgs == start else Leaves(requests[n - 1], msgs, reply(n - 1), tool, from[n - 1]))
  }

  ghost predicate ToldCall(events: seq<Event>, at: seq<nat>, from: seq<nat>, k: nat, r: Reply, tool: nat -> ToolOut)
    requires k + 1 < |at| == |from|
  {
    && at[k] <= at[k + 1] <= |events|
    && Chapter(events[at[k]..at[k + 1]], r, tool, from[k])
    && from[k + 1] == from[k] + Dispatches(r)
  }

  lemma {:induction false} ToolEventsAre(calls: seq<Block>, tool: nat -> ToolOut, from: nat)
    requires forall k :: 0 <= k < |calls| ==> calls[k].ToolUseBlock?
    ensures Tools(ToolEvents(calls, tool, from), 0, calls, tool, from)
  {
    if calls != [] {
      var n := |calls| - 1;
      ToolEventsAre(calls[..n], tool, from);
      var es := ToolEvents(calls[..n], tool, from);
      assert forall j :: 0 <= j < n ==> calls[..n][j] == calls[j];
    }
  }

  lemma ToolsAfter(head: seq<Event>, calls: seq<Block>, tool: nat -> ToolOut, from: nat)
    requires forall k :: 0 <= k < |calls| ==> calls[k].ToolUseBlock?
    ensures Tools(head + ToolEvents(calls, tool, from), |head|, calls, tool, from)
  {
    ToolEventsAre(calls, tool, from);
  }

  /** One call adds its chapter. */
  lemma TurnTells(t: Trace, r: Reply, tool: nat -> ToolOut)
    ensures var (u, over) := Turn(t, r, tool);
      && t.events <= u.events && Chapter(u.events[|t.events|..], r, tool, t.dispatched)
      && u.requests == t.requests + [t.msgs]
      && u.dispatched == t.dispatched + Dispatches(r)
      && Leaves(t.msgs, u.msgs, r, tool, t.dispatched)
      && (over <==> !AsksTools(r))
  {
    hide Tokens, ToolEvents, Calls;
    if r.Failed? {
      TurnFails(t, r, tool);
      ChapterFails(t, r, tool);
    } else {
      TurnAnswers(t, r, tool);
      ChapterReplies(t, r, tool);
    }
  }

  lemma ChapterFails(t: Trace, r: Reply, tool: nat -> ToolOut)
    requires r.Failed?
    ensures var u := Turn(t, r, tool).0; t.events <= u.events && Chapter(u.events[|t.events|..], r, tool, t.dispatched)
  {
    TurnFails(t, r, tool);
    hide Turn, Tokens;
    var u := Turn(t, r, tool).0;
    var last := if r.stopped then STOPPED else Error(r.text);
    assert u.events == t.events + ([Thinking] + Tokens(r.deltas) + [last, Done]);
  }

  lemma ChapterReplies(t: Trace, r: Reply, tool: nat -> ToolOut)
    requires r.Replied?
    ensures var u := Turn(t, r, tool).0; t.events <= u.events && Chapter(u.events[|t.events|..], r, tool, t.dispatched)
  {
    TurnAnswers(t, r, tool);
    hide Turn, Tokens, ToolEvents, Calls, Tools;
    var u := Turn(t, r, tool).0;
    var head := [Thinking] + Tokens(r.deltas) + [Usage(r.tokensIn, r.tokensOut)];
    if !r.toolUse {
      assert u.events == t.events + (head + [Done]);
    } else {
      var calls := Calls(r.blocks);
      assert u.events == t.events + (head + ToolEvents(calls, tool, t.dispatched));
      ToolsAfter(head, calls, tool, t.dispatched);
    }
  }

  /** What is told stays told when events are added, and one more call can be. */
  lemma EventsMore(es: seq<Event>, more: seq<Event>, dispatched: nat, at: seq<nat>, from: seq<nat>,
                   reply: nat -> Reply, tool: nat -> ToolOut)
    requires |at| == |from| >= 1 && EventsTold(es, dispatched, at, from, reply, tool) && es <= more
    ensures EventsTold(more, dispatched, at, from, reply, tool)
    ensures var n := |at| - 1; var r := reply(n);
      at[n] == |es| && Chapter(more[|es|..], r, tool, dispatched) ==>
        EventsTold(more, dispatched + Dispatches(r), at + [|more|], from + [dispatched + Dispatches(r)], reply, tool)
  {
    hide Chapter, Dispatches;
    var n := |at| - 1;
    forall k | 0 <= k < n ensures ToldCall(more, at, from, k, reply(k), tool) {
      assert ToldCall(es, at, from, k, reply(k), tool);
      assert more[at[k]..at[k + 1]] == es[at[k]..at[k + 1]];
    }
    if at[n] == |es| && Chapter(more[|es|..], reply(n), tool, dispatched) {
      var at', from' := at + [|more|], from + [dispatched + Dispatches(reply(n))];
      assert more[at'[n]..at'[n + 1]] == more[|es|..];
      forall k | 0 <= k < n + 1 ensures ToldCall(more, at', from', k, reply(k), tool) {
        if k < n {
          assert ToldCall(more, at, from, k, reply(k), tool);
        }
      }
    }
  }

  lemma RequestsMore(requests: seq<seq<Message>>, msgs: seq<Message>, after: seq<Message>, start: seq<Message>,
                     from: seq<nat>, d: nat, reply: nat -> Reply, tool: nat -> ToolOut)
    requires |from| == |requests| + 1 && RequestsTold(requests, msgs, start, from, reply, tool)
    requires var n := |requests|; (n > 0 ==> AsksTools(reply(n - 1))) && Leaves(msgs, after, reply(n), tool, from[n])
    ensures RequestsTold(requests + [msgs], after, start, from + [d], reply, tool)
  {
    hide Answered;
    var n, more := |requests|, requests + [msgs];
    forall k | 0 <= k < n ensures Answered(more[k], more[k + 1], reply(k), tool, (from + [d])[k]) {
      if k < n - 1 {
        assert Answered(requests[k], requests[k + 1], reply(k), tool, from[k]);
      }
    }
  }

  lemma TellsMore(t: Trace, start: seq<Message>, at: seq<nat>, from: seq<nat>,
                  reply: nat -> Reply, tool: nat -> ToolOut)
    requires Told(t, start, at, from, reply, tool) && at[|t.requests|] == |t.events|
    requires |t.requests| > 0 ==> AsksTools(reply(|t.requests| - 1))
    ensures var n := |t.requests|; var u := Turn(t, reply(n), tool).0;
      Told(u, start, at + [|u.events|], from + [u.dispatched], reply, tool)
  {
    hide Turn;
    TurnTells(t, reply(|t.requests|), tool);
    CallTold(t, Turn(t, reply(|t.requests|), tool).0, start, at, from, reply, tool);
  }

  lemma CallTold(t: Trace, u: Trace, start: seq<Message>, at: seq<nat>, from: seq<nat>,
                 reply: nat -> Reply, tool: nat -> ToolOut)
    requires Told(t, start, at, from, reply, tool) && at[|t.requests|] == |t.events|
    requires |t.requests| > 0 ==> AsksTools(reply(|t.requests| - 1))
    requires var r := reply(|t.requests|);
      && t.events <= u.events && Chapter(u.events[|t.events|..], r, tool, t.dispatched)
      && u.requests == t.requests + [t.msgs] && u.dispatched == t.dispatched + Dispatches(r)
      && Leaves(t.msgs, u.msgs, r, tool, t.dispatched)
    ensures Told(u, start, at + [|u.events|], from + [u.dispatched], reply, tool)
  {
    var n := |t.requests|;
    assert t.dispatched == from[n];
    hide Chapter, Answered, Dispatches, Leaves, ToldCall, EventsTold, RequestsTold, AsksTools;
    EventsMore(t.events, u.events, t.dispatched, at, from, reply, tool);
    RequestsMore(t.requests, t.msgs, u.msgs, start, from, u.dispatched, reply, tool);
  }

  /** How a run ends after n calls. */
  ghost predicate Closes(t: Trace, n: nat, steps: nat, end: nat, reply: nat -> Reply) {
    && 1 <= n <= steps && end <= |t.events|
    && (forall k :: 0 <= k < n - 1 ==> AsksTools(reply(k)))
    && (if AsksTools(reply(n - 1))
        then n == steps
             && t.events[end..] == [Notice("(stopped: reached the " + Print(steps) + "-step budget)"), Done]
        else end == |t.events|)
  }

  lemma {:induction false} LoopTells(t: Trace, start: seq<Message>, steps: nat, at: seq<nat>, from: seq<nat>,
                                     reply: nat -> Reply, tool: nat -> ToolOut)
    returns (at': seq<nat>, from': seq<nat>)
    requires |t.requests| <= steps && steps >= 1
    requires Told(t, start, at, from, reply, tool) && at[|t.requests|] == |t.events|
    requires forall k :: 0 <= k < |t.requests| ==> AsksTools(reply(k))
    ensures var u := Loop(t, |t.requests|, steps, reply, tool);
      && Told(u, start, at', from', reply, tool)
      && Closes(u, |u.requests|, steps, at'[|u.requests|], reply)
    decreases steps - |t.requests|
  {
    var n := |t.requests|;
    hide EventsTold, RequestsTold, Chapter, Leaves, Dispatches, Answered, Turn;
    if n == steps {
      at', from' := at, from;
      BudgetTells(t, start, steps, at, from, reply, tool);
    } else {
      TellsMore(t, start, at, from, reply, tool);
      TurnTells(t, reply(n), tool);
      var (u, over) := Turn(t, reply(n), tool);
      hide Told;
      var at1, from1 := at + [|u.events|], from + [u.dispatched];
      if over {
        at', from' := at1, from1;
      } else {
        at', from' := LoopTells(u, start, steps, at1, from1, reply, tool);
      }
    }
  }

  lemma BudgetTells(t: Trace, start: seq<Message>, steps: nat, at: seq<nat>, from: seq<nat>,
                    reply: nat -> Reply, tool: nat -> ToolOut)
    requires |t.requests| == steps >= 1
    requires Told(t, start, at, from, reply, tool) && at[steps] == |t.events|
    requires forall k :: 0 <= k < steps ==> AsksTools(reply(k))
    ensures var u := Loop(t, steps, steps, reply, tool);
      Told(u, start, at, from, reply, tool) && |u.requests| == steps && Closes(u, steps, steps, at[steps], reply)
  {
    var u := Loop(t, steps, steps, reply, tool);
    assert u == t.(events := t.events + [Budget(steps)] + [Done]);
    assert t.events <= u.events && u.events[at[steps]..] == [Budget(steps), Done];
    hide Loop, EventsTold, RequestsTold, ToldCall, AsksTools;
    EventsMore(t.events, u.events, t.dispatched, at, from, reply, tool);
  }

  /** Every run, for any provider and any tools. It calls again exactly when the reply
      asks for tools and the budget has room. The first request is the history and the
      user's message; each further one adds the reply to the one before and the answers
      to its calls. The events are the chapters of the calls one after the other and,
      when the last reply still asked for tools, that the budget is used up. */
  lemma Story(msgs: seq<Message>, user: string, steps: nat, reply: nat -> Reply, tool: nat -> ToolOut)
    returns (at: seq<nat>, from: seq<nat>)
    requires steps >= 1
    ensures var t := Run(msgs, user, steps, reply, tool); var n := |t.requests|;
      && Told(t, msgs + [User(user)], at, from, reply, tool)
      && Closes(t, n, steps, at[n], reply)
      && (forall k :: 0 <= k < n ==> (k + 1 < n <==> k + 1 < steps && AsksTools(reply(k))))
  {
    var start := Begin(msgs, user);
    at, from := LoopTells(start, msgs + [User(user)], steps, [0], [0], reply, tool);
  }

  /** So the last thing said before done is that the budget is used up if and only if
      it is and the last reply asked for tools. */
  lemma BudgetNoticeIff(msgs: seq<Message>, user: string, steps: nat, reply: nat -> Reply, tool: nat -> ToolOut)
    requires steps >= 1
    ensures var t := Run(msgs, user, steps, reply, tool); var n := |t.requests|;
      && n >= 1 && |t.events| >= 2
      && (t.events[|t.events| - 2] == Notice("(stopped: reached the " + Print(steps) + "-step budget)")
          <==> n == steps && AsksTools(reply(n - 1)))
  {
    var at, from := Story(msgs, user, steps, reply, tool);
    var t := Run(msgs, user, steps, reply, tool);
    var n := |t.requests|;
    hide Run, Tokens;
    assert ToldCall(t.events, at, from, n - 1, reply(n - 1), tool);
    var es := t.events[at[n - 1]..at[n]];
    if AsksTools(reply(n - 1)) {
      assert t.events[at[n]..][0] == t.events[at[n]];
    } else {
      assert |es| >= 2 && es[|es| - 2] == t.events[|t.events| - 2];
      NotBudget(es, reply(n - 1), tool, from[n - 1], steps);
    }
  }

  lemma NotBudget(es: seq<Event>, r: Reply, tool: nat -> ToolOut, from: nat, steps: nat)
    requires Chapter(es, r, tool, from) && !AsksTools(r)
    ensures |es| >= 2 && es[|es| - 2] != Notice("(stopped: reached the " + Print(steps) + "-step budget)")
  {
    assert "⏹ Stopped."[0] != "(stopped: reached the "[0];
  }
}
