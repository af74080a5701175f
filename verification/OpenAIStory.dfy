/** A whole OpenAI run, over either API, told from the provider's replies and the tools'
    outputs; and the system prompt over all the runs of a chat. */
module OpenAIStory {
  import opened Common
  import opened Decimal
  import opened Events
  import opened OpenAIRunner

  /** One tool_use and one tool_result for each call, from place q of the events on. */
  ghost predicate Tools(es: seq<Event>, q: nat, calls: seq<Call>, tool: nat -> ToolOut, from: nat) {
    && |es| == q + 2 * |calls|
    && forall j :: 0 <= j < |calls| ==>
         && es[q + 2 * j] == ToolUse(calls[j].name + "  " + calls[j].args)
         && es[q + 2 * j + 1] == ToolResult(tool(from + j).shown)
  }

  lemma {:induction false} ToolEventsAre(calls: seq<Call>, tool: nat -> ToolOut, from: nat)
    ensures Tools(ToolEvents(calls, tool, from), 0, calls, tool, from)
  {
    if calls != [] {
      var n := |calls| - 1;
      ToolEventsAre(calls[..n], tool, from);
      assert forall j :: 0 <= j < n ==> calls[..n][j] == calls[j];
    }
  }

  lemma ToolsAfter(head: seq<Event>, calls: seq<Call>, tool: nat -> ToolOut, from: nat)
    ensures Tools(head + ToolEvents(calls, tool, from), |head|, calls, tool, from)
  {
    ToolEventsAre(calls, tool, from);
  }

  /** What is said when a call fails. */
  function Failure(stopped: bool, text: string): seq<Event> {
    [if stopped then Notice("⏹ Stopped.") else Error(text), Done]
  }

  /** What is said when the budget is used up. */
  function UsedUp(steps: nat): seq<Event> {
    [Notice("(stopped: reached the " + Print(steps) + "-step budget)"), Done]
  }

  // ---- One Responses call ----

  predicate Calls(r: Response) { r.Responded? && r.calls != [] }

  function RespDispatches(r: Response): nat { if Calls(r) then |r.calls| else 0 }

  /** The events of one Responses call. */
  ghost predicate RespChapter(es: seq<Event>, r: Response, tool: nat -> ToolOut, from: nat) {
    match r
    case RespFailed(stopped, text) => es == [Thinking] + Failure(stopped, text)
    case Responded(id, text, calls, tokensIn, tokensOut) =>
      var head := [Thinking, Usage(tokensIn, tokensOut)] + if text == "" then [] else [Token(text)];
      if calls == [] then es == head + [Done]
      else head <= es && Tools(es, |head|, calls, tool, from)
  }

  /** The request after a response with calls: it chains the response and holds one
      output for each call, under the call's id and with what the tool returned. */
  ghost predicate Chains(q: Request, r: Response, tool: nat -> ToolOut, from: nat) {
    && Calls(r) && q.prev == r.id && |q.input| == |r.calls|
    && forall j :: 0 <= j < |r.calls| ==> q.input[j] == Output(r.calls[j].id, tool(from + j).out)
  }

  /** What a Responses call adds, whatever it comes to. */
  ghost predicate RespAdds(t: Trace, u: Trace, input: seq<Item>, next: seq<Item>, over: bool,
                           r: Response, tool: nat -> ToolOut) {
    && t.events <= u.events && RespChapter(u.events[|t.events|..], r, tool, t.dispatched)
    && u.resps == t.resps + [Request(t.st.prev, input)]
    && u.dispatched == t.dispatched + RespDispatches(r)
    && (over <==> !Calls(r))
    && (Calls(r) ==> Chains(Request(u.st.prev, next), r, tool, t.dispatched))
    && u.st == t.st.(prev := if r.Responded? then r.id else t.st.prev) && u.chats == t.chats
  }

  lemma ResponseAdds(t: Trace, input: seq<Item>, r: Response, tool: nat -> ToolOut)
    requires r.Responded?
    ensures var (u, next, over) := RespTurn(t, input, r, tool); RespAdds(t, u, input, next, over, r, tool)
  {
    hide ToolEvents, Tools, Tokens;
    var u := RespTurn(t, input, r, tool).0;
    RespTurnAnswers(t, input, r, tool);
    OneToken(r.text);
    hide RespTurn;
    var head := [Thinking, Usage(r.tokensIn, r.tokensOut)] + if r.text == "" then [] else [Token(r.text)];
    ToolsAfter(head, r.calls, tool, t.dispatched);
    assert u.events == t.events + (head + if r.calls == [] then [Done] else ToolEvents(r.calls, tool, t.dispatched));
  }

  lemma RespTells(t: Trace, input: seq<Item>, r: Response, tool: nat -> ToolOut)
    ensures var (u, next, over) := RespTurn(t, input, r, tool); RespAdds(t, u, input, next, over, r, tool)
  {
    if r.RespFailed? {
      var u := RespTurn(t, input, r, tool).0;
      RespTurnFails(t, input, r, tool);
      hide RespTurn;
      assert u.events == t.events + ([Thinking] + Failure(r.stopped, r.text));
    } else {
      hide RespTurn, RespAdds;
      ResponseAdds(t, input, r, tool);
    }
  }

  // ---- A run of Responses calls ----

  ghost predicate RespsTold(events: seq<Event>, dispatched: nat, at: seq<nat>, from: seq<nat>, w: World)
    requires |at| == |from| >= 1
  {
    var n := |at| - 1;
    && at[n] <= |events| && dispatched == from[n]
    && forall k :: 0 <= k < n ==> RespTold(events, at, from, k, w)
  }

  ghost predicate RespTold(events: seq<Event>, at: seq<nat>, from: seq<nat>, k: nat, w: World)
    requires k + 1 < |at| == |from|
  {
    && at[k] <= at[k + 1] <= |events|
    && RespChapter(events[at[k]..at[k + 1]], w.resp(k), w.tool, from[k])
    && from[k + 1] == from[k] + RespDispatches(w.resp(k))
  }

  /** Each request chains the response before it; the first one is given. */
  ghost predicate ChainTold(resps: seq<Request>, first: Request, from: seq<nat>, w: World)
    requires |from| == |resps| + 1
  {
    && (resps != [] ==> resps[0] == first)
    && forall k :: 0 <= k < |resps| - 1 ==> Chains(resps[k + 1], w.resp(k), w.tool, from[k])
  }

  /** The Responses calls of a run: at[k] is where the events of call k start, from[k]
      how many dispatches came before it. */
  ghost predicate Responses(t: Trace, first: Request, at: seq<nat>, from: seq<nat>, w: World) {
    && |at| == |from| == |t.resps| + 1
    && RespsTold(t.events, t.dispatched, at, from, w)
    && ChainTold(t.resps, first, from, w)
  }

  /** How it ends. */
  ghost predicate Closes(t: Trace, steps: nat, end: nat, w: World) {
    var n := |t.resps|;
    && 1 <= n <= steps && end <= |t.events|
    && (forall k :: 0 <= k < n - 1 ==> Calls(w.resp(k)))
    && (if Calls(w.resp(n - 1)) then n == steps && t.events[end..] == UsedUp(steps) else end == |t.events|)
  }

  lemma RespsMore(es: seq<Event>, more: seq<Event>, dispatched: nat, at: seq<nat>, from: seq<nat>, w: World)
    requires |at| == |from| >= 1 && RespsTold(es, dispatched, at, from, w) && es <= more
    ensures RespsTold(more, dispatched, at, from, w)
    ensures var n := |at| - 1; var r := w.resp(n);
      at[n] == |es| && RespChapter(more[|es|..], r, w.tool, dispatched) ==>
        var d := dispatched + RespDispatches(r); RespsTold(more, d, at + [|more|], from + [d], w)
  {
    hide RespChapter, RespDispatches;
    var n := |at| - 1;
    forall k | 0 <= k < n ensures RespTold(more, at, from, k, w) {
      assert RespTold(es, at, from, k, w);
      assert more[at[k]..at[k + 1]] == es[at[k]..at[k + 1]];
    }
    if at[n] == |es| && RespChapter(more[|es|..], w.resp(n), w.tool, dispatched) {
      var d := dispatched + RespDispatches(w.resp(n));
      var at', from' := at + [|more|], from + [d];
      assert more[at'[n]..at'[n + 1]] == more[|es|..];
      forall k | 0 <= k < n + 1 ensures RespTold(more, at', from', k, w) {
        if k < n {
          assert RespTold(more, at, from, k, w);
        }
      }
    }
  }

  lemma ChainMore(resps: seq<Request>, q: Request, first: Request, from: seq<nat>, d: nat, w: World)
    requires |from| == |resps| + 1 && ChainTold(resps, first, from, w)
    requires var n := |resps|; if n == 0 then q == first else Chains(q, w.resp(n - 1), w.tool, from[n - 1])
    ensures ChainTold(resps + [q], first, from + [d], w)
  {
    hide Chains;
    var n, more := |resps|, resps + [q];
    forall k | 0 <= k < n ensures Chains(more[k + 1], w.resp(k), w.tool, (from + [d])[k]) {
      if k < n - 1 {
        assert Chains(resps[k + 1], w.resp(k), w.tool, from[k]);
      }
    }
  }

  lemma RespCallTold(t: Trace, u: Trace, input: seq<Item>, first: Request, at: seq<nat>, from: seq<nat>, w: World)
    requires Responses(t, first, at, from, w) && at[|t.resps|] == |t.events|
    requires var n := |t.resps|; var q := Request(t.st.prev, input); var r := w.resp(n);
      && (if n == 0 then q == first else Chains(q, w.resp(n - 1), w.tool, from[n - 1]))
      && t.events <= u.events && RespChapter(u.events[|t.events|..], r, w.tool, t.dispatched)
      && u.resps == t.resps + [q] && u.dispatched == t.dispatched + RespDispatches(r)
    ensures Responses(u, first, at + [|u.events|], from + [u.dispatched], w)
  {
    assert t.dispatched == from[|t.resps|];
    hide RespChapter, Chains, RespDispatches, RespsTold, ChainTold;
    RespsMore(t.events, u.events, t.dispatched, at, from, w);
    ChainMore(t.resps, Request(t.st.prev, input), first, from, u.dispatched, w);
  }

  lemma {:induction false} RespLoopTells(t: Trace, input: seq<Item>, steps: nat, first: Request,
                                         at: seq<nat>, from: seq<nat>, w: World)
    returns (at': seq<nat>, from': seq<nat>)
    requires |t.resps| <= steps && steps >= 1
    requires Responses(t, first, at, from, w) && at[|t.resps|] == |t.events|
    requires forall k :: 0 <= k < |t.resps| ==> Calls(w.resp(k))
    requires var n := |t.resps|; var q := Request(t.st.prev, input);
      if n == 0 then q == first else Chains(q, w.resp(n - 1), w.tool, from[n - 1])
    ensures var u := RespLoop(t, input, |t.resps|, steps, w);
      && Responses(u, first, at', from', w) && Closes(u, steps, at'[|u.resps|], w)
      && t.events <= u.events && at'[0] == at[0] && from'[0] == from[0]
    decreases steps - |t.resps|
  {
    var n := |t.resps|;
    hide RespsTold, ChainTold, RespChapter, Chains, RespDispatches, RespTurn;
    if n == steps {
      at', from' := at, from;
      RespBudgetTells(t, input, steps, first, at, from, w);
    } else {
      RespTells(t, input, w.resp(n), w.tool);
      var (u, next, over) := RespTurn(t, input, w.resp(n), w.tool);
      RespCallTold(t, u, input, first, at, from, w);
      assert t.dispatched == from[n] by {
        DispatchedIs(t, first, at, from, w);
      }
      hide Responses;
      var at1, from1 := at + [|u.events|], from + [u.dispatched];
      if over {
        at', from' := at1, from1;
      } else {
        at', from' := RespLoopTells(u, next, steps, first, at1, from1, w);
      }
    }
  }

  lemma DispatchedIs(t: Trace, first: Request, at: seq<nat>, from: seq<nat>, w: World)
    requires Responses(t, first, at, from, w)
    ensures |from| == |t.resps| + 1 && t.dispatched == from[|t.resps|]
  {
  }

  lemma RespBudgetTells(t: Trace, input: seq<Item>, steps: nat, first: Request, at: seq<nat>, from: seq<nat>, w: World)
    requires |t.resps| == steps >= 1 && Responses(t, first, at, from, w) && at[steps] == |t.events|
    requires forall k :: 0 <= k < steps ==> Calls(w.resp(k))
    ensures var u := RespLoop(t, input, steps, steps, w);
      && Responses(u, first, at, from, w) && |u.resps| == steps && Closes(u, steps, at[steps], w)
      && t.events <= u.events
  {
    var u := RespLoop(t, input, steps, steps, w);
    assert u == t.(events := t.events + [Budget(steps)] + [Done]);
    assert t.events <= u.events && u.events[at[steps]..] == UsedUp(steps);
    hide RespLoop, RespsTold, ChainTold, Calls;
    RespsMore(t.events, u.events, t.dispatched, at, from, w);
  }

  // ---- One Chat Completions call ----

  /** The reply asks for tools, and the run goes on if the budget allows. */
  predicate Asks(r: ChatReply) { r.ChatReplied? && r.toolCalls && r.calls != [] }

  /** The call finds that the model is not a chat model, and is the first of its run. */
  predicate Switches(r: ChatReply, k: nat) { r.ChatFailed? && r.notChat && k == 0 }

  function ChatDispatches(r: ChatReply): nat { if Asks(r) then |r.calls| else 0 }

  /** The events of chat call k. */
  ghost predicate ChatChapter(es: seq<Event>, k: nat, r: ChatReply, tool: nat -> ToolOut, from: nat) {
    var called := [Thinking] + Tokens(r.deltas);
    match r
    case ChatFailed(_, _, stopped, text) => es == called + if Switches(r, k) then [] else Failure(stopped, text)
    case NoChoices(_) => es == called + [Error("empty response from provider"), Done]
    case ChatReplied(_, content, calls, toolCalls, tokensIn, tokensOut) =>
      var head := called + [Usage(tokensIn, tokensOut)];
      if !Asks(r) then es == head + [Done]
      else head <= es && Tools(es, |head|, calls, tool, from)
  }

  /** The history after a reply that asks for tools: the reply, and one tool message for
      each call, under the call's id and with what the tool returned. */
  ghost predicate Answered(before: seq<Message>, after: seq<Message>, r: ChatReply, tool: nat -> ToolOut, from: nat) {
    Asks(r) &&
    var n := |before|;
    && |after| == n + 1 + |r.calls| && after[..n] == before && after[n] == Assistant(r.content, r.calls)
    && forall j :: 0 <= j < |r.calls| ==> after[n + 1 + j] == ToolMsg(r.calls[j].id, tool(from + j).out)
  }

  /** The history a reply leaves. */
  ghost predicate Leaves(before: seq<Message>, after: seq<Message>, r: ChatReply, tool: nat -> ToolOut, from: nat) {
    if !r.ChatReplied? then after == before
    else if !Asks(r) then after == before + [Assistant(r.content, r.calls)]
    else Answered(before, after, r, tool, from)
  }

  /** What a chat call adds, whatever it comes to. */
  ghost predicate ChatAdds(t: Trace, u: Trace, out: Outcome, k: nat, r: ChatReply, tool: nat -> ToolOut) {
    && t.events <= u.events && ChatChapter(u.events[|t.events|..], k, r, tool, t.dispatched)
    && u.chats == t.chats + [t.st.msgs] && u.resps == t.resps
    && u.dispatched == t.dispatched + ChatDispatches(r)
    && Leaves(t.st.msgs, u.st.msgs, r, tool, t.dispatched)
    && (out == Switch <==> Switches(r, k)) && (out == Again <==> Asks(r))
    && u.st.started == t.st.started && u.st.prev == t.st.prev
    && (u.st.useResponses <==> t.st.useResponses || Switches(r, k))
  }

  lemma ReplyAdds(t: Trace, k: nat, r: ChatReply, tool: nat -> ToolOut)
    requires r.ChatReplied?
    ensures ChatAdds(t, ChatTurn(t, k, r, tool).0, ChatTurn(t, k, r, tool).1, k, r, tool)
  {
    hide ToolEvents, Tools, Tokens;
    var u := ChatTurn(t, k, r, tool).0;
    ChatTurnAnswers(t, k, r, tool);
    hide ChatTurn;
    var head := [Thinking] + Tokens(r.deltas) + [Usage(r.tokensIn, r.tokensOut)];
    ToolsAfter(head, r.calls, tool, t.dispatched);
    assert u.events == t.events + (head + if !Asks(r) then [Done] else ToolEvents(r.calls, tool, t.dispatched));
  }

  lemma FailureAdds(t: Trace, k: nat, r: ChatReply, tool: nat -> ToolOut)
    requires !r.ChatReplied?
    ensures ChatAdds(t, ChatTurn(t, k, r, tool).0, ChatTurn(t, k, r, tool).1, k, r, tool)
  {
    hide Tokens;
    var u := ChatTurn(t, k, r, tool).0;
    ChatTurnFails(t, k, r, tool);
    hide ChatTurn;
    var called := [Thinking] + Tokens(r.deltas);
    if Switches(r, k) {
      assert u.events == t.events + (called + []);
    } else if r.NoChoices? {
      assert u.events == t.events + (called + [Error("empty response from provider"), Done]);
    } else {
      assert u.events == t.events + (called + Failure(r.stopped, r.text));
    }
  }

  // ---- A run of chat calls ----

  ghost predicate ChatTold(events: seq<Event>, at: seq<nat>, from: seq<nat>, k: nat, w: World)
    requires k + 1 < |at| == |from|
  {
    && at[k] <= at[k + 1] <= |events|
    && ChatChapter(events[at[k]..at[k + 1]], k, w.chat(k), w.tool, from[k])
    && from[k + 1] == from[k] + ChatDispatches(w.chat(k))
  }

  ghost predicate ChatsTold(events: seq<Event>, at: seq<nat>, from: seq<nat>, w: World)
    requires |at| == |from| >= 1
  {
    var n := |at| - 1;
    at[0] == 0 && from[0] == 0 && at[n] <= |events| && forall k :: 0 <= k < n ==> ChatTold(events, at, from, k, w)
  }

  ghost predicate HistoryTold(chats: seq<seq<Message>>, msgs: seq<Message>, start: seq<Message>,
                              from: seq<nat>, w: World)
    requires |from| == |chats| + 1
  {
    var n := |chats|;
    && (n > 0 ==> chats[0] == start)
    && (forall k :: 0 <= k < n - 1 ==> Answered(chats[k], chats[k + 1], w.chat(k), w.tool, from[k]))
    && (if n == 0 then msgs == start else Leaves(chats[n - 1], msgs, w.chat(n - 1), w.tool, from[n - 1]))
  }

  /** The chat calls of a run. */
  ghost predicate Chats(t: Trace, start: seq<Message>, at: seq<nat>, from: seq<nat>, w: World) {
    && |at| == |from| == |t.chats| + 1
    && ChatsTold(t.events, at, from, w) && HistoryTold(t.chats, t.st.msgs, start, from, w)
  }

  lemma ChatsMore(es: seq<Event>, more: seq<Event>, at: seq<nat>, from: seq<nat>, w: World)
    requires |at| == |from| >= 1 && ChatsTold(es, at, from, w) && es <= more
    ensures ChatsTold(more, at, from, w)
    ensures var n := |at| - 1; var r := w.chat(n);
      at[n] == |es| && ChatChapter(more[|es|..], n, r, w.tool, from[n]) ==>
        ChatsTold(more, at + [|more|], from + [from[n] + ChatDispatches(r)], w)
  {
    hide ChatChapter, ChatDispatches;
    var n := |at| - 1;
    forall k | 0 <= k < n ensures ChatTold(more, at, from, k, w) {
      assert ChatTold(es, at, from, k, w);
      assert more[at[k]..at[k + 1]] == es[at[k]..at[k + 1]];
    }
    if at[n] == |es| && ChatChapter(more[|es|..], n, w.chat(n), w.tool, from[n]) {
      var at', from' := at + [|more|], from + [from[n] + ChatDispatches(w.chat(n))];
      assert more[at'[n]..at'[n + 1]] == more[|es|..];
      forall k | 0 <= k < n + 1 ensures ChatTold(more, at', from', k, w) {
        if k < n {
          assert ChatTold(more, at, from, k, w);
        }
      }
    }
  }

  lemma HistoryMore(chats: seq<seq<Message>>, msgs: seq<Message>, after: seq<Message>, start: seq<Message>,
                    from: seq<nat>, d: nat, w: World)
    requires |from| == |chats| + 1 && HistoryTold(chats, msgs, start, from, w)
    requires var n := |chats|; (n > 0 ==> Asks(w.chat(n - 1))) && Leaves(msgs, after, w.chat(n), w.tool, from[n])
    ensures HistoryTold(chats + [msgs], after, start, from + [d], w)
  {
    hide Answered;
    var n, more := |chats|, chats + [msgs];
    forall k | 0 <= k < n ensures Answered(more[k], more[k + 1], w.chat(k), w.tool, (from + [d])[k]) {
      if k < n - 1 {
        assert Answered(chats[k], chats[k + 1], w.chat(k), w.tool, from[k]);
      }
    }
  }

  lemma ChatCallTold(t: Trace, u: Trace, start: seq<Message>, at: seq<nat>, from: seq<nat>, w: World)
    requires Chats(t, start, at, from, w) && at[|t.chats|] == |t.events| && t.dispatched == from[|t.chats|]
    requires var n := |t.chats|; var r := w.chat(n);
      && (n > 0 ==> Asks(w.chat(n - 1)))
      && t.events <= u.events && ChatChapter(u.events[|t.events|..], n, r, w.tool, t.dispatched)
      && u.chats == t.chats + [t.st.msgs] && u.dispatched == t.dispatched + ChatDispatches(r)
      && Leaves(t.st.msgs, u.st.msgs, r, w.tool, t.dispatched)
    ensures Chats(u, start, at + [|u.events|], from + [u.dispatched], w)
  {
    hide ChatChapter, Answered, ChatDispatches, Leaves, ChatsTold, HistoryTold, Asks;
    ChatsMore(t.events, u.events, at, from, w);
    HistoryMore(t.chats, t.st.msgs, u.st.msgs, start, from, u.dispatched, w);
  }

  // ---- How it ends ----

  /** Where the events of a run's calls start and how many dispatches came before them,
      for either API. */
  datatype Marks = Marks(at: seq<nat>, from: seq<nat>, respAt: seq<nat>, respFrom: seq<nat>)

  /** After the last chat call the run is over, or it has switched and goes on with the
      other API, from the user's message and with the budget read again. */
  ghost predicate ChatEnds(t: Trace, user: string, prev: string, steps: nat, m: Marks, w: World)
    requires |m.at| == |m.from| == |t.chats| + 1
  {
    var n := |t.chats|;
    && 1 <= n <= steps && m.at[n] <= |t.events|
    && (forall k :: 0 <= k < n - 1 ==> Asks(w.chat(k)))
    && (t.st.useResponses <==> Switches(w.chat(n - 1), n - 1))
    && (if Switches(w.chat(n - 1), n - 1)
        then Responses(t, Request(prev, [UserInput(user)]), m.respAt, m.respFrom, w)
             && m.respAt[0] == m.at[n] && m.respFrom[0] == m.from[n]
             && Closes(t, w.again, m.respAt[|t.resps|], w)
        else t.resps == [] && t.dispatched == m.from[n]
             && (if Asks(w.chat(n - 1)) then n == steps && t.events[m.at[n]..] == UsedUp(steps)
                 else m.at[n] == |t.events|))
  }

  ghost predicate ChatRun(t: Trace, start: seq<Message>, user: string, prev: string, steps: nat, m: Marks, w: World) {
    Chats(t, start, m.at, m.from, w) && ChatEnds(t, user, prev, steps, m, w)
  }

  /** Before a chat call. */
  ghost predicate Chatting(t: Trace, start: seq<Message>, at: seq<nat>, from: seq<nat>, w: World) {
    && Chats(t, start, at, from, w) && at[|t.chats|] == |t.events| && t.dispatched == from[|t.chats|]
    && t.resps == [] && !t.st.useResponses && forall k :: 0 <= k < |t.chats| ==> Asks(w.chat(k))
  }

  lemma ChatBudgetTells(t: Trace, user: string, start: seq<Message>, steps: nat, at: seq<nat>, from: seq<nat>, w: World)
    requires |t.chats| == steps >= 1 && Chatting(t, start, at, from, w)
    ensures ChatRun(ChatLoop(t, user, steps, steps, w), start, user, t.st.prev, steps, Marks(at, from, [], []), w)
  {
    var u := ChatLoop(t, user, steps, steps, w);
    assert u == t.(events := t.events + [Budget(steps)] + [Done]);
    assert t.events <= u.events && u.events[at[steps]..] == UsedUp(steps);
    hide ChatLoop, ChatsTold, HistoryTold, Asks;
    ChatsMore(t.events, u.events, at, from, w);
  }

  /** The other API goes on from where the chat call left off. */
  lemma SwitchTells(t: Trace, u: Trace, user: string, start: seq<Message>, steps: nat,
                    at: seq<nat>, from: seq<nat>, w: World) returns (m: Marks)
    requires Chats(u, start, at, from, w) && at[|u.chats|] == |u.events| && u.dispatched == from[|u.chats|]
    requires |u.chats| == 1 <= steps && u.resps == [] && u.st.useResponses && Switches(w.chat(0), 0)
    ensures ChatRun(RespLoop(u, [UserInput(user)], 0, w.again, w), start, user, u.st.prev, steps, m, w)
  {
    hide RespLoop, ChatsTold, HistoryTold, RespsTold, ChainTold, Closes, Responses;
    var first := Request(u.st.prev, [UserInput(user)]);
    var v := RespLoop(u, [UserInput(user)], 0, w.again, w);
    RespLoopKeeps(u, [UserInput(user)], 0, w.again, w);
    NoResponses(u, first, w);
    var rat, rfrom := RespLoopTells(u, [UserInput(user)], w.again, first, [|u.events|], [u.dispatched], w);
    m := Marks(at, from, rat, rfrom);
    ChatsMore(u.events, v.events, at, from, w);
    ResponsesCount(v, first, rat, rfrom, w);
  }

  lemma NoResponses(u: Trace, first: Request, w: World)
    requires u.resps == []
    ensures Responses(u, first, [|u.events|], [u.dispatched], w)
  {
  }

  lemma ResponsesCount(u: Trace, first: Request, at: seq<nat>, from: seq<nat>, w: World)
    requires Responses(u, first, at, from, w)
    ensures |at| == |from| == |u.resps| + 1
  {
  }

  lemma {:induction false} RespLoopKeeps(t: Trace, input: seq<Item>, step: nat, steps: nat, w: World)
    requires step <= steps
    ensures var u := RespLoop(t, input, step, steps, w);
      u.chats == t.chats && u.st.msgs == t.st.msgs && u.st.useResponses == t.st.useResponses
      && u.st.started == t.st.started
    decreases steps - step
  {
    if step < steps {
      RespTells(t, input, w.resp(step), w.tool);
      var (u, next, over) := RespTurn(t, input, w.resp(step), w.tool);
      hide RespTurn;
      if !over {
        RespLoopKeeps(u, next, step + 1, steps, w);
      }
    }
  }

  lemma {:induction false} ChatLoopTells(t: Trace, user: string, start: seq<Message>, steps: nat,
                                         at: seq<nat>, from: seq<nat>, w: World)
    returns (m: Marks)
    requires |t.chats| <= steps && steps >= 1 && Chatting(t, start, at, from, w)
    ensures var u := ChatLoop(t, user, |t.chats|, steps, w);
      ChatRun(u, start, user, t.st.prev, steps, m, w) && u.st.started == t.st.started
    decreases steps - |t.chats|
  {
    var n := |t.chats|;
    hide ChatsTold, HistoryTold, ChatChapter, Leaves, ChatDispatches, ChatTurn, RespLoop, ChatRun;
    ChatLoopStep(t, user, n, steps, w);
    if n == steps {
      ChatBudgetTells(t, user, start, steps, at, from, w);
      m := Marks(at, from, [], []);
    } else {
      if w.chat(n).ChatReplied? {
        ReplyAdds(t, n, w.chat(n), w.tool);
      } else {
        FailureAdds(t, n, w.chat(n), w.tool);
      }
      var (u, out) := ChatTurn(t, n, w.chat(n), w.tool);
      ChatCallTold(t, u, start, at, from, w);
      var at1, from1 := at + [|u.events|], from + [u.dispatched];
      hide Chats, ChatLoop;
      if out == Again {
        assert Chatting(u, start, at1, from1, w);
        m := ChatLoopTells(u, user, start, steps, at1, from1, w);
      } else if out == Switch {
        RespLoopKeeps(u, [UserInput(user)], 0, w.again, w);
        m := SwitchTells(t, u, user, start, steps, at1, from1, w);
      } else {
        m := Marks(at1, from1, [], []);
        OverTells(u, user, start, steps, at1, from1, w);
      }
    }
  }

  lemma OverTells(u: Trace, user: string, start: seq<Message>, steps: nat, at: seq<nat>, from: seq<nat>, w: World)
    requires Chats(u, start, at, from, w) && at[|u.chats|] == |u.events| && u.dispatched == from[|u.chats|]
    requires 1 <= |u.chats| <= steps && u.resps == [] && !u.st.useResponses
    requires forall k :: 0 <= k < |u.chats| - 1 ==> Asks(w.chat(k))
    requires var n := |u.chats|; !Asks(w.chat(n - 1)) && !Switches(w.chat(n - 1), n - 1)
    ensures ChatRun(u, start, user, u.st.prev, steps, Marks(at, from, [], []), w)
  {
    hide ChatsTold, HistoryTold;
  }

  // ---- A whole run ----

  /** Every run, for any provider and any tools. A latched runner makes Responses calls
      only: the first chains what earlier runs left and holds the user's message, each
      further one chains the response before it and holds the answers to its calls.
      Otherwise it makes chat calls: the first request is the history and the user's
      message, after the system prompt when none was put in yet; each further one adds
      the reply to the one before and the answers to its calls. Either way it calls
      again exactly when the reply holds calls to answer and the budget has room. */
  lemma Story(st: State, user: string, steps: nat, w: World) returns (m: Marks)
    requires steps >= 1
    ensures var t := Run(st, user, steps, w); var first := Request(st.prev, [UserInput(user)]);
      && (st.useResponses ==>
            && t.chats == [] && t.st.msgs == st.msgs && t.st.started == st.started && t.st.useResponses
            && Responses(t, first, m.respAt, m.respFrom, w) && m.respAt[0] == 0 && m.respFrom[0] == 0
            && Closes(t, steps, m.respAt[|t.resps|], w))
      && (!st.useResponses ==>
            t.st.started
            && ChatRun(t, st.msgs + (if st.started then [] else [System]) + [User(user)], user, st.prev, steps, m, w))
      && CallsAgain(t, steps, w)
  {
    hide ChatLoop, RespLoop;
    if st.useResponses {
      var t0 := Trace(st, [], [], [], 0);
      RespLoopKeeps(t0, [UserInput(user)], 0, steps, w);
      var rat, rfrom := RespLoopTells(t0, [UserInput(user)], steps, Request(st.prev, [UserInput(user)]), [0], [0], w);
      m := Marks([], [], rat, rfrom);
    } else {
      var t0 := Trace(st.(msgs := Opening(st, user), started := true), [], [], [], 0);
      m := ChatLoopTells(t0, user, Opening(st, user), steps, [0], [0], w);
    }
  }

  /** A run calls again exactly when there is something to answer and room to. */
  ghost predicate CallsAgain(t: Trace, steps: nat, w: World) {
    && (forall k :: 0 <= k < |t.chats| ==> (k + 1 < |t.chats| <==> k + 1 < steps && Asks(w.chat(k))))
    && (forall k :: 0 <= k < |t.resps| ==>
          (k + 1 < |t.resps| <==> k + 1 < (if t.chats == [] then steps else w.again) && Calls(w.resp(k))))
  }

  lemma NotUsedUp(es: seq<Event>, e: Event, steps: nat)
    requires |es| >= 2 && es[|es| - 2] == e
    requires e == Notice("⏹ Stopped.") || !e.Notice?
    ensures es[|es| - 2] != UsedUp(steps)[0]
  {
    assert "⏹ Stopped."[0] != "(stopped: reached the "[0];
  }

  lemma RespNotBudget(es: seq<Event>, r: Response, tool: nat -> ToolOut, from: nat, steps: nat)
    requires RespChapter(es, r, tool, from) && !Calls(r)
    ensures |es| >= 2 && es[|es| - 2] != UsedUp(steps)[0]
  {
    NotUsedUp(es, es[|es| - 2], steps);
  }

  lemma ChatNotBudget(es: seq<Event>, k: nat, r: ChatReply, tool: nat -> ToolOut, from: nat, steps: nat)
    requires ChatChapter(es, k, r, tool, from) && !Asks(r) && !Switches(r, k)
    ensures |es| >= 2 && es[|es| - 2] != UsedUp(steps)[0]
  {
    NotUsedUp(es, es[|es| - 2], steps);
  }

  lemma RespsEnd(t: Trace, first: Request, steps: nat, at: seq<nat>, from: seq<nat>, w: World)
    requires Responses(t, first, at, from, w) && Closes(t, steps, at[|t.resps|], w)
    ensures var n := |t.resps|;
      && n >= 1 && |t.events| >= 2
      && (t.events[|t.events| - 2] == UsedUp(steps)[0] <==> n == steps && Calls(w.resp(n - 1)))
  {
    var n := |t.resps|;
    hide RespChapter;
    assert RespTold(t.events, at, from, n - 1, w);
    if Calls(w.resp(n - 1)) {
      assert t.events[at[n]..][0] == t.events[at[n]];
    } else {
      RespNotBudget(t.events[at[n - 1]..at[n]], w.resp(n - 1), w.tool, from[n - 1], steps);
    }
  }

  lemma ChatsEnd(t: Trace, start: seq<Message>, user: string, prev: string, steps: nat, m: Marks, w: World)
    requires ChatRun(t, start, user, prev, steps, m, w) && !t.st.useResponses
    ensures var n := |t.chats|;
      && n >= 1 && |t.events| >= 2
      && (t.events[|t.events| - 2] == UsedUp(steps)[0] <==> n == steps && Asks(w.chat(n - 1)))
  {
    var n := |t.chats|;
    hide ChatChapter, HistoryTold;
    assert ChatTold(t.events, m.at, m.from, n - 1, w);
    if Asks(w.chat(n - 1)) {
      assert t.events[m.at[n]..][0] == t.events[m.at[n]];
    } else {
      ChatNotBudget(t.events[m.at[n - 1]..m.at[n]], n - 1, w.chat(n - 1), w.tool, m.from[n - 1], steps);
    }
  }

  /** The last thing said before done is that the budget is used up if and only if it is
      and the last reply held calls to answer, for either API. */
  lemma BudgetNoticeIff(st: State, user: string, steps: nat, w: World)
    requires steps >= 1
    ensures var t := Run(st, user, steps, w);
      && |t.events| >= 2 && (t.resps != [] || t.chats != [])
      && (t.resps == [] ==>
            var n := |t.chats|;
            (t.events[|t.events| - 2] == UsedUp(steps)[0] <==> n == steps && Asks(w.chat(n - 1))))
      && (t.resps != [] ==>
            var n, budget := |t.resps|, if t.chats == [] then steps else w.again;
            (t.events[|t.events| - 2] == UsedUp(budget)[0] <==> n == budget && Calls(w.resp(n - 1))))
  {
    var m := Story(st, user, steps, w);
    var t := Run(st, user, steps, w);
    var first := Request(st.prev, [UserInput(user)]);
    hide Run, Responses, Chats, Closes;
    if st.useResponses {
      RespsEnd(t, first, steps, m.respAt, m.respFrom, w);
    } else if t.st.useResponses {
      RespsEnd(t, first, w.again, m.respAt, m.respFrom, w);
    } else {
      var start := st.msgs + (if st.started then [] else [System]) + [User(user)];
      ChatsEnd(t, start, user, st.prev, steps, m, w);
    }
  }

  // ---- The system prompt ----

  /** The system prompt first, and nowhere else. */
  ghost predicate SystemFirst(msgs: seq<Message>) {
    msgs != [] && forall k :: 0 <= k < |msgs| ==> (msgs[k] == System <==> k == 0)
  }

  lemma StaysFirst(before: seq<Message>, after: seq<Message>, r: ChatReply, tool: nat -> ToolOut, from: nat)
    requires SystemFirst(before) && Leaves(before, after, r, tool, from)
    ensures SystemFirst(after)
  {
    var n := |before|;
    assert after[..n] == before;
    forall k | n <= k < |after| ensures after[k] != System {
      if k > n && Asks(r) {
        var j := k - n - 1;
        assert after[n + 1 + j] == ToolMsg(r.calls[j].id, tool(from + j).out);
      }
    }
    forall k | 0 <= k < n ensures after[k] == before[k] {
      assert after[..n][k] == after[k];
    }
  }

  lemma {:induction false} AllFirst(chats: seq<seq<Message>>, msgs: seq<Message>, start: seq<Message>,
                                    from: seq<nat>, w: World, n: nat)
    requires |from| == |chats| + 1 && HistoryTold(chats, msgs, start, from, w) && SystemFirst(start) && n < |chats|
    ensures SystemFirst(chats[n])
  {
    if n > 0 {
      AllFirst(chats, msgs, start, from, w, n - 1);
      assert Answered(chats[n - 1], chats[n], w.chat(n - 1), w.tool, from[n - 1]);
      hide SystemFirst, Answered;
      StaysFirst(chats[n - 1], chats[n], w.chat(n - 1), w.tool, from[n - 1]);
    }
  }

  /** A runner that is fresh, or has its system prompt. */
  ghost predicate Prompted(st: State) {
    if st.started then SystemFirst(st.msgs) else st.msgs == [] && !st.useResponses
  }

  lemma RunPrompted(st: State, user: string, steps: nat, w: World)
    requires steps >= 1 && Prompted(st)
    ensures var t := Run(st, user, steps, w);
      && t.st.started && Prompted(t.st)
      && (forall k :: 0 <= k < |t.chats| ==> SystemFirst(t.chats[k]))
      && (t.chats != [] ==>
            t.chats[0] == if st.started then st.msgs + [User(user)] else [System, User(user)])
      && (t.chats == [] <==> st.useResponses)
  {
    var m := Story(st, user, steps, w);
    var t := Run(st, user, steps, w);
    hide Run, Responses, ChatsTold, Closes;
    if !st.useResponses {
      var start := st.msgs + (if st.started then [] else [System]) + [User(user)];
      assert SystemFirst(start);
      assert [] + [System] + [User(user)] == [System, User(user)];
      assert st.msgs + [] == st.msgs;
      var n := |t.chats|;
      forall k | 0 <= k < n ensures SystemFirst(t.chats[k]) {
        AllFirst(t.chats, t.st.msgs, start, m.from, w, k);
      }
      assert Leaves(t.chats[n - 1], t.st.msgs, w.chat(n - 1), w.tool, m.from[n - 1]);
      StaysFirst(t.chats[n - 1], t.st.msgs, w.chat(n - 1), w.tool, m.from[n - 1]);
    }
  }

  /** Over all the runs of a runner: in every chat request the system prompt stands first
      and nowhere else, and the first request of a run is the history left before it and
      the user's message, or the prompt and the message for the first run. */
  lemma {:induction false} SystemOnce(st: State, jobs: seq<Job>, i: nat)
    requires Prompted(st) && i < |jobs| && forall k :: 0 <= k < |jobs| ==> jobs[k].steps >= 1
    ensures |Runs(st, jobs)| == |jobs|
    ensures var t := Runs(st, jobs)[i]; var user := User(jobs[i].user);
      && (forall k :: 0 <= k < |t.chats| ==> SystemFirst(t.chats[k]))
      && (t.chats != [] ==>
            t.chats[0] == if i > 0 then Runs(st, jobs)[i - 1].st.msgs + [user]
                          else if st.started then st.msgs + [user] else [System, user])
    decreases |jobs|
  {
    RunsCount(st, jobs);
    RunPrompted(st, jobs[0].user, jobs[0].steps, jobs[0].world);
    var t := Run(st, jobs[0].user, jobs[0].steps, jobs[0].world);
    hide Run, Prompted, SystemFirst;
    if i > 0 {
      SystemOnce(t.st, jobs[1..], i - 1);
      assert Runs(st, jobs)[i] == Runs(t.st, jobs[1..])[i - 1];
      if i > 1 {
        assert Runs(st, jobs)[i - 1] == Runs(t.st, jobs[1..])[i - 2];
      }
    }
  }
}
