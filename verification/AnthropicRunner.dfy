/** The agent loop over the Anthropic Messages API. The provider is an arbitrary
    sequence of replies, the dispatcher an arbitrary sequence of outputs. */
module AnthropicRunner {
  import opened Events

  datatype Block = TextBlock(text: string) | ToolUseBlock(id: string, name: string, input: string)

  datatype Answer = Answer(id: string, out: string, isErr: bool)

  datatype Message = User(text: string) | Assistant(blocks: seq<Block>) | Results(answers: seq<Answer>)

  /** One provider call: a stream of text deltas that then fails, or a message. */
  datatype Reply =
    | Failed(deltas: seq<string>, stopped: bool, text: string)
    | Replied(deltas: seq<string>, blocks: seq<Block>, toolUse: bool, tokensIn: nat, tokensOut: nat)

  /** What a dispatched tool returns, and how it is shown. */
  datatype ToolOut = ToolOut(out: string, isErr: bool, shown: string)

  function Calls(blocks: seq<Block>): (calls: seq<Block>)
    ensures forall k :: 0 <= k < |calls| ==> calls[k].ToolUseBlock?
  {
    if blocks == [] then []
    else Calls(blocks[..|blocks| - 1])
         + (if blocks[|blocks| - 1].ToolUseBlock? then [blocks[|blocks| - 1]] else [])
  }

  /** The tool calls among the blocks, all of them and in order. */
  lemma {:induction false} CallsLaw(a: seq<Block>, b: seq<Block>, block: Block)
    ensures Calls([]) == [] && Calls(a + b) == Calls(a) + Calls(b)
    ensures Calls([block]) == if block.ToolUseBlock? then [block] else []
  {
    assert [block][..0] == [];
    if b == [] {
      assert a + b == a;
    } else {
      var n := |b| - 1;
      CallsLaw(a, b[..n], block);
      assert (a + b)[..|a + b| - 1] == a + b[..n];
    }
  }

  // ---- Pairing ----

  /** The answers answer the calls one by one, in order. */
  ghost predicate Answers(calls: seq<Block>, answers: seq<Answer>) {
    && |answers| == |calls|
    && forall k :: 0 <= k < |calls| ==> calls[k].ToolUseBlock? && answers[k].id == calls[k].id
  }

  /** Every assistant message with calls is directly followed by the results that
      answer them, and results stand nowhere else. */
  ghost predicate Paired(msgs: seq<Message>) {
    if msgs == [] then true
    else match msgs[0]
      case User(_) => Paired(msgs[1..])
      case Results(answers) => answers == [] && Paired(msgs[1..])
      case Assistant(blocks) =>
        if Calls(blocks) == [] then Paired(msgs[1..])
        else |msgs| >= 2 && msgs[1].Results? && Answers(Calls(blocks), msgs[1].answers) && Paired(msgs[2..])
  }

  lemma {:induction false} PairedAppend(a: seq<Message>, b: seq<Message>)
    requires Paired(a) && Paired(b)
    ensures Paired(a + b)
    decreases |a|
  {
    hide Calls, Answers;
    if a == [] {
      assert a + b == b;
    } else if a[0].Assistant? && Calls(a[0].blocks) != [] {
      PairedAppend(a[2..], b);
      assert (a + b)[2..] == a[2..] + b;
    } else {
      PairedAppend(a[1..], b);
      assert (a + b)[1..] == a[1..] + b;
    }
  }

  /** A trailing assistant message whose calls nobody answered. */
  lemma {:induction false} Dangling(a: seq<Message>, blocks: seq<Block>)
    requires Paired(a) && Calls(blocks) != []
    ensures !Paired(a + [Assistant(blocks)])
    decreases |a|
  {
    var s := a + [Assistant(blocks)];
    if a == [] {
      assert s == [Assistant(blocks)];
    } else if a[0].Assistant? && Calls(a[0].blocks) != [] {
      Dangling(a[2..], blocks);
      assert s[2..] == a[2..] + [Assistant(blocks)];
    } else {
      Dangling(a[1..], blocks);
      assert s[1..] == a[1..] + [Assistant(blocks)];
    }
  }

  lemma PairedUser(a: seq<Message>, text: string)
    requires Paired(a)
    ensures Paired(a + [User(text)])
  {
    assert Paired([User(text)][1..]);
    PairedAppend(a, [User(text)]);
  }

  lemma PairedTurn(a: seq<Message>, blocks: seq<Block>, answers: seq<Answer>)
    requires Paired(a) && Answers(Calls(blocks), answers)
    ensures Paired(a + [Assistant(blocks), Results(answers)])
  {
    var turn := [Assistant(blocks), Results(answers)];
    assert turn[2..] == [] && turn[1..] == [Results(answers)] && turn[1..][1..] == [];
    assert Paired([]);
    if Calls(blocks) == [] {
      assert answers == [] && Paired([Results(answers)]);
    }
    assert Paired(turn);
    PairedAppend(a, turn);
  }

  lemma PairedLast(a: seq<Message>, blocks: seq<Block>)
    requires Paired(a)
    ensures Paired(a + [Assistant(blocks)]) <==> Calls(blocks) == []
  {
    if Calls(blocks) == [] {
      assert [Assistant(blocks)][1..] == [];
      PairedAppend(a, [Assistant(blocks)]);
    } else {
      Dangling(a, blocks);
    }
  }

  /** Tool calls come only with the tool-use stop reason. */
  ghost predicate Honest(r: Reply) {
    r.Replied? && Calls(r.blocks) != [] ==> r.toolUse
  }

  // ---- The loop, as a function of what the provider and the tools do ----

  /** What one run has done: the history, what it emitted, the history sent with
      each provider call, and how many tools it dispatched. */
  datatype Trace = Trace(msgs: seq<Message>, events: seq<Event>, requests: seq<seq<Message>>, dispatched: nat)

  function AnswersOf(calls: seq<Block>, tool: nat -> ToolOut, from: nat): seq<Answer>
    requires forall k :: 0 <= k < |calls| ==> calls[k].ToolUseBlock?
  {
    seq(|calls|, k requires 0 <= k < |calls| => Answer(calls[k].id, tool(from + k).out, tool(from + k).isErr))
  }

  /** Each dispatch between its tool_use and its tool_result, in order. */
  function ToolEvents(calls: seq<Block>, tool: nat -> ToolOut, from: nat): seq<Event>
    requires forall k :: 0 <= k < |calls| ==> calls[k].ToolUseBlock?
  {
    if calls == [] then []
    else
      var n := |calls| - 1;
      ToolEvents(calls[..n], tool, from)
      + [ToolUse(calls[n].name + "  " + calls[n].input), ToolResult(tool(from + n).shown)]
  }

  function Begin(msgs: seq<Message>, user: string): Trace {
    Trace(msgs + [User(user)], [], [], 0)
  }

  function End(t: Trace, last: seq<Event>): Trace {
    t.(events := t.events + last + [Done])
  }

  /** One provider call and what follows it; the flag says the run is over. */
  function Turn(t: Trace, r: Reply, tool: nat -> ToolOut): (Trace, bool) {
    var called := t.(events := t.events + [Thinking] + Tokens(r.deltas), requests := t.requests + [t.msgs]);
    match r
    case Failed(_, stopped, text) =>
      (End(called, if stopped then [STOPPED] else [Error(text)]), true)
    case Replied(_, blocks, toolUse, tokensIn, tokensOut) =>
      var told := called.(events := called.events + [Usage(tokensIn, tokensOut)],
                          msgs := called.msgs + [Assistant(blocks)]);
      if !toolUse then (End(told, []), true)
      else
        var calls := Calls(blocks);
        (told.(events := told.events + ToolEvents(calls, tool, told.dispatched),
               msgs := told.msgs + [Results(AnswersOf(calls, tool, told.dispatched))],
               dispatched := told.dispatched + |calls|), false)
  }

  /** The loop from a given step on. */
  function Loop(t: Trace, step: nat, steps: nat, reply: nat -> Reply, tool: nat -> ToolOut): Trace
    requires step <= steps
    decreases steps - step
  {
    if step == steps then End(t, [Budget(steps)])
    else
      var (u, over) := Turn(t, reply(step), tool);
      if over then u else Loop(u, step + 1, steps, reply, tool)
  }

  function Run(msgs: seq<Message>, user: string, steps: nat, reply: nat -> Reply, tool: nat -> ToolOut): Trace {
    Loop(Begin(msgs, user), 0, steps, reply, tool)
  }

  // ---- What every run keeps ----

  /** Provider calls match thinking events, dispatches match tool_use events. */
  ghost predicate Counted(t: Trace) {
    Tallied(t.events, |t.requests|, t.dispatched)
  }

  /** Every request is a prefix of the history, from the first one on, and each is
      longer than the one before. */
  ghost predicate Nested(requests: seq<seq<Message>>, msgs: seq<Message>, start: seq<Message>) {
    && start <= msgs
    && (forall k :: 0 <= k < |requests| ==> start <= requests[k] <= msgs)
    && (if requests == [] then msgs == start else requests[0] == start)
    && (forall k, l :: 0 <= k < l < |requests| ==> requests[k] < requests[l])
  }

  /** Between turns: the stream is open and the last request has been answered. */
  ghost predicate Running(t: Trace, start: seq<Message>) {
    && Open(t.events) && Counted(t) && Nested(t.requests, t.msgs, start)
    && (forall k :: 0 <= k < |t.requests| ==> t.requests[k] < t.msgs)
  }

  ghost predicate Over(t: Trace, start: seq<Message>) {
    Finished(t.events) && Counted(t) && Nested(t.requests, t.msgs, start)
  }

  lemma NestedCall(requests: seq<seq<Message>>, msgs: seq<Message>, start: seq<Message>, more: seq<Message>)
    requires Nested(requests, msgs, start) && forall k :: 0 <= k < |requests| ==> requests[k] < msgs
    ensures Nested(requests + [msgs], msgs + more, start)
    ensures more != [] ==> forall k :: 0 <= k < |requests + [msgs]| ==> (requests + [msgs])[k] < msgs + more
  {
  }

  lemma {:induction false} EmitTools(es: seq<Event>, calls: seq<Block>, tool: nat -> ToolOut, from: nat)
    requires Open(es) && forall k :: 0 <= k < |calls| ==> calls[k].ToolUseBlock?
    ensures Open(es + ToolEvents(calls, tool, from))
    ensures Thinkings(es + ToolEvents(calls, tool, from)) == Thinkings(es)
    ensures ToolUses(es + ToolEvents(calls, tool, from)) == ToolUses(es) + |calls|
  {
    if calls == [] {
      assert es + [] == es;
    } else {
      var n := |calls| - 1;
      var before := es + ToolEvents(calls[..n], tool, from);
      EmitTools(es, calls[..n], tool, from);
      EmitTool(before, calls[n].name + "  " + calls[n].input, tool(from + n).shown);
      assert es + ToolEvents(calls, tool, from)
          == before + [ToolUse(calls[n].name + "  " + calls[n].input), ToolResult(tool(from + n).shown)];
    }
  }

  lemma CallEmits(t: Trace, deltas: seq<string>)
    requires Open(t.events) && Counted(t)
    ensures var called := t.(events := t.events + [Thinking] + Tokens(deltas), requests := t.requests + [t.msgs]);
      Open(called.events) && Counted(called)
  {
    Emit(t.events, Thinking);
    EmitTokens(t.events + [Thinking], deltas);
  }

  lemma TurnEmits(t: Trace, r: Reply, tool: nat -> ToolOut)
    requires Open(t.events) && Counted(t)
    ensures var (u, over) := Turn(t, r, tool);
      Counted(u) && if over then Finished(u.events) else Open(u.events)
  {
    CallEmits(t, r.deltas);
    var called := t.(events := t.events + [Thinking] + Tokens(r.deltas), requests := t.requests + [t.msgs]);
    hide Tallied, Open, Finished, Tokens, Thinkings, ToolUses, ToolEvents;
    match r {
      case Failed(_, stopped, text) =>
        EndStream(called.events, if stopped then [STOPPED] else [Error(text)], |called.requests|, called.dispatched);
      case Replied(_, blocks, toolUse, tokensIn, tokensOut) =>
        var told := called.(events := called.events + [Usage(tokensIn, tokensOut)],
                            msgs := called.msgs + [Assistant(blocks)]);
        UsageEmits(called, tokensIn, tokensOut, told.msgs);
        if !toolUse {
          EndStream(told.events, [], |told.requests|, told.dispatched);
        } else {
          ToolsEmit(told, Calls(blocks), tool, told.msgs + [Results(AnswersOf(Calls(blocks), tool, told.dispatched))]);
        }
    }
  }

  lemma UsageEmits(t: Trace, tokensIn: nat, tokensOut: nat, msgs: seq<Message>)
    requires Open(t.events) && Counted(t)
    ensures var u := t.(events := t.events + [Usage(tokensIn, tokensOut)], msgs := msgs); Open(u.events) && Counted(u)
  {
    Emit(t.events, Usage(tokensIn, tokensOut));
  }

  lemma ToolsEmit(t: Trace, calls: seq<Block>, tool: nat -> ToolOut, msgs: seq<Message>)
    requires Open(t.events) && Counted(t) && forall k :: 0 <= k < |calls| ==> calls[k].ToolUseBlock?
    ensures var u := t.(events := t.events + ToolEvents(calls, tool, t.dispatched), msgs := msgs,
                        dispatched := t.dispatched + |calls|);
      Open(u.events) && Counted(u)
  {
    EmitTools(t.events, calls, tool, t.dispatched);
  }

  lemma TurnKeeps(t: Trace, start: seq<Message>, r: Reply, tool: nat -> ToolOut)
    requires Running(t, start)
    ensures var (u, over) := Turn(t, r, tool);
      && u.requests == t.requests + [t.msgs]
      && if over then Over(u, start) else Running(u, start)
  {
    TurnEmits(t, r, tool);
    var (u, over) := Turn(t, r, tool);
    hide Tallied, Open, Finished, Nested, Tokens, ToolEvents;
    var more := u.msgs[|t.msgs|..];
    assert u.msgs == t.msgs + more && u.requests == t.requests + [t.msgs] && (!over ==> more != []);
    hide Turn;
    NestedCall(t.requests, t.msgs, start, more);
  }

  lemma {:induction false} LoopKeeps(t: Trace, start: seq<Message>, step: nat, steps: nat,
                                     reply: nat -> Reply, tool: nat -> ToolOut)
    requires step <= steps && Running(t, start) && |t.requests| == step
    ensures var u := Loop(t, step, steps, reply, tool);
      Over(u, start) && step <= |u.requests| <= steps && t.requests <= u.requests
      && (step < steps ==> |u.requests| > step)
    decreases steps - step
  {
    if step == steps {
      EndStream(t.events, [Budget(steps)], |t.requests|, t.dispatched);
    } else {
      TurnKeeps(t, start, reply(step), tool);
      var (u, over) := Turn(t, reply(step), tool);
      if !over {
        LoopKeeps(u, start, step + 1, steps, reply, tool);
      }
    }
  }

  /** Every run ends with its one done, makes at least one and at most `steps`
      provider calls, brackets every dispatch, and only ever extends the history. */
  lemma RunShape(msgs: seq<Message>, user: string, steps: nat, reply: nat -> Reply, tool: nat -> ToolOut)
    requires steps >= 1
    ensures var t := Run(msgs, user, steps, reply, tool);
      && Finished(t.events)
      && Thinkings(t.events) == |t.requests| && ToolUses(t.events) == t.dispatched
      && 1 <= |t.requests| <= steps
      && t.requests[0] == msgs + [User(user)]
      && (forall k, l :: 0 <= k < l < |t.requests| ==> t.requests[k] < t.requests[l])
      && (forall k :: 0 <= k < |t.requests| ==> t.requests[k] <= t.msgs)
  {
    LoopKeeps(Begin(msgs, user), msgs + [User(user)], 0, steps, reply, tool);
  }

  // ---- Pairing ----

  lemma TurnPairs(t: Trace, r: Reply, tool: nat -> ToolOut)
    requires Paired(t.msgs)
    ensures Paired(Turn(t, r, tool).0.msgs) <==> Honest(r)
    ensures !Honest(r) ==> Turn(t, r, tool).1
  {
    match r {
      case Failed(_, stopped, text) =>
      case Replied(_, blocks, toolUse, _, _) =>
        if toolUse {
          var answers := AnswersOf(Calls(blocks), tool, t.dispatched);
          PairedTurn(t.msgs, blocks, answers);
          assert t.msgs + [Assistant(blocks)] + [Results(answers)] == t.msgs + [Assistant(blocks), Results(answers)];
        } else {
          PairedLast(t.msgs, blocks);
        }
    }
  }

  lemma {:induction false} LoopPairs(t: Trace, start: seq<Message>, step: nat, steps: nat,
                                     reply: nat -> Reply, tool: nat -> ToolOut)
    requires step <= steps && Running(t, start) && |t.requests| == step
    requires Paired(t.msgs) && (forall k :: 0 <= k < step ==> Paired(t.requests[k]) && Honest(reply(k)))
    ensures var u := Loop(t, step, steps, reply, tool);
      && (forall k :: 0 <= k < |u.requests| ==> Paired(u.requests[k]))
      && (Paired(u.msgs) <==> forall k :: 0 <= k < |u.requests| ==> Honest(reply(k)))
    decreases steps - step
  {
    if step < steps {
      TurnKeeps(t, start, reply(step), tool);
      TurnPairs(t, reply(step), tool);
      var (u, over) := Turn(t, reply(step), tool);
      forall k | 0 <= k <= step
        ensures Paired(u.requests[k])
      {
        assert u.requests[k] == if k < step then t.requests[k] else t.msgs;
      }
      if !over {
        LoopPairs(u, start, step + 1, steps, reply, tool);
      }
    }
  }

  /** From a paired history every request is paired, and the run leaves a paired
      history if and only if the provider returned tool calls only together with
      the tool-use stop reason. */
  lemma PairedIff(msgs: seq<Message>, user: string, steps: nat, reply: nat -> Reply, tool: nat -> ToolOut)
    requires Paired(msgs)
    ensures var t := Run(msgs, user, steps, reply, tool);
      && (forall k :: 0 <= k < |t.requests| ==> Paired(t.requests[k]))
      && (Paired(t.msgs) <==> forall k :: 0 <= k < |t.requests| ==> Honest(reply(k)))
  {
    PairedUser(msgs, user);
    LoopPairs(Begin(msgs, user), msgs + [User(user)], 0, steps, reply, tool);
  }

  // ---- The runner ----

  lemma TurnFails(t: Trace, r: Reply, tool: nat -> ToolOut)
    requires r.Failed?
    ensures var events := t.events + [Thinking] + Tokens(r.deltas);
      && (r.stopped ==>
            Turn(t, r, tool) == (Trace(t.msgs, events + [STOPPED] + [Done], t.requests + [t.msgs], t.dispatched), true))
      && (!r.stopped ==>
            Turn(t, r, tool) ==
            (Trace(t.msgs, events + [Error(r.text)] + [Done], t.requests + [t.msgs], t.dispatched), true))
  {
  }

  lemma TurnAnswers(t: Trace, r: Reply, tool: nat -> ToolOut)
    requires r.Replied?
    ensures var events := t.events + [Thinking] + Tokens(r.deltas) + [Usage(r.tokensIn, r.tokensOut)];
      var msgs := t.msgs + [Assistant(r.blocks)];
      && (!r.toolUse ==> Turn(t, r, tool) == (Trace(msgs, events + [Done], t.requests + [t.msgs], t.dispatched), true))
      && (r.toolUse ==>
            var calls := Calls(r.blocks);
            Turn(t, r, tool) ==
            (Trace(msgs + [Results(AnswersOf(calls, tool, t.dispatched))],
                   events + ToolEvents(calls, tool, t.dispatched),
                   t.requests + [t.msgs], t.dispatched + |calls|), false))
  {
    var events := t.events + [Thinking] + Tokens(r.deltas) + [Usage(r.tokensIn, r.tokensOut)];
    assert events + [] == events;
  }

  class Runner {
    var msgs: seq<Message>

    constructor ()
      ensures msgs == []
    {
      msgs := [];
    }

    /** One operator message, with a budget of provider calls. */
    method Send(user: string, steps: nat, reply: nat -> Reply, tool: nat -> ToolOut)
      returns (events: seq<Event>, ghost requests: seq<seq<Message>>, dispatched: nat)
      modifies this
      ensures Trace(msgs, events, requests, dispatched) == Run(old(msgs), user, steps, reply, tool)
    {
      msgs := msgs + [User(user)];
      events, requests, dispatched := [], [], 0;
      var step := 0;
      hide Loop, Turn;
      while step < steps
        invariant 0 <= step <= steps
        invariant Run(old(msgs), user, steps, reply, tool)
               == Loop(Trace(msgs, events, requests, dispatched), step, steps, reply, tool)
      {
        var over;
        events, requests, dispatched, over := Call(reply(step), tool, events, requests, dispatched);
        if over {
          return;
        }
        step := step + 1;
      }
      events := events + [Budget(steps)] + [Done];
    }

    /** The body of the loop: one provider call and what follows it. */
    method Call(r: Reply, tool: nat -> ToolOut, events0: seq<Event>, ghost requests0: seq<seq<Message>>,
                dispatched0: nat)
      returns (events: seq<Event>, ghost requests: seq<seq<Message>>, dispatched: nat, over: bool)
      modifies this
      ensures (Trace(msgs, events, requests, dispatched), over)
           == Turn(Trace(old(msgs), events0, requests0, dispatched0), r, tool)
    {
      hide Turn, Tokens, ToolEvents, AnswersOf, Calls;
      ghost var t := Trace(msgs, events0, requests0, dispatched0);
      events, requests := events0 + [Thinking] + Tokens(r.deltas), requests0 + [msgs];
      dispatched, over := dispatched0, true;
      if r.Failed? {
        TurnFails(t, r, tool);
        if r.stopped {
          events := events + [STOPPED] + [Done];
        } else {
          events := events + [Error(r.text)] + [Done];
        }
        return;
      }
      TurnAnswers(t, r, tool);
      events := events + [Usage(r.tokensIn, r.tokensOut)];
      msgs := msgs + [Assistant(r.blocks)];
      if !r.toolUse {
        events := events + [Done];
        return;
      }
      var answers: seq<Answer>;
      events, answers, dispatched := UseTools(r.blocks, tool, events, dispatched);
      msgs := msgs + [Results(answers)];
      over := false;
    }

    /** Dispatch the tool calls among the blocks. */
    static method UseTools(blocks: seq<Block>, tool: nat -> ToolOut, before: seq<Event>, from: nat)
      returns (events: seq<Event>, answers: seq<Answer>, dispatched: nat)
      ensures events == before + ToolEvents(Calls(blocks), tool, from)
      ensures answers == AnswersOf(Calls(blocks), tool, from)
      ensures dispatched == from + |Calls(blocks)|
    {
      events, answers, dispatched := before, [], from;
      ghost var calls: seq<Block> := [];
      NoTools(blocks, tool, from, before);
      hide Calls, ToolEvents, AnswersOf;
      for i := 0 to |blocks|
        invariant calls == Calls(blocks[..i])
        invariant forall k :: 0 <= k < |calls| ==> calls[k].ToolUseBlock?
        invariant events == before + ToolEvents(calls, tool, from)
        invariant answers == AnswersOf(calls, tool, from)
        invariant dispatched == from + |calls|
      {
        var b := blocks[i];
        CallsSnoc(blocks, i);
        if !b.ToolUseBlock? {
          continue;
        }
        ToolSnoc(calls, b, tool, from, before);
        calls := calls + [b];
        var out := tool(dispatched);
        events := events + [ToolUse(b.name + "  " + b.input), ToolResult(out.shown)];
        answers := answers + [Answer(b.id, out.out, out.isErr)];
        dispatched := dispatched + 1;
      }
    }
  }

  lemma NoTools(blocks: seq<Block>, tool: nat -> ToolOut, from: nat, before: seq<Event>)
    ensures Calls(blocks[..0]) == [] && before + ToolEvents([], tool, from) == before && AnswersOf([], tool, from) == []
    ensures blocks[..|blocks|] == blocks
  {
  }

  lemma CallsSnoc(blocks: seq<Block>, i: nat)
    requires i < |blocks|
    ensures Calls(blocks[..i + 1]) == Calls(blocks[..i]) + (if blocks[i].ToolUseBlock? then [blocks[i]] else [])
    ensures !blocks[i].ToolUseBlock? ==> Calls(blocks[..i + 1]) == Calls(blocks[..i])
  {
    assert blocks[..i + 1][..i] == blocks[..i];
  }

  lemma ToolSnoc(calls: seq<Block>, b: Block, tool: nat -> ToolOut, from: nat, before: seq<Event>)
    requires b.ToolUseBlock? && forall k :: 0 <= k < |calls| ==> calls[k].ToolUseBlock?
    ensures var out := tool(from + |calls|);
      && before + ToolEvents(calls + [b], tool, from)
         == before + ToolEvents(calls, tool, from) + [ToolUse(b.name + "  " + b.input), ToolResult(out.shown)]
      && AnswersOf(calls + [b], tool, from) == AnswersOf(calls, tool, from) + [Answer(b.id, out.out, out.isErr)]
  {
    assert (calls + [b])[..|calls|] == calls;
  }
}
