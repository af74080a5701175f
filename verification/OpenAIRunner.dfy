/** The agent loop over OpenAI: Chat Completions, with a switch for good to the
    Responses API when the model turns out not to be a chat model. */
module OpenAIRunner {
  import opened Events

  datatype Call = Call(id: string, name: string, args: string)

  datatype Message =
    | System
    | User(text: string)
    | Assistant(content: string, calls: seq<Call>)
    | ToolMsg(id: string, out: string)

  /** One Chat Completions call. */
  datatype ChatReply =
    | ChatFailed(deltas: seq<string>, notChat: bool, stopped: bool, text: string)
    | NoChoices(deltas: seq<string>)
    | ChatReplied(deltas: seq<string>, content: string, calls: seq<Call>, toolCalls: bool,
                  tokensIn: nat, tokensOut: nat)

  /** One Responses call. */
  datatype Response =
    | RespFailed(stopped: bool, text: string)
    | Responded(id: string, text: string, calls: seq<Call>, tokensIn: nat, tokensOut: nat)

  datatype ToolOut = ToolOut(out: string, shown: string)

  /** One input item of a Responses request, and the request: what it chains to. */
  datatype Item = UserInput(text: string) | Output(id: string, out: string)
  datatype Request = Request(prev: string, input: seq<Item>)

  /** What the provider and the tools will do, call by call, and the step budget the
      settings hold when the runner switches to the Responses API. */
  datatype World = World(chat: nat -> ChatReply, resp: nat -> Response, tool: nat -> ToolOut, again: Steps)

  /** The runner's own fields. */
  datatype State = State(msgs: seq<Message>, started: bool, useResponses: bool, prev: string)

  /** A run: the state, what it emitted, what it sent, how many tools it dispatched. */
  datatype Trace = Trace(st: State, events: seq<Event>, chats: seq<seq<Message>>, resps: seq<Request>, dispatched: nat)

  // ---- The loops as functions ----

  function ToolEvents(calls: seq<Call>, tool: nat -> ToolOut, from: nat): seq<Event> {
    if calls == [] then []
    else
      var n := |calls| - 1;
      ToolEvents(calls[..n], tool, from)
      + [ToolUse(calls[n].name + "  " + calls[n].args), ToolResult(tool(from + n).shown)]
  }

  function ToolMsgs(calls: seq<Call>, tool: nat -> ToolOut, from: nat): seq<Message> {
    seq(|calls|, k requires 0 <= k < |calls| => ToolMsg(calls[k].id, tool(from + k).out))
  }

  function Outputs(calls: seq<Call>, tool: nat -> ToolOut, from: nat): seq<Item> {
    seq(|calls|, k requires 0 <= k < |calls| => Output(calls[k].id, tool(from + k).out))
  }

  function End(t: Trace, last: seq<Event>): Trace {
    t.(events := t.events + last + [Done])
  }

  /** One Responses call and what follows it: the new input, and whether the run is over. */
  function RespTurn(t: Trace, input: seq<Item>, r: Response, tool: nat -> ToolOut): (Trace, seq<Item>, bool) {
    var called := t.(events := t.events + [Thinking], resps := t.resps + [Request(t.st.prev, input)]);
    match r
    case RespFailed(stopped, text) => (End(called, if stopped then [STOPPED] else [Error(text)]), input, true)
    case Responded(id, text, calls, tokensIn, tokensOut) =>
      var told := called.(st := called.st.(prev := id),
                          events := called.events + [Usage(tokensIn, tokensOut)] + Tokens([text]));
      if calls == [] then (End(told, []), input, true)
      else (told.(events := told.events + ToolEvents(calls, tool, told.dispatched),
                  dispatched := told.dispatched + |calls|),
            Outputs(calls, tool, told.dispatched), false)
  }

  function RespLoop(t: Trace, input: seq<Item>, step: nat, steps: nat, w: World): Trace
    requires step <= steps
    decreases steps - step
  {
    if step == steps then End(t, [Budget(steps)])
    else
      var (u, next, over) := RespTurn(t, input, w.resp(step), w.tool);
      if over then u else RespLoop(u, next, step + 1, steps, w)
  }

  /** One Chat Completions call; the model is found not to be a chat model only on
      the first one, and then nothing is said about it. */
  datatype Outcome = Over | Again | Switch

  function ChatTurn(t: Trace, step: nat, r: ChatReply, tool: nat -> ToolOut): (Trace, Outcome) {
    var called := t.(events := t.events + [Thinking] + Tokens(r.deltas), chats := t.chats + [t.st.msgs]);
    match r
    case ChatFailed(_, notChat, stopped, text) =>
      if notChat && step == 0 then (called.(st := called.st.(useResponses := true)), Switch)
      else (End(called, if stopped then [STOPPED] else [Error(text)]), Over)
    case NoChoices(_) => (End(called, [Error("empty response from provider")]), Over)
    case ChatReplied(_, content, calls, toolCalls, tokensIn, tokensOut) =>
      var told := called.(st := called.st.(msgs := called.st.msgs + [Assistant(content, calls)]),
                          events := called.events + [Usage(tokensIn, tokensOut)]);
      if !toolCalls || calls == [] then (End(told, []), Over)
      else (told.(st := told.st.(msgs := told.st.msgs + ToolMsgs(calls, tool, told.dispatched)),
                  events := told.events + ToolEvents(calls, tool, told.dispatched),
                  dispatched := told.dispatched + |calls|), Again)
  }

  function ChatLoop(t: Trace, user: string, step: nat, steps: nat, w: World): Trace
    requires step <= steps
    decreases steps - step
  {
    if step == steps then End(t, [Budget(steps)])
    else
      var (u, out) := ChatTurn(t, step, w.chat(step), w.tool);
      match out
      case Over => u
      case Again => ChatLoop(u, user, step + 1, steps, w)
      case Switch => RespLoop(u, [UserInput(user)], 0, w.again, w)
  }

  /** The history a chat run starts from: the system prompt goes in once. */
  function Opening(st: State, user: string): seq<Message> {
    st.msgs + (if st.started then [] else [System]) + [User(user)]
  }

  function Run(st: State, user: string, steps: nat, w: World): Trace {
    if st.useResponses then RespLoop(Trace(st, [], [], [], 0), [UserInput(user)], 0, steps, w)
    else ChatLoop(Trace(st.(msgs := Opening(st, user), started := true), [], [], [], 0), user, 0, steps, w)
  }

  // ---- The event stream ----

  /** Provider calls match thinking events, dispatches match tool_use events. */
  ghost predicate Counted(t: Trace) {
    Tallied(t.events, |t.chats| + |t.resps|, t.dispatched)
  }

  lemma {:induction false} EmitTools(es: seq<Event>, calls: seq<Call>, tool: nat -> ToolOut, from: nat)
    requires Open(es)
    ensures Open(es + ToolEvents(calls, tool, from))
    ensures Thinkings(es + ToolEvents(calls, tool, from)) == Thinkings(es)
    ensures ToolUses(es + ToolEvents(calls, tool, from)) == ToolUses(es) + |calls|
  {
    if calls == [] {
      assert es + [] == es;
    } else {
      var n := |calls| - 1;
      var before := es + ToolEvents(calls[..n], tool, from);
      EmitTools(es, calls[..n], tool, from);
      EmitTool(before, calls[n].name + "  " + calls[n].args, tool(from + n).shown);
      assert es + ToolEvents(calls, tool, from)
          == before + [ToolUse(calls[n].name + "  " + calls[n].args), ToolResult(tool(from + n).shown)];
    }
  }

  lemma RespEmits(t: Trace, r: Response)
    requires Open(t.events) && r.Responded?
    ensures var es := t.events + [Thinking] + [Usage(r.tokensIn, r.tokensOut)] + Tokens([r.text]);
      Open(es) && Thinkings(es) == Thinkings(t.events) + 1 && ToolUses(es) == ToolUses(t.events)
  {
    Emit(t.events, Thinking);
    Emit(t.events + [Thinking], Usage(r.tokensIn, r.tokensOut));
    EmitTokens(t.events + [Thinking] + [Usage(r.tokensIn, r.tokensOut)], [r.text]);
  }

  lemma RespTurnEmits(t: Trace, input: seq<Item>, r: Response, tool: nat -> ToolOut)
    requires Open(t.events) && Counted(t)
    ensures var (u, _, over) := RespTurn(t, input, r, tool);
      Counted(u) && if over then Finished(u.events) else Open(u.events)
  {
    hide Open, Finished, Tokens, Thinkings, ToolUses, ToolEvents;
    match r {
      case RespFailed(stopped, text) =>
        Emit(t.events, Thinking);
        var called := t.(events := t.events + [Thinking], resps := t.resps + [Request(t.st.prev, input)]);
        EndStream(called.events, if stopped then [STOPPED] else [Error(text)],
                  |called.chats| + |called.resps|, called.dispatched);
      case Responded(id, text, calls, tokensIn, tokensOut) =>
        RespEmits(t, r);
        var told := t.(st := t.st.(prev := id), resps := t.resps + [Request(t.st.prev, input)],
                       events := t.events + [Thinking] + [Usage(tokensIn, tokensOut)] + Tokens([text]));
        if calls == [] {
          EndStream(told.events, [], |told.chats| + |told.resps|, told.dispatched);
        } else {
          EmitTools(told.events, calls, tool, told.dispatched);
        }
    }
  }

  lemma ChatEmits(t: Trace, r: ChatReply)
    requires Open(t.events)
    ensures var es := t.events + [Thinking] + Tokens(r.deltas);
      && Open(es) && Thinkings(es) == Thinkings(t.events) + 1 && ToolUses(es) == ToolUses(t.events)
      && (r.ChatReplied? ==>
            var fs := es + [Usage(r.tokensIn, r.tokensOut)];
            Open(fs) && Thinkings(fs) == Thinkings(es) && ToolUses(fs) == ToolUses(es))
  {
    Emit(t.events, Thinking);
    EmitTokens(t.events + [Thinking], r.deltas);
    if r.ChatReplied? {
      Emit(t.events + [Thinking] + Tokens(r.deltas), Usage(r.tokensIn, r.tokensOut));
    }
  }

  lemma ChatTurnEmits(t: Trace, step: nat, r: ChatReply, tool: nat -> ToolOut)
    requires Open(t.events) && Counted(t)
    ensures var (u, out) := ChatTurn(t, step, r, tool);
      Counted(u) && if out == Over then Finished(u.events) else Open(u.events)
  {
    ChatEmits(t, r);
    hide Open, Finished, Tokens, Thinkings, ToolUses, ToolEvents;
    var called := t.(events := t.events + [Thinking] + Tokens(r.deltas), chats := t.chats + [t.st.msgs]);
    match r {
      case ChatFailed(_, _, stopped, text) =>
        EndStream(called.events, if stopped then [STOPPED] else [Error(text)],
                  |called.chats| + |called.resps|, called.dispatched);
      case NoChoices(_) =>
        EndStream(called.events, [Error("empty response from provider")],
                  |called.chats| + |called.resps|, called.dispatched);
      case ChatReplied(_, content, calls, toolCalls, tokensIn, tokensOut) =>
        var told := called.(st := called.st.(msgs := called.st.msgs + [Assistant(content, calls)]),
                            events := called.events + [Usage(tokensIn, tokensOut)]);
        EndStream(told.events, [], |told.chats| + |told.resps|, told.dispatched);
        EmitTools(told.events, calls, tool, told.dispatched);
    }
  }

  lemma ChatTurnLatch(t: Trace, step: nat, r: ChatReply, tool: nat -> ToolOut)
    ensures var (u, out) := ChatTurn(t, step, r, tool);
      && u.resps == t.resps && |u.chats| == |t.chats| + 1
      && u.st.useResponses == (t.st.useResponses || out == Switch) && u.st.prev == t.st.prev
      && (out == Switch ==> step == 0)
  {
  }

  lemma RespTurnFrame(t: Trace, input: seq<Item>, r: Response, tool: nat -> ToolOut)
    ensures var u := RespTurn(t, input, r, tool).0;
      && u.chats == t.chats && |u.resps| == |t.resps| + 1
      && u.st.useResponses == t.st.useResponses && u.st.msgs == t.st.msgs && u.st.started == t.st.started
  {
  }

  lemma {:induction false} RespLoopEmits(t: Trace, input: seq<Item>, step: nat, steps: nat, w: World)
    requires step <= steps && Open(t.events) && Counted(t)
    ensures var u := RespLoop(t, input, step, steps, w);
      && Finished(u.events) && Counted(u)
      && u.chats == t.chats && u.st.useResponses == t.st.useResponses && u.st.msgs == t.st.msgs
      && |t.resps| <= |u.resps| <= |t.resps| + (steps - step)
      && (step < steps ==> |u.resps| > |t.resps|)
    decreases steps - step
  {
    if step == steps {
      EndStream(t.events, [Budget(steps)], |t.chats| + |t.resps|, t.dispatched);
    } else {
      RespTurnEmits(t, input, w.resp(step), w.tool);
      RespTurnFrame(t, input, w.resp(step), w.tool);
      var (u, next, over) := RespTurn(t, input, w.resp(step), w.tool);
      hide RespTurn, Open, Finished, Tallied;
      if !over {
        RespLoopEmits(u, next, step + 1, steps, w);
      }
    }
  }

  lemma {:induction false} ChatLoopEmits(t: Trace, user: string, step: nat, steps: nat, w: World)
    requires step <= steps && Open(t.events) && Counted(t) && t.resps == [] && |t.chats| == step && !t.st.useResponses
    ensures var u := ChatLoop(t, user, step, steps, w);
      && Finished(u.events) && Counted(u)
      && |u.chats| <= steps && (step < steps ==> |u.chats| > step)
      && (!u.st.useResponses ==> u.resps == [])
      && (u.st.useResponses ==> |u.chats| == 1 && 1 <= |u.resps| <= w.again)
    decreases steps - step
  {
    if step == steps {
      EndStream(t.events, [Budget(steps)], |t.chats| + |t.resps|, t.dispatched);
    } else {
      ChatTurnEmits(t, step, w.chat(step), w.tool);
      ChatTurnLatch(t, step, w.chat(step), w.tool);
      var (u, out) := ChatTurn(t, step, w.chat(step), w.tool);
      hide ChatTurn, RespLoop, Open, Finished, Tallied;
      match out {
        case Over =>
        case Again => ChatLoopEmits(u, user, step + 1, steps, w);
        case Switch => RespLoopEmits(u, [UserInput(user)], 0, w.again, w);
      }
    }
  }

  /** Every run ends with its one done and brackets every dispatch. It makes at
      most `steps` provider calls; when the first one told that the model is not a
      chat model, that one and as many as the budget read again allows. Once latched,
      no run calls Chat Completions. */
  lemma RunShape(st: State, user: string, steps: nat, w: World)
    requires steps >= 1
    ensures var t := Run(st, user, steps, w);
      && Finished(t.events)
      && Thinkings(t.events) == |t.chats| + |t.resps| && ToolUses(t.events) == t.dispatched
      && (st.useResponses ==> t.st.useResponses && t.chats == [] && 1 <= |t.resps| <= steps)
      && (!st.useResponses && !t.st.useResponses ==> t.resps == [] && 1 <= |t.chats| <= steps)
      && (!st.useResponses && t.st.useResponses ==> |t.chats| == 1 && 1 <= |t.resps| <= w.again)
  {
    if st.useResponses {
      RespLoopEmits(Trace(st, [], [], [], 0), [UserInput(user)], 0, steps, w);
    } else {
      ChatLoopEmits(Trace(st.(msgs := Opening(st, user), started := true), [], [], [], 0), user, 0, steps, w);
    }
  }

  // ---- Many runs ----

  datatype Job = Job(user: string, steps: nat, world: World)

  /** The runs of one runner, in order. */
  function Runs(st: State, jobs: seq<Job>): seq<Trace>
    decreases |jobs|
  {
    if jobs == [] then []
    else
      var t := Run(st, jobs[0].user, jobs[0].steps, jobs[0].world);
      [t] + Runs(t.st, jobs[1..])
  }

  /** Once a run has latched, no later run of the runner calls Chat Completions. */
  lemma {:induction false} LatchHolds(st: State, jobs: seq<Job>, i: nat, j: nat)
    requires i < j < |jobs| && forall k :: 0 <= k < |jobs| ==> jobs[k].steps >= 1
    ensures |Runs(st, jobs)| == |jobs|
    ensures Runs(st, jobs)[i].st.useResponses ==>
              Runs(st, jobs)[j].chats == [] && Runs(st, jobs)[j].st.useResponses
    decreases |jobs|
  {
    var t := Run(st, jobs[0].user, jobs[0].steps, jobs[0].world);
    RunsCount(t.st, jobs[1..]);
    if i > 0 {
      LatchHolds(t.st, jobs[1..], i - 1, j - 1);
    } else if t.st.useResponses {
      LatchedFrom(t.st, jobs[1..], j - 1);
    }
  }

  lemma {:induction false} RunsCount(st: State, jobs: seq<Job>)
    ensures |Runs(st, jobs)| == |jobs|
    decreases |jobs|
  {
    if jobs != [] {
      RunsCount(Run(st, jobs[0].user, jobs[0].steps, jobs[0].world).st, jobs[1..]);
    }
  }

  lemma {:induction false} LatchedFrom(st: State, jobs: seq<Job>, j: nat)
    requires st.useResponses && j < |jobs| && forall k :: 0 <= k < |jobs| ==> jobs[k].steps >= 1
    ensures |Runs(st, jobs)| == |jobs|
    ensures Runs(st, jobs)[j].chats == [] && Runs(st, jobs)[j].st.useResponses
    decreases |jobs|
  {
    RunsCount(st, jobs);
    RunShape(st, jobs[0].user, jobs[0].steps, jobs[0].world);
    if j > 0 {
      LatchedFrom(Run(st, jobs[0].user, jobs[0].steps, jobs[0].world).st, jobs[1..], j - 1);
    }
  }

  // ---- Pairing of the chat history ----

  /** The messages answer the calls one by one, in order. */
  ghost predicate Answers(calls: seq<Call>, msgs: seq<Message>) {
    && |msgs| == |calls|
    && forall k :: 0 <= k < |calls| ==> msgs[k].ToolMsg? && msgs[k].id == calls[k].id
  }

  /** Each assistant message is followed by exactly one tool message per call, in
      order, and tool messages stand nowhere else. */
  ghost predicate Paired(msgs: seq<Message>)
    decreases |msgs|
  {
    if msgs == [] then true
    else match msgs[0]
      case System => Paired(msgs[1..])
      case User(_) => Paired(msgs[1..])
      case ToolMsg(_, _) => false
      case Assistant(_, calls) =>
        |msgs| > |calls| && Answers(calls, msgs[1..][..|calls|]) && Paired(msgs[1..][|calls|..])
  }

  lemma {:induction false} PairedAppend(a: seq<Message>, b: seq<Message>)
    requires Paired(a) && Paired(b)
    ensures Paired(a + b)
    decreases |a|
  {
    hide Answers;
    if a == [] {
      assert a + b == b;
    } else {
      assert (a + b)[1..] == a[1..] + b;
      if a[0].Assistant? {
        var n := |a[0].calls|;
        PairedAppend(a[1..][n..], b);
        assert (a + b)[1..][..n] == a[1..][..n];
        assert (a + b)[1..][n..] == a[1..][n..] + b;
      } else {
        PairedAppend(a[1..], b);
      }
    }
  }

  /** A trailing assistant message whose calls nobody answered. */
  lemma {:induction false} Dangling(a: seq<Message>, last: Message)
    requires Paired(a) && last.Assistant? && last.calls != []
    ensures !Paired(a + [last])
    decreases |a|
  {
    hide Answers;
    var s := a + [last];
    if a == [] {
      assert s == [last];
    } else {
      assert s[1..] == a[1..] + [last];
      if a[0].Assistant? {
        var n := |a[0].calls|;
        Dangling(a[1..][n..], last);
        assert s[1..][n..] == a[1..][n..] + [last];
      } else {
        Dangling(a[1..], last);
      }
    }
  }

  lemma PairedOpening(st: State, user: string)
    requires Paired(st.msgs)
    ensures Paired(Opening(st, user))
  {
    assert [User(user)][1..] == [] && [System][1..] == [];
    PairedAppend(st.msgs, if st.started then [] else [System]);
    PairedAppend(st.msgs + (if st.started then [] else [System]), [User(user)]);
  }

  lemma PairedTurn(a: seq<Message>, content: string, calls: seq<Call>, tool: nat -> ToolOut, from: nat)
    requires Paired(a)
    ensures Paired(a + [Assistant(content, calls)] + ToolMsgs(calls, tool, from))
  {
    var turn := [Assistant(content, calls)] + ToolMsgs(calls, tool, from);
    assert turn[1..] == ToolMsgs(calls, tool, from);
    assert turn[1..][..|calls|] == turn[1..] && turn[1..][|calls|..] == [];
    PairedAppend(a, turn);
    assert a + turn == a + [Assistant(content, calls)] + ToolMsgs(calls, tool, from);
  }

  lemma PairedLast(a: seq<Message>, content: string, calls: seq<Call>)
    requires Paired(a)
    ensures Paired(a + [Assistant(content, calls)]) <==> calls == []
  {
    if calls == [] {
      assert [Assistant(content, calls)][1..] == [];
      PairedAppend(a, [Assistant(content, calls)]);
    } else {
      Dangling(a, Assistant(content, calls));
    }
  }

  /** Tool calls come only with the tool-calls finish reason. */
  ghost predicate Honest(r: ChatReply) {
    r.ChatReplied? && r.calls != [] ==> r.toolCalls
  }

  lemma ChatTurnPairs(t: Trace, step: nat, r: ChatReply, tool: nat -> ToolOut)
    requires Paired(t.st.msgs)
    ensures var (u, out) := ChatTurn(t, step, r, tool);
      && (Paired(u.st.msgs) <==> Honest(r)) && (!Honest(r) ==> out == Over)
      && t.st.msgs <= u.st.msgs && (out == Again ==> t.st.msgs < u.st.msgs)
      && u.chats == t.chats + [t.st.msgs]
  {
    if r.ChatReplied? {
      PairedLast(t.st.msgs, r.content, r.calls);
      PairedTurn(t.st.msgs, r.content, r.calls, tool, t.dispatched);
    }
  }

  ghost predicate AllPaired(chats: seq<seq<Message>>) {
    forall k :: 0 <= k < |chats| ==> Paired(chats[k])
  }

  /** Every request is a prefix of the history, all from the opening on. */
  ghost predicate Nested(chats: seq<seq<Message>>, msgs: seq<Message>, start: seq<Message>) {
    start <= msgs && forall k :: 0 <= k < |chats| ==> start <= chats[k] <= msgs
  }

  lemma NestedMore(chats: seq<seq<Message>>, msgs: seq<Message>, msgs': seq<Message>, start: seq<Message>)
    requires AllPaired(chats) && Paired(msgs) && Nested(chats, msgs, start) && msgs <= msgs'
    ensures AllPaired(chats + [msgs]) && Nested(chats + [msgs], msgs', start)
  {
  }

  /** Before chat call number step. */
  ghost predicate Chatting(t: Trace, start: seq<Message>, step: nat, w: World) {
    && Open(t.events) && Counted(t) && |t.chats| == step && t.resps == [] && !t.st.useResponses
    && Paired(t.st.msgs) && AllPaired(t.chats) && Nested(t.chats, t.st.msgs, start)
    && forall k :: 0 <= k < step ==> Honest(w.chat(k))
  }

  ghost predicate ChatsPaired(t: Trace, start: seq<Message>, w: World) {
    && AllPaired(t.chats) && Nested(t.chats, t.st.msgs, start)
    && (Paired(t.st.msgs) <==> forall k :: 0 <= k < |t.chats| ==> Honest(w.chat(k)))
  }

  lemma ChatTurnKeeps(t: Trace, start: seq<Message>, step: nat, w: World)
    requires Chatting(t, start, step, w)
    ensures var (u, out) := ChatTurn(t, step, w.chat(step), w.tool);
      && ChatsPaired(u, start, w)
      && (out == Again ==> Chatting(u, start, step + 1, w))
      && (out == Switch ==> Open(u.events) && Counted(u))
  {
    var (u, out) := ChatTurn(t, step, w.chat(step), w.tool);
    ChatTurnEmits(t, step, w.chat(step), w.tool);
    ChatTurnPairs(t, step, w.chat(step), w.tool);
    ChatTurnLatch(t, step, w.chat(step), w.tool);
    NestedMore(t.chats, t.st.msgs, u.st.msgs, start);
    hide ChatTurn, Paired, AllPaired, Nested, Open, Finished, Tallied, Honest;
  }

  lemma {:induction false} ChatLoopPairs(t: Trace, start: seq<Message>, user: string, step: nat, steps: nat, w: World)
    requires step <= steps && Chatting(t, start, step, w)
    ensures ChatsPaired(ChatLoop(t, user, step, steps, w), start, w)
    decreases steps - step
  {
    if step < steps {
      var (u, out) := ChatTurn(t, step, w.chat(step), w.tool);
      ChatTurnKeeps(t, start, step, w);
      hide ChatTurn, RespLoop, Paired, AllPaired, Nested, Open, Finished, Tallied, Honest, Chatting;
      match out {
        case Over =>
        case Again => ChatLoopPairs(u, start, user, step + 1, steps, w);
        case Switch => RespLoopEmits(u, [UserInput(user)], 0, w.again, w);
      }
    }
  }

  /** From a paired history every chat request is paired and extends the old
      history, and the run leaves a paired history if and only if the provider
      returned tool calls only together with the tool-calls finish reason. */
  lemma PairedIff(st: State, user: string, steps: nat, w: World)
    requires Paired(st.msgs)
    ensures var t := Run(st, user, steps, w);
      && AllPaired(t.chats)
      && st.msgs <= t.st.msgs && (forall k :: 0 <= k < |t.chats| ==> Opening(st, user) <= t.chats[k] <= t.st.msgs)
      && (Paired(t.st.msgs) <==> forall k :: 0 <= k < |t.chats| ==> Honest(w.chat(k)))
  {
    if st.useResponses {
      RespLoopEmits(Trace(st, [], [], [], 0), [UserInput(user)], 0, steps, w);
    } else {
      PairedOpening(st, user);
      ChatLoopPairs(Trace(st.(msgs := Opening(st, user), started := true), [], [], [], 0),
                    Opening(st, user), user, 0, steps, w);
      assert st.msgs <= Opening(st, user);
    }
  }

  lemma {:induction false} ChatLoopGrows(t: Trace, user: string, step: nat, steps: nat, w: World)
    requires step <= steps
    ensures t.st.msgs <= ChatLoop(t, user, step, steps, w).st.msgs
    decreases steps - step
  {
    if step < steps {
      var (u, out) := ChatTurn(t, step, w.chat(step), w.tool);
      assert t.st.msgs <= u.st.msgs;
      hide ChatTurn;
      match out {
        case Over =>
        case Again => ChatLoopGrows(u, user, step + 1, steps, w);
        case Switch => RespLoopKeepsChat(u, [UserInput(user)], 0, w.again, w);
      }
    }
  }

  lemma {:induction false} RespLoopKeepsChat(t: Trace, input: seq<Item>, step: nat, steps: nat, w: World)
    requires step <= steps
    ensures RespLoop(t, input, step, steps, w).st.msgs == t.st.msgs
    decreases steps - step
  {
    if step < steps {
      var (u, next, over) := RespTurn(t, input, w.resp(step), w.tool);
      RespTurnFrame(t, input, w.resp(step), w.tool);
      hide RespTurn;
      if !over {
        RespLoopKeepsChat(u, next, step + 1, steps, w);
      }
    }
  }

  /** The chat history is only ever extended. */
  lemma HistoryGrows(st: State, user: string, steps: nat, w: World)
    ensures st.msgs <= Run(st, user, steps, w).st.msgs
  {
    if st.useResponses {
      RespLoopKeepsChat(Trace(st, [], [], [], 0), [UserInput(user)], 0, steps, w);
    } else {
      ChatLoopGrows(Trace(st.(msgs := Opening(st, user), started := true), [], [], [], 0), user, 0, steps, w);
      assert st.msgs <= Opening(st, user);
    }
  }

  // ---- Chaining of the Responses requests ----

  /** The input answers the calls: one output per call, in order. */
  ghost predicate OutputsFor(calls: seq<Call>, input: seq<Item>) {
    && |input| == |calls|
    && forall k :: 0 <= k < |calls| ==> input[k].Output? && input[k].id == calls[k].id
  }

  /** Request k chains response k - 1 and carries the outputs for its calls; the
      first one is given. */
  ghost predicate Link(q: Request, k: nat, resp: nat -> Response, first: Request) {
    if k == 0 then q == first
    else
      && resp(k - 1).Responded? && q.prev == resp(k - 1).id
      && resp(k - 1).calls != [] && OutputsFor(resp(k - 1).calls, q.input)
  }

  ghost predicate Chained(resps: seq<Request>, resp: nat -> Response, first: Request) {
    forall k :: 0 <= k < |resps| ==> Link(resps[k], k, resp, first)
  }

  lemma RespTurnChains(t: Trace, next: seq<Item>, w: World, first: Request)
    requires Chained(t.resps, w.resp, first)
    requires Link(Request(t.st.prev, next), |t.resps|, w.resp, first)
    ensures var (u, after, over) := RespTurn(t, next, w.resp(|t.resps|), w.tool);
      && |u.resps| == |t.resps| + 1
      && Chained(u.resps, w.resp, first)
      && (!over ==> Link(Request(u.st.prev, after), |u.resps|, w.resp, first))
  {
    hide Tokens, ToolEvents;
    var (u, after, over) := RespTurn(t, next, w.resp(|t.resps|), w.tool);
    assert u.resps == t.resps + [Request(t.st.prev, next)];
  }

  lemma {:induction false} RespLoopChains(t: Trace, next: seq<Item>, step: nat, steps: nat, w: World, first: Request)
    requires step <= steps && |t.resps| == step
    requires Chained(t.resps, w.resp, first) && Link(Request(t.st.prev, next), step, w.resp, first)
    ensures Chained(RespLoop(t, next, step, steps, w).resps, w.resp, first)
    decreases steps - step
  {
    if step < steps {
      var (u, after, over) := RespTurn(t, next, w.resp(step), w.tool);
      RespTurnChains(t, next, w, first);
      hide RespTurn, Chained, Link;
      if !over {
        RespLoopChains(u, after, step + 1, steps, w, first);
      }
    }
  }

  lemma StartsChain(t: Trace, input: seq<Item>, steps: nat, w: World)
    requires t.resps == []
    ensures Chained(RespLoop(t, input, 0, steps, w).resps, w.resp, Request(t.st.prev, input))
  {
    RespLoopChains(t, input, 0, steps, w, Request(t.st.prev, input));
  }

  lemma {:induction false} ChatLoopChains(t: Trace, user: string, step: nat, steps: nat, w: World)
    requires step <= steps && t.resps == []
    ensures Chained(ChatLoop(t, user, step, steps, w).resps, w.resp, Request(t.st.prev, [UserInput(user)]))
    decreases steps - step
  {
    if step < steps {
      var (u, out) := ChatTurn(t, step, w.chat(step), w.tool);
      ChatTurnLatch(t, step, w.chat(step), w.tool);
      hide ChatTurn, RespLoop;
      match out {
        case Over =>
        case Again => ChatLoopChains(u, user, step + 1, steps, w);
        case Switch => StartsChain(u, [UserInput(user)], w.again, w);
      }
    }
  }

  /** Within one run: the first Responses request carries the user message and
      chains what earlier runs left; each later one chains the response before it
      and carries exactly one output per function call of that response, in order. */
  lemma RequestsChained(st: State, user: string, steps: nat, w: World)
    ensures Chained(Run(st, user, steps, w).resps, w.resp, Request(st.prev, [UserInput(user)]))
  {
    if st.useResponses {
      StartsChain(Trace(st, [], [], [], 0), [UserInput(user)], steps, w);
    } else {
      ChatLoopChains(Trace(st.(msgs := Opening(st, user), started := true), [], [], [], 0), user, 0, steps, w);
    }
  }

  // ---- The runner ----

  lemma ToolSnoc(calls: seq<Call>, i: nat, tool: nat -> ToolOut, from: nat, before: seq<Event>)
    requires i < |calls|
    ensures var c := calls[i]; var out := tool(from + i);
      && before + ToolEvents(calls[..i + 1], tool, from)
         == before + ToolEvents(calls[..i], tool, from) + [ToolUse(c.name + "  " + c.args), ToolResult(out.shown)]
      && ToolMsgs(calls[..i + 1], tool, from) == ToolMsgs(calls[..i], tool, from) + [ToolMsg(c.id, out.out)]
      && Outputs(calls[..i + 1], tool, from) == Outputs(calls[..i], tool, from) + [Output(c.id, out.out)]
  {
    assert calls[..i + 1][..i] == calls[..i];
  }

  lemma NoTools(calls: seq<Call>, tool: nat -> ToolOut, from: nat, before: seq<Event>)
    ensures before + ToolEvents(calls[..0], tool, from) == before
    ensures ToolMsgs(calls[..0], tool, from) == [] && Outputs(calls[..0], tool, from) == []
    ensures calls[..|calls|] == calls
  {
  }

  lemma RespTurnFails(t: Trace, input: seq<Item>, r: Response, tool: nat -> ToolOut)
    requires r.RespFailed?
    ensures var last := if r.stopped then STOPPED else Error(r.text);
      RespTurn(t, input, r, tool) ==
      (Trace(t.st, t.events + [Thinking] + [last] + [Done], t.chats, t.resps + [Request(t.st.prev, input)],
             t.dispatched),
       input, true)
  {
  }

  lemma RespTurnAnswers(t: Trace, input: seq<Item>, r: Response, tool: nat -> ToolOut)
    requires r.Responded?
    ensures var events := t.events + [Thinking] + [Usage(r.tokensIn, r.tokensOut)] + Tokens([r.text]);
      var resps, st := t.resps + [Request(t.st.prev, input)], t.st.(prev := r.id);
      RespTurn(t, input, r, tool) ==
      if r.calls == [] then (Trace(st, events + [Done], t.chats, resps, t.dispatched), input, true)
      else (Trace(st, events + ToolEvents(r.calls, tool, t.dispatched), t.chats, resps, t.dispatched + |r.calls|),
            Outputs(r.calls, tool, t.dispatched), false)
  {
    var events := t.events + [Thinking] + [Usage(r.tokensIn, r.tokensOut)] + Tokens([r.text]);
    assert events + [] == events;
  }

  lemma OneToken(text: string)
    ensures Tokens([text]) == if text != "" then [Token(text)] else []
  {
    assert [text][..0] == [];
  }

  lemma ChatTurnFails(t: Trace, step: nat, r: ChatReply, tool: nat -> ToolOut)
    requires !r.ChatReplied?
    ensures var events := t.events + [Thinking] + Tokens(r.deltas);
      var last := if r.NoChoices? then Error("empty response from provider")
                  else if r.stopped then STOPPED else Error(r.text);
      ChatTurn(t, step, r, tool) ==
      if r.ChatFailed? && r.notChat && step == 0 then
        (Trace(t.st.(useResponses := true), events, t.chats + [t.st.msgs], t.resps, t.dispatched), Switch)
      else (Trace(t.st, events + [last] + [Done], t.chats + [t.st.msgs], t.resps, t.dispatched), Over)
  {
  }

  lemma ChatTurnAnswers(t: Trace, step: nat, r: ChatReply, tool: nat -> ToolOut)
    requires r.ChatReplied?
    ensures var events := t.events + [Thinking] + Tokens(r.deltas) + [Usage(r.tokensIn, r.tokensOut)];
      var msgs, chats := t.st.msgs + [Assistant(r.content, r.calls)], t.chats + [t.st.msgs];
      ChatTurn(t, step, r, tool) ==
      if !r.toolCalls || r.calls == [] then
        (Trace(t.st.(msgs := msgs), events + [Done], chats, t.resps, t.dispatched), Over)
      else
        (Trace(t.st.(msgs := msgs + ToolMsgs(r.calls, tool, t.dispatched)),
               events + ToolEvents(r.calls, tool, t.dispatched), chats, t.resps, t.dispatched + |r.calls|), Again)
  {
    var events := t.events + [Thinking] + Tokens(r.deltas) + [Usage(r.tokensIn, r.tokensOut)];
    assert events + [] == events;
  }

  /** The running trace besides the runner's fields. */
  datatype Log = Log(events: seq<Event>, chats: seq<seq<Message>>, resps: seq<Request>, dispatched: nat)

  class Runner {
    var msgs: seq<Message>
    var started: bool
    var useResponses: bool
    var prev: string

    constructor ()
      ensures St() == State([], false, false, "")
    {
      msgs, started, useResponses, prev := [], false, false, "";
    }

    function St(): State
      reads this
    {
      State(msgs, started, useResponses, prev)
    }

    ghost function Now(l: Log): Trace
      reads this
    {
      Trace(St(), l.events, l.chats, l.resps, l.dispatched)
    }

    /** One operator message, with a budget of provider calls. */
    method Send(user: string, steps: nat, w: World) returns (l: Log)
      modifies this
      ensures Now(l) == Run(old(St()), user, steps, w)
    {
      hide ChatLoop, RespLoop;
      if useResponses {
        l := RunResponses(user, steps, w, Log([], [], [], 0));
        return;
      }
      if !started {
        msgs := msgs + [System];
        started := true;
      } else {
        assert msgs + [] == msgs;
      }
      msgs := msgs + [User(user)];
      l := RunChat(user, steps, w, Log([], [], [], 0));
    }

    /** The loop against Chat Completions. */
    method RunChat(user: string, steps: nat, w: World, l0: Log) returns (l: Log)
      modifies this
      ensures Now(l) == ChatLoop(old(Now(l0)), user, 0, steps, w)
    {
      l := l0;
      hide ChatLoop, RespLoop, ChatTurn;
      var step := 0;
      while step < steps
        invariant 0 <= step <= steps
        invariant ChatLoop(old(Now(l0)), user, 0, steps, w) == ChatLoop(Now(l), user, step, steps, w)
      {
        ChatLoopStep(Now(l), user, step, steps, w);
        var out;
        l, out := ChatCall(step, w.chat(step), w.tool, l);
        if out == Over {
          return;
        } else if out == Switch {
          l := RunResponses(user, w.again, w, l);
          return;
        }
        step := step + 1;
      }
      ChatLoopStep(Now(l), user, steps, steps, w);
      l := l.(events := l.events + [Budget(steps)] + [Done]);
    }

    /** The loop against the Responses API. */
    method RunResponses(user: string, steps: nat, w: World, l0: Log) returns (l: Log)
      modifies `prev
      ensures Now(l) == RespLoop(old(Now(l0)), [UserInput(user)], 0, steps, w)
    {
      l := l0;
      var input := [UserInput(user)];
      var step := 0;
      hide RespLoop, RespTurn;
      while step < steps
        invariant 0 <= step <= steps
        invariant RespLoop(old(Now(l0)), [UserInput(user)], 0, steps, w) == RespLoop(Now(l), input, step, steps, w)
      {
        RespLoopStep(Now(l), input, step, steps, w);
        var over;
        l, input, over := RespCall(input, w.resp(step), w.tool, l);
        if over {
          return;
        }
        step := step + 1;
      }
      RespLoopStep(Now(l), input, steps, steps, w);
      l := l.(events := l.events + [Budget(steps)] + [Done]);
    }

    /** One Chat Completions call and what follows it. */
    method ChatCall(step: nat, r: ChatReply, tool: nat -> ToolOut, l0: Log) returns (l: Log, out: Outcome)
      modifies `msgs, `useResponses
      ensures (Now(l), out) == ChatTurn(old(Now(l0)), step, r, tool)
    {
      hide ChatTurn, Tokens, ToolEvents, ToolMsgs;
      var events, chats := l0.events + [Thinking] + Tokens(r.deltas), l0.chats + [msgs];
      if !r.ChatReplied? {
        ChatTurnFails(Now(l0), step, r, tool);
        if r.ChatFailed? && r.notChat && step == 0 {
          useResponses := true;
          l, out := Log(events, chats, l0.resps, l0.dispatched), Switch;
          return;
        }
        var last;
        if r.NoChoices? {
          last := Error("empty response from provider");
        } else if r.stopped {
          last := STOPPED;
        } else {
          last := Error(r.text);
        }
        l, out := Log(events + [last] + [Done], chats, l0.resps, l0.dispatched), Over;
        return;
      }
      ChatTurnAnswers(Now(l0), step, r, tool);
      events := events + [Usage(r.tokensIn, r.tokensOut)];
      msgs := msgs + [Assistant(r.content, r.calls)];
      if !r.toolCalls || r.calls == [] {
        l, out := Log(events + [Done], chats, l0.resps, l0.dispatched), Over;
        return;
      }
      var more, _, used := UseTools(r.calls, tool, events, l0.dispatched);
      msgs := msgs + used;
      l, out := Log(more, chats, l0.resps, l0.dispatched + |r.calls|), Again;
    }

    /** One Responses call and what follows it. */
    method RespCall(input0: seq<Item>, r: Response, tool: nat -> ToolOut, l0: Log)
      returns (l: Log, input: seq<Item>, over: bool)
      modifies `prev
      ensures (Now(l), input, over) == RespTurn(old(Now(l0)), input0, r, tool)
    {
      hide RespTurn, Tokens, ToolEvents, Outputs;
      var events, resps := l0.events + [Thinking], l0.resps + [Request(prev, input0)];
      if r.RespFailed? {
        RespTurnFails(Now(l0), input0, r, tool);
        var last := if r.stopped then STOPPED else Error(r.text);
        l, input, over := Log(events + [last] + [Done], l0.chats, resps, l0.dispatched), input0, true;
        return;
      }
      RespTurnAnswers(Now(l0), input0, r, tool);
      OneToken(r.text);
      prev := r.id;
      events := events + [Usage(r.tokensIn, r.tokensOut)];
      if r.text != "" {
        events := events + [Token(r.text)];
      } else {
        assert events + [] == events;
      }
      if r.calls == [] {
        l, input, over := Log(events + [Done], l0.chats, resps, l0.dispatched), input0, true;
        return;
      }
      var more, outs, _ := UseTools(r.calls, tool, events, l0.dispatched);
      l, input, over := Log(more, l0.chats, resps, l0.dispatched + |r.calls|), outs, false;
    }

    /** Dispatch the calls in order, for either API. */
    static method UseTools(calls: seq<Call>, tool: nat -> ToolOut, before: seq<Event>, from: nat)
      returns (events: seq<Event>, outs: seq<Item>, msgs: seq<Message>)
      ensures events == before + ToolEvents(calls, tool, from)
      ensures outs == Outputs(calls, tool, from) && msgs == ToolMsgs(calls, tool, from)
    {
      events, outs, msgs := before, [], [];
      NoTools(calls, tool, from, before);
      hide ToolEvents, ToolMsgs, Outputs;
      for i := 0 to |calls|
        invariant events == before + ToolEvents(calls[..i], tool, from)
        invariant outs == Outputs(calls[..i], tool, from) && msgs == ToolMsgs(calls[..i], tool, from)
      {
        ToolSnoc(calls, i, tool, from, before);
        var c, out := calls[i], tool(from + i);
        events := events + [ToolUse(c.name + "  " + c.args), ToolResult(out.shown)];
        outs, msgs := outs + [Output(c.id, out.out)], msgs + [ToolMsg(c.id, out.out)];
      }
    }
  }

  lemma ChatLoopStep(t: Trace, user: string, step: nat, steps: nat, w: World)
    requires step <= steps
    ensures step == steps ==> ChatLoop(t, user, step, steps, w) == End(t, [Budget(steps)])
    ensures step < steps ==>
              var (u, out) := ChatTurn(t, step, w.chat(step), w.tool);
              ChatLoop(t, user, step, steps, w) ==
              match out
              case Over => u
              case Again => ChatLoop(u, user, step + 1, steps, w)
              case Switch => RespLoop(u, [UserInput(user)], 0, w.again, w)
  {
  }

  lemma RespLoopStep(t: Trace, input: seq<Item>, step: nat, steps: nat, w: World)
    requires step <= steps
    ensures step == steps ==> RespLoop(t, input, step, steps, w) == End(t, [Budget(steps)])
    ensures step < steps ==>
              var (u, next, over) := RespTurn(t, input, w.resp(step), w.tool);
              RespLoop(t, input, step, steps, w) == if over then u else RespLoop(u, next, step + 1, steps, w)
  {
  }
}
