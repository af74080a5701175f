/** When a run's transcript reads the same stored and live, for either provider. */
module ChatRuns {
  import opened Events
  import T = Transcript
  import A = AnthropicRunner
  import O = OpenAIRunner

  // ---- When a run's errors carry text ----

  ghost predicate SpeaksA(r: A.Reply) {
    r.Failed? && !r.stopped ==> r.text != ""
  }

  lemma {:induction false} ToolsSilentA(calls: seq<A.Block>, tool: nat -> A.ToolOut, from: nat)
    requires forall k :: 0 <= k < |calls| ==> calls[k].ToolUseBlock?
    ensures ErrorsNotEmpty(A.ToolEvents(calls, tool, from))
  {
    if calls != [] {
      ToolsSilentA(calls[..|calls| - 1], tool, from);
    }
  }

  lemma TurnErrorsA(t: A.Trace, r: A.Reply, tool: nat -> A.ToolOut)
    ensures var (u, over) := A.Turn(t, r, tool);
      && (ErrorsNotEmpty(u.events) <==> ErrorsNotEmpty(t.events) && SpeaksA(r))
      && u.requests == t.requests + [t.msgs]
  {
    var events := t.events + [Thinking] + Tokens(r.deltas);
    TokensNoErrors(r.deltas);
    ErrorsAppend(t.events, [Thinking]);
    ErrorsAppend(t.events + [Thinking], Tokens(r.deltas));
    hide A.Turn, Tokens, A.ToolEvents, ErrorsNotEmpty;
    match r {
      case Failed(_, stopped, text) =>
        A.TurnFails(t, r, tool);
        var last := if stopped then STOPPED else Error(text);
        ErrorsAppend(events, [last]);
        ErrorsAppend(events + [last], [Done]);
        OneError(last);
        OneError(Done);
      case Replied(_, blocks, _, tokensIn, tokensOut) =>
        A.TurnAnswers(t, r, tool);
        var told := events + [Usage(tokensIn, tokensOut)];
        ErrorsAppend(events, [Usage(tokensIn, tokensOut)]);
        ErrorsAppend(told, [Done]);
        ToolsSilentA(A.Calls(blocks), tool, t.dispatched);
        ErrorsAppend(told, A.ToolEvents(A.Calls(blocks), tool, t.dispatched));
        OneError(Usage(tokensIn, tokensOut));
        OneError(Done);
    }
    OneError(Thinking);
  }

  lemma OneError(e: Event)
    ensures ErrorsNotEmpty([e]) <==> (e.Error? ==> e.text != "")
  {
    assert [e][0] == e;
  }

  lemma {:induction false} LoopErrorsA(t: A.Trace, step: nat, steps: nat, reply: nat -> A.Reply, tool: nat -> A.ToolOut)
    requires step <= steps && |t.requests| == step
    ensures var u := A.Loop(t, step, steps, reply, tool);
      && |u.requests| >= step
      && (ErrorsNotEmpty(u.events) <==>
            ErrorsNotEmpty(t.events) && forall k :: step <= k < |u.requests| ==> SpeaksA(reply(k)))
    decreases steps - step
  {
    if step == steps {
      ErrorsAppend(t.events, [Budget(steps)]);
      ErrorsAppend(t.events + [Budget(steps)], [Done]);
      OneError(Budget(steps));
      OneError(Done);
    } else {
      var (u, over) := A.Turn(t, reply(step), tool);
      TurnErrorsA(t, reply(step), tool);
      hide A.Turn, ErrorsNotEmpty, SpeaksA;
      if !over {
        LoopErrorsA(u, step + 1, steps, reply, tool);
      }
    }
  }

  /** The Anthropic run's transcript reads the same stored and live if and only if
      every provider error it met, other than an operator stop, had a text. */
  lemma AnthropicTranscript(msgs: seq<A.Message>, user: string, steps: nat, reply: nat -> A.Reply,
                            tool: nat -> A.ToolOut)
    requires steps >= 1
    ensures var t := A.Run(msgs, user, steps, reply, tool);
      T.SameTranscript(t.events) <==> forall k :: 0 <= k < |t.requests| ==> SpeaksA(reply(k))
  {
    A.RunShape(msgs, user, steps, reply, tool);
    T.FinishedSameIff(A.Run(msgs, user, steps, reply, tool).events);
    LoopErrorsA(A.Begin(msgs, user), 0, steps, reply, tool);
  }

  ghost predicate SpeaksChat(r: O.ChatReply, step: nat) {
    r.ChatFailed? && !r.stopped && !(r.notChat && step == 0) ==> r.text != ""
  }

  ghost predicate SpeaksResp(r: O.Response) {
    r.RespFailed? && !r.stopped ==> r.text != ""
  }

  lemma {:induction false} ToolsSilentO(calls: seq<O.Call>, tool: nat -> O.ToolOut, from: nat)
    ensures ErrorsNotEmpty(O.ToolEvents(calls, tool, from))
  {
    if calls != [] {
      ToolsSilentO(calls[..|calls| - 1], tool, from);
    }
  }

  lemma RespErrors(t: O.Trace, input: seq<O.Item>, r: O.Response, tool: nat -> O.ToolOut)
    ensures var u := O.RespTurn(t, input, r, tool).0;
      && (ErrorsNotEmpty(u.events) <==> ErrorsNotEmpty(t.events) && SpeaksResp(r))
      && |u.resps| == |t.resps| + 1 && u.chats == t.chats
  {
    ErrorsAppend(t.events, [Thinking]);
    OneError(Thinking);
    OneError(Done);
    O.RespTurnFrame(t, input, r, tool);
    hide O.RespTurn, Tokens, O.ToolEvents, ErrorsNotEmpty;
    match r {
      case RespFailed(stopped, text) =>
        O.RespTurnFails(t, input, r, tool);
        var last := if stopped then STOPPED else Error(text);
        ErrorsAppend(t.events + [Thinking], [last]);
        ErrorsAppend(t.events + [Thinking] + [last], [Done]);
        OneError(last);
      case Responded(_, text, calls, tokensIn, tokensOut) =>
        O.RespTurnAnswers(t, input, r, tool);
        var usage := Usage(tokensIn, tokensOut);
        var told := t.events + [Thinking] + [usage] + Tokens([text]);
        TokensNoErrors([text]);
        OneError(usage);
        ErrorsAppend(t.events + [Thinking], [usage]);
        ErrorsAppend(t.events + [Thinking] + [usage], Tokens([text]));
        ErrorsAppend(told, [Done]);
        ToolsSilentO(calls, tool, t.dispatched);
        ErrorsAppend(told, O.ToolEvents(calls, tool, t.dispatched));
    }
  }

  lemma ChatErrors(t: O.Trace, step: nat, r: O.ChatReply, tool: nat -> O.ToolOut)
    ensures var u := O.ChatTurn(t, step, r, tool).0;
      && (ErrorsNotEmpty(u.events) <==> ErrorsNotEmpty(t.events) && SpeaksChat(r, step))
      && |u.chats| == |t.chats| + 1 && u.resps == t.resps
  {
    var events := t.events + [Thinking] + Tokens(r.deltas);
    TokensNoErrors(r.deltas);
    ErrorsAppend(t.events, [Thinking]);
    ErrorsAppend(t.events + [Thinking], Tokens(r.deltas));
    OneError(Thinking);
    OneError(Done);
    O.ChatTurnLatch(t, step, r, tool);
    hide O.ChatTurn, Tokens, O.ToolEvents, ErrorsNotEmpty;
    if r.ChatReplied? {
      O.ChatTurnAnswers(t, step, r, tool);
      var usage := Usage(r.tokensIn, r.tokensOut);
      OneError(usage);
      ErrorsAppend(events, [usage]);
      ErrorsAppend(events + [usage], [Done]);
      ToolsSilentO(r.calls, tool, t.dispatched);
      ErrorsAppend(events + [usage], O.ToolEvents(r.calls, tool, t.dispatched));
    } else {
      O.ChatTurnFails(t, step, r, tool);
      var last := if r.NoChoices? then Error("empty response from provider")
                  else if r.stopped then STOPPED else Error(r.text);
      OneError(last);
      ErrorsAppend(events, [last]);
      ErrorsAppend(events + [last], [Done]);
    }
  }

  lemma {:induction false} RespLoopErrors(t: O.Trace, input: seq<O.Item>, step: nat, steps: nat, w: O.World)
    requires step <= steps && |t.resps| == step
    ensures var u := O.RespLoop(t, input, step, steps, w);
      && |u.resps| >= step && u.chats == t.chats
      && (ErrorsNotEmpty(u.events) <==>
            ErrorsNotEmpty(t.events) && forall k :: step <= k < |u.resps| ==> SpeaksResp(w.resp(k)))
    decreases steps - step
  {
    if step == steps {
      BudgetSilent(t.events, Budget(steps));
    } else {
      var (u, next, over) := O.RespTurn(t, input, w.resp(step), w.tool);
      RespErrors(t, input, w.resp(step), w.tool);
      hide O.RespTurn, ErrorsNotEmpty, SpeaksResp;
      if !over {
        RespLoopErrors(u, next, step + 1, steps, w);
      }
    }
  }

  lemma BudgetSilent(es: seq<Event>, e: Event)
    requires e.Notice?
    ensures ErrorsNotEmpty(es + [e] + [Done]) <==> ErrorsNotEmpty(es)
  {
    ErrorsAppend(es, [e]);
    ErrorsAppend(es + [e], [Done]);
    OneError(e);
    OneError(Done);
  }

  lemma {:induction false} ChatLoopErrors(t: O.Trace, user: string, step: nat, steps: nat, w: O.World)
    requires step <= steps && |t.chats| == step && t.resps == []
    ensures var u := O.ChatLoop(t, user, step, steps, w);
      && |u.chats| >= step
      && (ErrorsNotEmpty(u.events) <==>
            && ErrorsNotEmpty(t.events)
            && (forall k :: step <= k < |u.chats| ==> SpeaksChat(w.chat(k), k))
            && (forall k :: 0 <= k < |u.resps| ==> SpeaksResp(w.resp(k))))
    decreases steps - step
  {
    if step == steps {
      BudgetSilent(t.events, Budget(steps));
    } else {
      var (u, out) := O.ChatTurn(t, step, w.chat(step), w.tool);
      ChatErrors(t, step, w.chat(step), w.tool);
      hide O.ChatTurn, O.RespLoop, ErrorsNotEmpty, SpeaksChat, SpeaksResp;
      match out {
        case Over =>
        case Again => ChatLoopErrors(u, user, step + 1, steps, w);
        case Switch => RespLoopErrors(u, [O.UserInput(user)], 0, w.again, w);
      }
    }
  }

  /** Likewise for OpenAI, over both APIs; the probe that makes the runner switch
      says nothing and does not count. */
  lemma OpenAITranscript(st: O.State, user: string, steps: nat, w: O.World)
    requires steps >= 1
    ensures var t := O.Run(st, user, steps, w);
      T.SameTranscript(t.events) <==>
        && (forall k :: 0 <= k < |t.chats| ==> SpeaksChat(w.chat(k), k))
        && (forall k :: 0 <= k < |t.resps| ==> SpeaksResp(w.resp(k)))
  {
    O.RunShape(st, user, steps, w);
    T.FinishedSameIff(O.Run(st, user, steps, w).events);
    if st.useResponses {
      RespLoopErrors(O.Trace(st, [], [], [], 0), [O.UserInput(user)], 0, steps, w);
    } else {
      ChatLoopErrors(O.Trace(st.(msgs := O.Opening(st, user), started := true), [], [], [], 0), user, 0, steps, w);
    }
  }
}
