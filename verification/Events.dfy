/** The stream of transcript events one agent run emits. */
module Events {
  import opened Decimal

  datatype Event =
    | Thinking
    | Token(text: string)
    | Usage(tokensIn: nat, tokensOut: nat)
    | ToolUse(text: string)
    | ToolResult(text: string)
    | Notice(text: string)
    | Error(text: string)
    | Done

  /** A budget of provider calls. */
  type Steps = n: nat | n >= 1 witness 1

  /** What the operator sees after Stop. */
  const STOPPED := Notice("⏹ Stopped.")

  /** Each tool_use is answered by the very next event, and each tool_result
      answers the event before it. */
  ghost predicate Bracketed(es: seq<Event>) {
    && (forall i :: 0 <= i < |es| && es[i].ToolUse? ==> i + 1 < |es| && es[i + 1].ToolResult?)
    && (forall i :: 0 <= i < |es| && es[i].ToolResult? ==> i > 0 && es[i - 1].ToolUse?)
  }

  ghost predicate NoDone(es: seq<Event>) {
    forall i :: 0 <= i < |es| ==> !es[i].Done?
  }

  ghost predicate TokensNotEmpty(es: seq<Event>) {
    forall i :: 0 <= i < |es| && es[i].Token? ==> es[i].text != ""
  }

  ghost predicate ErrorsNotEmpty(es: seq<Event>) {
    forall i :: 0 <= i < |es| && es[i].Error? ==> es[i].text != ""
  }

  /** A stream still going on: no done yet, tools bracketed, tokens not empty. */
  ghost predicate Open(es: seq<Event>) {
    NoDone(es) && Bracketed(es) && TokensNotEmpty(es)
  }

  /** A finished run: done exactly once, as the last event. */
  ghost predicate Finished(es: seq<Event>) {
    && |es| >= 1 && es[|es| - 1] == Done
    && Open(es[..|es| - 1])
  }

  function Thinkings(es: seq<Event>): nat {
    if es == [] then 0 else Thinkings(es[..|es| - 1]) + (if es[|es| - 1].Thinking? then 1 else 0)
  }

  function ToolUses(es: seq<Event>): nat {
    if es == [] then 0 else ToolUses(es[..|es| - 1]) + (if es[|es| - 1].ToolUse? then 1 else 0)
  }

  lemma {:induction false} CountsAppend(a: seq<Event>, b: seq<Event>)
    ensures Thinkings(a + b) == Thinkings(a) + Thinkings(b)
    ensures ToolUses(a + b) == ToolUses(a) + ToolUses(b)
  {
    if b == [] {
      assert a + b == a;
    } else {
      var n := |b| - 1;
      CountsAppend(a, b[..n]);
      assert (a + b)[..|a + b| - 1] == a + b[..n];
    }
  }

  lemma OpenAppend(a: seq<Event>, b: seq<Event>)
    requires Open(a) && Open(b)
    ensures Open(a + b)
  {
    var s := a + b;
    forall i | 0 <= i < |s|
      ensures s[i].ToolUse? ==> i + 1 < |s| && s[i + 1].ToolResult?
      ensures s[i].ToolResult? ==> i > 0 && s[i - 1].ToolUse?
    {
      if i < |a| {
        assert s[i] == a[i];
        if a[i].ToolUse? { assert s[i + 1] == a[i + 1]; }
      } else {
        assert s[i] == b[i - |a|];
        if b[i - |a|].ToolUse? { assert s[i + 1] == b[i - |a| + 1]; }
        if b[i - |a|].ToolResult? { assert s[i - 1] == b[i - |a| - 1]; }
      }
    }
  }

  /** The tokens of one reply, as the runner relays them: empty deltas are not sent. */
  function Tokens(deltas: seq<string>): (es: seq<Event>)
    ensures Open(es) && Thinkings(es) == 0 && ToolUses(es) == 0
  {
    if deltas == [] then []
    else
      var n := |deltas| - 1;
      var es := Tokens(deltas[..n]);
      if deltas[n] != "" then
        OpenAppend(es, [Token(deltas[n])]);
        assert (es + [Token(deltas[n])])[..|es|] == es;
        es + [Token(deltas[n])]
      else es
  }

  /** One token per delta with a text, in order. */
  lemma {:induction false} TokensLaw(a: seq<string>, b: seq<string>, delta: string)
    ensures Tokens([]) == [] && Tokens(a + b) == Tokens(a) + Tokens(b)
    ensures Tokens([delta]) == if delta == "" then [] else [Token(delta)]
  {
    assert [delta][..0] == [];
    if b == [] {
      assert a + b == a;
    } else {
      var n := |b| - 1;
      TokensLaw(a, b[..n], delta);
      assert (a + b)[..|a + b| - 1] == a + b[..n];
    }
  }

  /** Relaying one more event that needs no answer. */
  lemma Emit(es: seq<Event>, e: Event)
    requires Open(es) && !e.Done? && !e.ToolUse? && !e.ToolResult? && (e.Token? ==> e.text != "")
    ensures Open(es + [e])
    ensures Thinkings(es + [e]) == Thinkings(es) + (if e.Thinking? then 1 else 0)
    ensures ToolUses(es + [e]) == ToolUses(es)
  {
    OpenAppend(es, [e]);
    CountsAppend(es, [e]);
  }

  lemma EmitTokens(es: seq<Event>, deltas: seq<string>)
    requires Open(es)
    ensures Open(es + Tokens(deltas))
    ensures Thinkings(es + Tokens(deltas)) == Thinkings(es) && ToolUses(es + Tokens(deltas)) == ToolUses(es)
  {
    OpenAppend(es, Tokens(deltas));
    CountsAppend(es, Tokens(deltas));
  }

  lemma EmitTool(es: seq<Event>, use: string, result: string)
    requires Open(es)
    ensures Open(es + [ToolUse(use), ToolResult(result)])
    ensures Thinkings(es + [ToolUse(use), ToolResult(result)]) == Thinkings(es)
    ensures ToolUses(es + [ToolUse(use), ToolResult(result)]) == ToolUses(es) + 1
  {
    OpenAppend(es, [ToolUse(use), ToolResult(result)]);
    CountsAppend(es, [ToolUse(use)] + [ToolResult(result)]);
    CountsAppend([ToolUse(use)], [ToolResult(result)]);
    assert [ToolUse(use)] + [ToolResult(result)] == [ToolUse(use), ToolResult(result)];
  }

  lemma EmitDone(es: seq<Event>)
    requires Open(es)
    ensures Finished(es + [Done])
    ensures Thinkings(es + [Done]) == Thinkings(es) && ToolUses(es + [Done]) == ToolUses(es)
  {
    assert (es + [Done])[..|es|] == es;
  }

  /** The stream counts so many provider calls and so many dispatches. */
  ghost predicate Tallied(es: seq<Event>, calls: nat, dispatched: nat) {
    Thinkings(es) == calls && ToolUses(es) == dispatched
  }

  /** How a run ends, with or without a last word. */
  lemma EndStream(es: seq<Event>, last: seq<Event>, calls: nat, dispatched: nat)
    requires Open(es) && Tallied(es, calls, dispatched)
    requires last == [] || (|last| == 1 && (last[0].Notice? || last[0].Error?))
    ensures Finished(es + last + [Done]) && Tallied(es + last + [Done], calls, dispatched)
  {
    if last == [] {
      assert es + last == es;
    } else {
      assert es + last == es + [last[0]];
      Emit(es, last[0]);
    }
    EmitDone(es + last);
  }

  function Budget(steps: nat): Event {
    Notice("(stopped: reached the " + Print(steps) + "-step budget)")
  }

  lemma ErrorsAppend(a: seq<Event>, b: seq<Event>)
    ensures ErrorsNotEmpty(a + b) <==> ErrorsNotEmpty(a) && ErrorsNotEmpty(b)
  {
    if ErrorsNotEmpty(a + b) {
      forall i | 0 <= i < |a| && a[i].Error? ensures a[i].text != "" {
        assert (a + b)[i] == a[i];
      }
      forall i | 0 <= i < |b| && b[i].Error? ensures b[i].text != "" {
        assert (a + b)[|a| + i] == b[i];
      }
    }
  }

  lemma {:induction false} TokensNoErrors(deltas: seq<string>)
    ensures ErrorsNotEmpty(Tokens(deltas))
  {
    if deltas != [] {
      TokensNoErrors(deltas[..|deltas| - 1]);
    }
  }
}
