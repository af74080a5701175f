/** One event stream folded twice: by the recorder that persists the chat, and by
    the chat view that shows it live. */
module Transcript {
  import opened Common
  import opened Events

  datatype Role = Assistant | Tool | ToolOutput | NoticeRole | ErrorRole

  datatype Line = Line(role: Role, text: string)

  /** What a bubble shows: rendered Markdown, a formatted call or result, or text. */
  datatype Face = Html(src: string) | UseFace(src: string) | ResultFace(src: string) | Plain

  datatype Bubble = Bubble(role: Role, text: string, face: Face)

  // ---- The recorder ----

  datatype Recording = Recording(asst: string, stored: seq<Line>)

  function Flush(r: Recording): Recording {
    if |r.asst| > 0 then Recording("", r.stored + [Line(Assistant, r.asst)]) else r
  }

  function Add(r: Recording, role: Role, text: string): Recording {
    r.(stored := r.stored + [Line(role, text)])
  }

  function Record(r: Recording, e: Event): Recording {
    match e
    case Token(t) => r.(asst := r.asst + t)
    case ToolUse(t) => Add(Flush(r), Tool, t)
    case ToolResult(t) => Add(r, ToolOutput, t)
    case Notice(t) => Add(Flush(r), NoticeRole, t)
    case Error(t) => Add(Flush(r), ErrorRole, t)
    case Done => Flush(r)
    case Thinking => r
    case Usage(_, _) => r
  }

  function RecordAll(r: Recording, es: seq<Event>): Recording
    decreases |es|
  {
    if es == [] then r else RecordAll(Record(r, es[0]), es[1..])
  }

  // ---- The live view ----

  /** The bubbles so far, and which one is still being streamed into. */
  datatype Live = Live(messages: seq<Bubble>, open: Option<nat>)

  ghost predicate ValidLive(v: Live) {
    v.open.Some? ==> v.open.value < |v.messages|
  }

  function Push(v: Live, b: Bubble, close: bool): Live {
    Live(v.messages + [b], if close then None else v.open)
  }

  function AppendText(v: Live, t: string): Live {
    match v.open
    case None => Live(v.messages + [Bubble(Assistant, t, Html(t))], Some(|v.messages|))
    case Some(k) =>
      if k < |v.messages| then
        var text := v.messages[k].text + t;
        v.(messages := v.messages[k := v.messages[k].(text := text, face := Html(text))])
      else v
  }

  function OnEvent(v: Live, e: Event): Live {
    match e
    case Token(t) => AppendText(v, t)
    case ToolUse(t) => Push(v, Bubble(Tool, t, UseFace(t)), true)
    case ToolResult(t) => Push(v, Bubble(ToolOutput, t, ResultFace(t)), false)
    case Notice(t) => Push(v, Bubble(NoticeRole, t, Plain), true)
    case Error(t) => Push(v, Bubble(ErrorRole, if t != "" then t else "error", Plain), true)
    case Done => v.(open := None)
    case Thinking => v
    case Usage(_, _) => v
  }

  function OnEvents(v: Live, es: seq<Event>): Live
    decreases |es|
  {
    if es == [] then v else OnEvents(OnEvent(v, es[0]), es[1..])
  }

  /** How a stored line is shown when the chat is opened again. */
  function Reopen(l: Line): Bubble {
    match l.role
    case Assistant => Bubble(l.role, l.text, Html(l.text))
    case Tool => Bubble(l.role, l.text, UseFace(l.text))
    case ToolOutput => Bubble(l.role, l.text, ResultFace(l.text))
    case NoticeRole => Bubble(l.role, l.text, Plain)
    case ErrorRole => Bubble(l.role, l.text, Plain)
  }

  function ReopenAll(ls: seq<Line>): seq<Bubble> {
    seq(|ls|, i requires 0 <= i < |ls| => Reopen(ls[i]))
  }

  // ---- The two folds agree ----

  /** What is shown is what is stored, plus the text not flushed yet as the last,
      open bubble. */
  ghost predicate InStep(r: Recording, v: Live) {
    if r.asst == "" then v.open == None && v.messages == ReopenAll(r.stored)
    else v.open == Some(|r.stored|) && v.messages == ReopenAll(r.stored + [Line(Assistant, r.asst)])
  }

  /** An event that keeps the two in step: tokens and errors carry text, and a
      tool_result does not arrive in the middle of assistant text. */
  ghost predicate Tame(r: Recording, e: Event) {
    && (e.Token? ==> e.text != "")
    && (e.Error? ==> e.text != "")
    && (e.ToolResult? ==> r.asst == "")
  }

  lemma StepInStep(r: Recording, v: Live, e: Event)
    requires InStep(r, v) && Tame(r, e)
    ensures InStep(Record(r, e), OnEvent(v, e))
  {
    if e.Token? {
      if r.asst == "" {
        assert r.asst + e.text == e.text;
      } else {
      }
    } else if |Record(r, e).stored| > 0 {
    }
  }

  /** Every event of the stream is tame when it arrives. */
  ghost predicate TameAll(r: Recording, es: seq<Event>)
    decreases |es|
  {
    es == [] || (Tame(r, es[0]) && TameAll(Record(r, es[0]), es[1..]))
  }

  lemma {:induction false} FoldsInStep(r: Recording, v: Live, es: seq<Event>)
    requires InStep(r, v) && TameAll(r, es)
    ensures InStep(RecordAll(r, es), OnEvents(v, es))
    decreases |es|
  {
    if es != [] {
      StepInStep(r, v, es[0]);
      FoldsInStep(Record(r, es[0]), OnEvent(v, es[0]), es[1..]);
    }
  }

  const NOTHING := Recording("", [])
  const BLANK := Live([], None)

  /** The chat reopened from storage is the chat as it was shown live. */
  ghost predicate SameTranscript(es: seq<Event>) {
    ReopenAll(RecordAll(NOTHING, es).stored) == OnEvents(BLANK, es).messages
  }

  // ---- Streams a runner can emit are tame ----

  lemma {:induction false} BracketedIsTame(r: Recording, es: seq<Event>, i: nat)
    requires i <= |es| && Bracketed(es) && TokensNotEmpty(es) && ErrorsNotEmpty(es)
    requires i > 0 && es[i - 1].ToolUse? ==> r.asst == ""
    ensures TameAll(r, es[i..])
    decreases |es| - i
  {
    if i < |es| {
      assert es[i..][1..] == es[i + 1..];
      BracketedIsTame(Record(r, es[i]), es, i + 1);
    }
  }

  lemma {:induction false} RecordDone(r: Recording, es: seq<Event>)
    requires es != [] && es[|es| - 1] == Done
    ensures RecordAll(r, es).asst == ""
    decreases |es|
  {
    if |es| > 1 {
      RecordDone(Record(r, es[0]), es[1..]);
    } else {
      assert es[1..] == [];
      assert RecordAll(Record(r, es[0]), []) == Record(r, es[0]);
    }
  }

  /** Persisted equals live for every finished run whose errors carry text. */
  lemma PersistedEqualsLive(es: seq<Event>)
    requires Finished(es) && ErrorsNotEmpty(es)
    ensures SameTranscript(es)
  {
    BracketedIsTame(NOTHING, es, 0);
    assert es[0..] == es;
    FoldsInStep(NOTHING, BLANK, es);
    RecordDone(NOTHING, es);
  }

  // ---- Exactly when the two agree ----

  /** Stored lines are never taken back or changed. */
  lemma {:induction false} StoredGrows(r: Recording, es: seq<Event>)
    ensures r.stored <= RecordAll(r, es).stored
    decreases |es|
  {
    if es != [] {
      StoredGrows(Record(r, es[0]), es[1..]);
    }
  }

  /** A bubble's role, and a closed bubble's text, never change. */
  lemma {:induction false} BubblesStay(v: Live, es: seq<Event>, k: nat)
    requires ValidLive(v) && k < |v.messages|
    ensures var w := OnEvents(v, es);
      && k < |w.messages| && w.messages[k].role == v.messages[k].role
      && (v.open != Some(k) ==> w.messages[k] == v.messages[k])
    decreases |es|
  {
    if es != [] {
      BubblesStay(OnEvent(v, es[0]), es[1..], k);
    }
  }

  /** A tool_result in the middle of text, or an error without text, leaves a
      difference that nothing later repairs. */
  lemma WildDiffers(r: Recording, v: Live, es: seq<Event>)
    requires InStep(r, v) && es != [] && (es[0].Token? ==> es[0].text != "") && !Tame(r, es[0])
    ensures ReopenAll(RecordAll(r, es).stored) != OnEvents(v, es).messages
  {
    var e, rest := es[0], es[1..];
    var r', v' := Record(r, e), OnEvent(v, e);
    StoredGrows(r', rest);
    var final := RecordAll(r, es).stored;
    if e.ToolResult? {
      // live: the open text sits where the stored line is a tool result
      var k := |r.stored|;
      BubblesStay(v', rest, k);
      assert final[k] == r'.stored[k] == Line(ToolOutput, e.text);
      assert ReopenAll(final)[k].role == ToolOutput && OnEvents(v, es).messages[k].role == Assistant;
    } else {
      var k := |r'.stored| - 1;
      BubblesStay(v', rest, k);
      assert final[k] == Line(ErrorRole, "");
      assert ReopenAll(final)[k].text == "" && OnEvents(v, es).messages[k].text == "error";
    }
  }

  lemma {:induction false} TameIff(r: Recording, v: Live, es: seq<Event>)
    requires InStep(r, v) && TokensNotEmpty(es) && es != [] && es[|es| - 1] == Done
    ensures ReopenAll(RecordAll(r, es).stored) == OnEvents(v, es).messages <==> TameAll(r, es)
    decreases |es|
  {
    if !Tame(r, es[0]) {
      WildDiffers(r, v, es);
    } else {
      StepInStep(r, v, es[0]);
      var r', v' := Record(r, es[0]), OnEvent(v, es[0]);
      if |es| > 1 {
        TameIff(r', v', es[1..]);
      } else {
        assert es[1..] == [];
        assert TameAll(r', []) && RecordAll(r', []) == r' && OnEvents(v', []) == v';
      }
    }
  }

  /** For any stream of non-empty tokens that ends in done, the stored transcript
      equals the live one if and only if no tool_result interrupts assistant text
      and no error is empty. */
  lemma SameIff(es: seq<Event>)
    requires TokensNotEmpty(es) && es != [] && es[|es| - 1] == Done
    ensures SameTranscript(es) <==> TameAll(NOTHING, es)
  {
    TameIff(NOTHING, BLANK, es);
  }

  lemma {:induction false} TameSpeaks(r: Recording, es: seq<Event>)
    requires TameAll(r, es)
    ensures ErrorsNotEmpty(es)
    decreases |es|
  {
    if es != [] {
      TameSpeaks(Record(r, es[0]), es[1..]);
      assert es == [es[0]] + es[1..];
    }
  }

  /** For a finished run that comes down to its errors: the two transcripts are the
      same if and only if none of them is empty. */
  lemma FinishedSameIff(es: seq<Event>)
    requires Finished(es)
    ensures SameTranscript(es) <==> ErrorsNotEmpty(es)
  {
    if ErrorsNotEmpty(es) {
      PersistedEqualsLive(es);
    } else {
      SameIff(es);
      if TameAll(NOTHING, es) {
        TameSpeaks(NOTHING, es);
      }
    }
  }

  // ---- The imperative folds ----

  class Recorder {
    var asst: string
    var stored: seq<Line>

    constructor ()
      ensures State() == NOTHING
    {
      asst, stored := "", [];
    }

    function State(): Recording
      reads this
    {
      Recording(asst, stored)
    }

    method FlushAssistant()
      modifies this
      ensures State() == Flush(old(State()))
    {
      if |asst| > 0 {
        stored := stored + [Line(Assistant, asst)];
        asst := "";
      }
    }

    method Store(role: Role, text: string)
      modifies `stored
      ensures State() == Add(old(State()), role, text)
    {
      stored := stored + [Line(role, text)];
    }

    method Emit(e: Event)
      modifies this
      ensures State() == Record(old(State()), e)
    {
      match e
      case Token(t) => asst := asst + t;
      case ToolUse(t) => FlushAssistant(); Store(Tool, t);
      case ToolResult(t) => Store(ToolOutput, t);
      case Notice(t) => FlushAssistant(); Store(NoticeRole, t);
      case Error(t) => FlushAssistant(); Store(ErrorRole, t);
      case Done => FlushAssistant();
      case Thinking =>
      case Usage(_, _) =>
    }
  }

  class ChatView {
    var messages: seq<Bubble>
    var open: Option<nat>

    constructor ()
      ensures State() == BLANK && Valid()
    {
      messages, open := [], None;
    }

    function State(): Live
      reads this
    {
      Live(messages, open)
    }

    ghost predicate Valid()
      reads this
    {
      ValidLive(State())
    }

    method Handle(e: Event)
      requires Valid()
      modifies this
      ensures Valid() && State() == OnEvent(old(State()), e)
    {
      match e
      case Token(t) =>
        if open == None {
          messages := messages + [Bubble(Assistant, "", Html(""))];
          open := Some(|messages| - 1);
        }
        var k := open.value;
        messages := messages[k := messages[k].(text := messages[k].text + t)];
        messages := messages[k := messages[k].(face := Html(messages[k].text))];
        assert "" + t == t;
      case ToolUse(t) =>
        open := None;
        messages := messages + [Bubble(Tool, t, UseFace(t))];
      case ToolResult(t) =>
        messages := messages + [Bubble(ToolOutput, t, ResultFace(t))];
      case Notice(t) =>
        open := None;
        messages := messages + [Bubble(NoticeRole, t, Plain)];
      case Error(t) =>
        open := None;
        messages := messages + [Bubble(ErrorRole, if t != "" then t else "error", Plain)];
      case Done => open := None;
      case Thinking =>
      case Usage(_, _) =>
    }
  }
}
