/** What a chat's two transcripts say, character by character: nothing that was said is
    lost, added or moved, neither in what is stored nor in what is shown. */
module TranscriptText {
  import opened Common
  import opened Events
  import opened Transcript

  // ---- What is said ----

  /** A character of assistant text, or a whole line of another kind. */
  datatype Atom = Char(c: char) | Whole(role: Role, text: string)

  function Chars(t: string): seq<Atom> {
    seq(|t|, i requires 0 <= i < |t| => Char(t[i]))
  }

  /** What an event says. */
  function SaidBy(e: Event): seq<Atom> {
    match e
    case Token(t) => Chars(t)
    case ToolUse(t) => [Whole(Tool, t)]
    case ToolResult(t) => [Whole(ToolOutput, t)]
    case Notice(t) => [Whole(NoticeRole, t)]
    case Error(t) => [Whole(ErrorRole, t)]
    case _ => []
  }

  function Said(es: seq<Event>): seq<Atom> {
    if es == [] then [] else SaidBy(es[0]) + Said(es[1..])
  }

  function SaidIn(l: Line): seq<Atom> {
    if l.role == Assistant then Chars(l.text) else [Whole(l.role, l.text)]
  }

  /** What the stored lines say. */
  function Atoms(ls: seq<Line>): seq<Atom> {
    if ls == [] then [] else Atoms(Init(ls)) + SaidIn(Last(ls))
  }

  /** Assistant text is never stored empty or in two lines one after the other. */
  ghost predicate Gathered(ls: seq<Line>) {
    && (forall k :: 0 <= k < |ls| && ls[k].role == Assistant ==> ls[k].text != "")
    && (forall k :: 0 < k < |ls| && ls[k].role == Assistant ==> ls[k - 1].role != Assistant)
  }

  // ---- The recorder ----

  lemma AtomsSnoc(ls: seq<Line>, l: Line)
    ensures Atoms(ls + [l]) == Atoms(ls) + SaidIn(l)
  {
    assert Init(ls + [l]) == ls;
  }

  lemma CharsAppend(a: string, b: string)
    ensures Chars(a + b) == Chars(a) + Chars(b) && Chars("") == []
  {
  }

  /** Everything said so far: what is stored, and the text not stored yet. */
  function SoFar(r: Recording): seq<Atom> { Atoms(r.stored) + Chars(r.asst) }

  lemma FlushSays(r: Recording)
    ensures SoFar(Flush(r)) == SoFar(r) && Flush(r).asst == ""
  {
    CharsAppend("", "");
    hide Chars;
    if r.asst != "" {
      AtomsSnoc(r.stored, Line(Assistant, r.asst));
      assert Atoms(Flush(r).stored) + [] == Atoms(Flush(r).stored);
    }
  }

  lemma AddSays(r: Recording, role: Role, text: string)
    requires r.asst == "" && role != Assistant
    ensures SoFar(Add(r, role, text)) == SoFar(r) + [Whole(role, text)]
  {
    CharsAppend("", "");
    AtomsSnoc(r.stored, Line(role, text));
    hide Chars, Atoms;
    assert Atoms(r.stored) + [] == Atoms(r.stored);
  }

  lemma TokenSays(r: Recording, t: string)
    ensures SoFar(r.(asst := r.asst + t)) == SoFar(r) + Chars(t)
  {
    CharsAppend(r.asst, t);
    hide Chars, Atoms;
    assert Atoms(r.stored) + (Chars(r.asst) + Chars(t)) == (Atoms(r.stored) + Chars(r.asst)) + Chars(t);
  }

  lemma RecordSays(r: Recording, e: Event)
    requires e.ToolResult? ==> r.asst == ""
    ensures SoFar(Record(r, e)) == SoFar(r) + SaidBy(e)
  {
    hide SoFar, Chars, Atoms, Flush, Add;
    FlushSays(r);
    assert SoFar(r) + [] == SoFar(r);
    match e {
      case Token(t) => TokenSays(r, t);
      case ToolUse(t) => AddSays(Flush(r), Tool, t);
      case ToolResult(t) => AddSays(r, ToolOutput, t);
      case Notice(t) => AddSays(Flush(r), NoticeRole, t);
      case Error(t) => AddSays(Flush(r), ErrorRole, t);
      case _ =>
    }
  }

  lemma {:induction false} RecordAllSays(r: Recording, es: seq<Event>, i: nat)
    requires i <= |es| && Bracketed(es)
    requires i > 0 && es[i - 1].ToolUse? ==> r.asst == ""
    ensures SoFar(RecordAll(r, es[i..])) == SoFar(r) + Said(es[i..])
    decreases |es| - i
  {
    hide SoFar, SaidBy, Bracketed;
    if i == |es| {
      assert SoFar(r) + [] == SoFar(r);
    } else {
      var e, rest := es[i], es[i + 1..];
      assert es[i..][0] == e && es[i..][1..] == rest;
      Brackets(es, i, r);
      RecordSays(r, e);
      RecordAllSays(Record(r, e), es, i + 1);
      hide RecordAll, Said;
      assert (SoFar(r) + SaidBy(e)) + Said(rest) == SoFar(r) + (SaidBy(e) + Said(rest));
    }
  }

  /** Text is flushed before a tool is used, so none is open when its result comes. */
  lemma Brackets(es: seq<Event>, i: nat, r: Recording)
    requires i < |es| && Bracketed(es) && (i > 0 && es[i - 1].ToolUse? ==> r.asst == "")
    ensures es[i].ToolResult? ==> r.asst == ""
    ensures es[i].ToolUse? ==> Record(r, es[i]).asst == ""
  {
  }

  /** Between events of a run: what is stored is gathered and ends in no open text. */
  ghost predicate Settled(r: Recording) {
    Gathered(r.stored) && (r.stored != [] ==> Last(r.stored).role != Assistant)
  }

  lemma AddGathers(r: Recording, role: Role, text: string)
    requires Gathered(r.stored) && role != Assistant
    ensures Settled(Add(r, role, text))
  {
  }

  lemma FlushGathers(r: Recording)
    requires Settled(r)
    ensures Gathered(Flush(r).stored)
  {
  }

  lemma RecordGathers(r: Recording, e: Event)
    requires Settled(r)
    ensures Gathered(Record(r, e).stored) && (e != Done ==> Settled(Record(r, e)))
  {
    FlushGathers(r);
    hide Flush, Add, Gathered;
    match e {
      case ToolUse(t) => AddGathers(Flush(r), Tool, t);
      case ToolResult(t) => AddGathers(r, ToolOutput, t);
      case Notice(t) => AddGathers(Flush(r), NoticeRole, t);
      case Error(t) => AddGathers(Flush(r), ErrorRole, t);
      case _ =>
    }
  }

  lemma {:induction false} AllGathered(r: Recording, es: seq<Event>)
    requires Settled(r) && es != [] && NoDone(Init(es))
    ensures Gathered(RecordAll(r, es).stored)
    decreases |es|
  {
    RecordGathers(r, es[0]);
    if |es| > 1 {
      assert Init(es)[0] == es[0] && Init(es[1..]) == Init(es)[1..];
      AllGathered(Record(r, es[0]), es[1..]);
    } else {
      assert es[1..] == [];
      assert RecordAll(Record(r, es[0]), []) == Record(r, es[0]);
    }
  }

  /** A finished run is stored as it was said: every character of the assistant's text
      and every tool use, tool result, notice and error, in order, with the text
      gathered into one line between the others. */
  lemma StoredAsSaid(es: seq<Event>)
    requires Finished(es)
    ensures var ls := RecordAll(NOTHING, es).stored; Atoms(ls) == Said(es) && Gathered(ls)
  {
    assert es[0..] == es && Init(es) == es[..|es| - 1];
    RecordAllSays(NOTHING, es, 0);
    RecordDone(NOTHING, es);
    AllGathered(NOTHING, es);
    NothingOpen(RecordAll(NOTHING, es));
    NothingOpen(NOTHING);
    hide RecordAll, Said, SoFar;
    assert [] + Said(es) == Said(es);
  }

  lemma NothingOpen(r: Recording)
    requires r.asst == ""
    ensures SoFar(r) == Atoms(r.stored) && Atoms([]) == []
  {
    CharsAppend("", "");
    assert Atoms(r.stored) + [] == Atoms(r.stored);
  }

  // ---- The live view ----

  /** The bubble shows the line: its role, its text, or "error" for an error that has
      none, and the face of its role. */
  ghost predicate ShowsLine(b: Bubble, l: Line) {
    && b.role == l.role
    && b.text == (if l.role == ErrorRole && l.text == "" then "error" else l.text)
    && b.face == (match l.role
                  case Assistant => Html(b.text)
                  case Tool => UseFace(b.text)
                  case ToolOutput => ResultFace(b.text)
                  case NoticeRole => Plain
                  case ErrorRole => Plain)
  }

  ghost predicate ShowsAll(bs: seq<Bubble>, ls: seq<Line>) {
    |bs| == |ls| && forall k :: 0 <= k < |ls| ==> ShowsLine(bs[k], ls[k])
  }

  /** What is shown is what is stored, plus the open text. */
  ghost predicate Abreast(r: Recording, v: Live) {
    if r.asst == "" then v.open == None && ShowsAll(v.messages, r.stored)
    else v.open == Some(|r.stored|) && ShowsAll(v.messages, r.stored + [Line(Assistant, r.asst)])
  }

  lemma TokenAbreast(r: Recording, v: Live, t: string)
    requires Abreast(r, v) && t != ""
    ensures Abreast(r.(asst := r.asst + t), AppendText(v, t))
  {
    if r.asst == "" {
      assert r.asst + t == t;
    }
  }

  lemma StepAbreast(r: Recording, v: Live, e: Event)
    requires Abreast(r, v) && (e.Token? ==> e.text != "") && (e.ToolResult? ==> r.asst == "")
    ensures Abreast(Record(r, e), OnEvent(v, e))
  {
    if e.Token? {
      hide Abreast, AppendText;
      TokenAbreast(r, v, e.text);
    } else {
      hide AppendText;
    }
  }

  lemma {:induction false} AllAbreast(r: Recording, v: Live, es: seq<Event>, i: nat)
    requires i <= |es| && Bracketed(es) && TokensNotEmpty(es) && Abreast(r, v)
    requires i > 0 && es[i - 1].ToolUse? ==> r.asst == ""
    ensures Abreast(RecordAll(r, es[i..]), OnEvents(v, es[i..]))
    decreases |es| - i
  {
    if i < |es| {
      assert es[i..][1..] == es[i + 1..];
      StepAbreast(r, v, es[i]);
      AllAbreast(Record(r, es[i]), OnEvent(v, es[i]), es, i + 1);
    }
  }

  /** The live view of a finished run shows the stored lines, bubble for line, with an
      error that has no text shown as "error". */
  lemma ShownAsStored(es: seq<Event>)
    requires Finished(es)
    ensures ShowsAll(OnEvents(BLANK, es).messages, RecordAll(NOTHING, es).stored) && OnEvents(BLANK, es).open == None
  {
    assert es[0..] == es;
    AllAbreast(NOTHING, BLANK, es, 0);
    RecordDone(NOTHING, es);
  }

  /** A chat opened again shows each line with its text. */
  lemma ReopenedAsStored(ls: seq<Line>, k: nat)
    requires k < |ls|
    ensures |ReopenAll(ls)| == |ls|
    ensures var b := ReopenAll(ls)[k];
      b.role == ls[k].role && b.text == ls[k].text && (ls[k].role != ErrorRole || b.text != "" ==> ShowsLine(b, ls[k]))
  {
  }
}
