/** Tidying a captured screen. The daemon and the browser each have their own
    version; both lay the screen's paragraphs out with one blank line between. */
module Screen {
  import opened Common
  import opened Text

  // ---- Lines ----

  predicate IsBlank(c: char) { c == ' ' || c == '\t' }

  /** The line without the spaces and tabs at its end. */
  function TrimEnd(l: string): (t: string)
    ensures |t| <= |l| && t == l[..|t|]
    ensures t == "" || !IsBlank(t[|t| - 1])
    ensures forall k :: |t| <= k < |l| ==> IsBlank(l[k])
  {
    if l != "" && IsBlank(l[|l| - 1]) then TrimEnd(l[..|l| - 1]) else l
  }

  function Trimmed(lines: seq<string>): seq<string> {
    seq(|lines|, i requires 0 <= i < |lines| => TrimEnd(lines[i]))
  }

  /** The lines that are not blank, in order. */
  function Nonblank(lines: seq<string>): seq<string> {
    if lines == [] then []
    else Nonblank(Init(lines)) + if Last(lines) == "" then [] else [Last(lines)]
  }

  // ---- Paragraphs ----

  /** The maximal runs of lines that are not blank. */
  function Paragraphs(lines: seq<string>): (ps: seq<seq<string>>)
    ensures Proper(ps)
    ensures lines != [] && Last(lines) != "" ==> ps != []
  {
    if lines == [] then []
    else
      var ps, l := Paragraphs(Init(lines)), Last(lines);
      if l == "" then ps
      else if Init(lines) != [] && Last(Init(lines)) != "" then Init(ps) + [Last(ps) + [l]]
      else ps + [[l]]
  }

  /** Paragraphs one blank line apart. */
  function Layout(ps: seq<seq<string>>): seq<string> {
    if ps == [] then []
    else if |ps| == 1 then ps[0]
    else Layout(Init(ps)) + [""] + Last(ps)
  }

  /** Every paragraph has a line and none of its lines is blank. */
  predicate Proper(ps: seq<seq<string>>) {
    forall k :: 0 <= k < |ps| ==> ps[k] != [] && "" !in ps[k]
  }

  /** What a tidied screen is: its paragraphs, one blank line apart. */
  function Tidy(s: string): string {
    Join(Layout(Paragraphs(Trimmed(Split(s, '\n')))), '\n')
  }

  /** No blank first or last line, no two blank lines together. */
  predicate Neat(lines: seq<string>) {
    && lines != [] && lines[0] != "" && Last(lines) != ""
    && Spaced(lines)
  }

  predicate Spaced(lines: seq<string>) {
    forall k :: 0 < k < |lines| ==> lines[k - 1] != "" || lines[k] != ""
  }

  /** Nothing at the end of any line. */
  predicate RightTrimmed(lines: seq<string>) {
    forall k :: 0 <= k < |lines| ==> lines[k] == "" || !IsBlank(Last(lines[k]))
  }

  // ---- One line more ----

  /** The layout of the lines so far, with the blank line that may follow. */
  function SoFar(lines: seq<string>): seq<string> {
    Layout(Paragraphs(lines)) + if lines != [] && Last(lines) == "" then [""] else []
  }

  lemma LayoutGrows(ps: seq<seq<string>>, l: string)
    requires Proper(ps)
    ensures ps != [] ==> Layout(Init(ps) + [Last(ps) + [l]]) == Layout(ps) + [l]
    ensures ps != [] ==> Layout(ps + [[l]]) == Layout(ps) + [""] + [l]
  {
    if ps != [] {
      var grown, more := Init(ps) + [Last(ps) + [l]], ps + [[l]];
      assert Init(grown) == Init(ps) && Init(more) == ps;
    }
  }

  lemma {:induction false} SomeParagraph(lines: seq<string>)
    requires lines != [] && lines[0] != ""
    ensures Paragraphs(lines) != []
  {
    if |lines| > 1 {
      SomeParagraph(Init(lines));
    }
  }

  /** One line more, after a first line that is not blank: a second blank line
      changes nothing and any other line is added at the end. */
  lemma OneMore(lines: seq<string>, l: string)
    requires lines == [] ==> l != ""
    requires lines != [] ==> lines[0] != ""
    ensures SoFar(lines + [l])
         == if lines != [] && Last(lines) == "" && l == "" then SoFar(lines) else SoFar(lines) + [l]
  {
    hide Layout;
    var more := lines + [l];
    var ps := Paragraphs(lines);
    if lines != [] {
      SomeParagraph(lines);
      LayoutGrows(ps, l);
    } else {
      LayoutOne(l);
      assert ps + [[l]] == [[l]] && [] + [l] == [l];
    }
    var so, to := Layout(ps), Layout(Paragraphs(more));
    assert so + [] == so && to + [] == to;
    assert l == "" ==> to == so;
    assert l != "" ==> to == if lines != [] && Last(lines) == "" then so + [""] + [l] else so + [l];
  }

  lemma LayoutOne(l: string)
    ensures Layout([]) == [] && Layout([[l]]) == [l] && Paragraphs([]) == []
  {}

  // ---- Blank lines at the ends ----

  lemma {:induction false} BlankFirst(lines: seq<string>)
    ensures Paragraphs([""] + lines) == Paragraphs(lines)
  {
    var more := [""] + lines;
    if lines == [] {
      assert Init(more) == [];
    } else {
      assert Init(more) == [""] + Init(lines) && Last(more) == Last(lines);
      BlankFirst(Init(lines));
    }
  }

  /** Dropping blank lines at both ends leaves the paragraphs. */
  lemma DropBlanks(lines: seq<string>, start: nat, end: nat)
    requires start <= end <= |lines|
    requires forall k :: 0 <= k < start || end <= k < |lines| ==> lines[k] == ""
    ensures Paragraphs(lines[start..end]) == Paragraphs(lines)
  {
    hide Paragraphs;
    DropFront(lines, start);
    DropBack(lines[start..], end - start);
    assert lines[start..][..end - start] == lines[start..end];
  }

  lemma {:induction false} DropFront(lines: seq<string>, n: nat)
    requires n <= |lines| && forall k :: 0 <= k < n ==> lines[k] == ""
    ensures Paragraphs(lines[n..]) == Paragraphs(lines)
  {
    if n == 0 {
      assert lines[0..] == lines;
    } else {
      assert lines == [""] + lines[1..] && lines[1..][n - 1..] == lines[n..];
      BlankFirst(lines[1..]);
      DropFront(lines[1..], n - 1);
    }
  }

  lemma {:induction false} DropBack(lines: seq<string>, n: nat)
    requires n <= |lines| && forall k :: n <= k < |lines| ==> lines[k] == ""
    ensures Paragraphs(lines[..n]) == Paragraphs(lines)
  {
    if n == |lines| {
      assert lines[..n] == lines;
    } else {
      assert Init(lines)[..n] == lines[..n];
      DropBack(Init(lines), n);
    }
  }

  // ---- The laid out screen is neat and has the same paragraphs ----

  lemma {:induction false} LayoutIsNeat(ps: seq<seq<string>>)
    requires Proper(ps) && ps != []
    ensures Neat(Layout(ps)) && Last(Layout(ps)) == Last(Last(ps))
  {
    if |ps| > 1 {
      LayoutIsNeat(Init(ps));
      var front, p := Layout(Init(ps)), Last(ps);
      var all := Layout(ps);
      assert all == front + [""] + p;
      forall k | 0 < k < |all| ensures all[k - 1] != "" || all[k] != "" {
        if k > |front| {
          assert all[k] == p[k - |front| - 1] && p[k - |front| - 1] in p;
        }
      }
    } else {
      assert ps[0][0] in ps[0] && Last(ps[0]) in ps[0];
    }
  }

  /** Neat lines are the layout of their paragraphs. */
  lemma {:induction false} NeatIsLaidOut(lines: seq<string>)
    requires lines != [] ==> lines[0] != "" && Spaced(lines)
    ensures SoFar(lines) == lines
  {
    if lines != [] {
      var front := Init(lines);
      NeatIsLaidOut(front);
      assert front + [Last(lines)] == lines;
      OneMore(front, Last(lines));
    }
  }

  lemma {:induction false} LineFromScreen(lines: seq<string>, l: string)
    requires l in Layout(Paragraphs(lines))
    ensures l == "" || l in lines
    decreases lines
  {
    if lines != [] {
      var front := Init(lines);
      var ps := Paragraphs(front);
      if Last(lines) == "" {
        LineFromScreen(front, l);
      } else {
        if ps != [] {
          LayoutGrows(ps, Last(lines));
        }
        assert lines == front + [Last(lines)];
        if l != "" && l != Last(lines) {
          assert l in Layout(ps);
          LineFromScreen(front, l);
        }
      }
    }
  }

  /** The lines a tidied screen has. */
  lemma TidyLines(s: string)
    ensures var o := Layout(Paragraphs(Trimmed(Split(s, '\n'))));
            if o == [] then Tidy(s) == "" else Neat(o) && RightTrimmed(o) && Split(Tidy(s), '\n') == o
  {
    var lines := Trimmed(Split(s, '\n'));
    var ps := Paragraphs(lines);
    var o := Layout(ps);
    if ps != [] {
      LayoutIsNeat(ps);
      forall k | 0 <= k < |o| ensures (o[k] == "" || !IsBlank(Last(o[k]))) && '\n' !in o[k] {
        LineFromScreen(lines, o[k]);
        SplitIsFree(s, '\n');
      }
      SplitJoin(o, '\n');
    }
  }

  // ---- The properties of a tidied screen ----

  lemma TrimmedFixed(lines: seq<string>)
    requires RightTrimmed(lines)
    ensures Trimmed(lines) == lines
  {
    forall k | 0 <= k < |lines| ensures TrimEnd(lines[k]) == lines[k] {
      assert lines[k] == "" || !IsBlank(Last(lines[k]));
    }
  }

  lemma NeatIsTidy(s: string)
    requires Neat(Split(s, '\n')) && RightTrimmed(Split(s, '\n'))
    ensures Tidy(s) == s
  {
    hide Paragraphs, Layout, TrimEnd;
    var lines := Split(s, '\n');
    TrimmedFixed(lines);
    NeatIsLaidOut(lines);
    Whole(lines);
    JoinSplit(s, '\n');
  }

  lemma EmptyIsTidy()
    ensures Tidy("") == ""
  {
    assert Trimmed([""]) == [""];
    assert Init([""]) == [];
  }

  /** A screen is left alone exactly when it is empty or neat and right-trimmed. */
  lemma FixedIff(s: string)
    ensures Tidy(s) == s <==> s == "" || (Neat(Split(s, '\n')) && RightTrimmed(Split(s, '\n')))
  {
    hide *;
    EmptyIsTidy();
    TidyLines(s);
    if Neat(Split(s, '\n')) && RightTrimmed(Split(s, '\n')) {
      NeatIsTidy(s);
    }
  }

  /** Tidying twice is tidying once. */
  lemma Idempotent(s: string)
    ensures Tidy(Tidy(s)) == Tidy(s)
  {
    TidyLines(s);
    FixedIff(Tidy(s));
  }

  /** Laying out keeps the lines that are not blank. */
  lemma {:induction false} LayoutKeeps(lines: seq<string>)
    ensures Nonblank(Layout(Paragraphs(lines))) == Nonblank(lines)
  {
    if lines != [] {
      var front, l := Init(lines), Last(lines);
      LayoutKeeps(front);
      var ps := Paragraphs(front);
      if l != "" {
        LayoutGrows(ps, l);
        assert Init([l]) == [] && Init([""]) == [];
      }
    }
  }

  /** Nothing but blanks is lost: the right-trimmed lines that are not blank are the
      same, in the same order. */
  lemma KeepsLines(s: string)
    ensures Nonblank(Split(Tidy(s), '\n')) == Nonblank(Trimmed(Split(s, '\n')))
  {
    LayoutKeeps(Trimmed(Split(s, '\n')));
    TidyLines(s);
    assert Init([""]) == [];
  }

  // ---- The two versions ----

  /** The daemon's version, on a slice of lines it rewrites in place. */
  method NormalizeScreen(s: string) returns (r: string)
    ensures r == Tidy(s)
  {
    hide Paragraphs, Layout, SoFar, Split, Join, TrimEnd;
    var parts := Split(s, '\n');
    var lines := new string[|parts|](i requires 0 <= i < |parts| => parts[i]);
    for i := 0 to lines.Length
      invariant forall k :: 0 <= k < i ==> lines[k] == TrimEnd(parts[k])
      invariant forall k :: i <= k < lines.Length ==> lines[k] == parts[k]
    {
      lines[i] := TrimEnd(lines[i]);
    }
    assert lines[..] == Trimmed(parts);
    var start := 0;
    while start < lines.Length && lines[start] == ""
      invariant start <= lines.Length && forall k :: 0 <= k < start ==> lines[k] == ""
    {
      start := start + 1;
    }
    var end := lines.Length;
    while end > start && lines[end - 1] == ""
      invariant start <= end <= lines.Length && forall k :: end <= k < lines.Length ==> lines[k] == ""
    {
      end := end - 1;
    }
    DropBlanks(lines[..], start, end);
    var body := lines[start..end];
    assert body == lines[..][start..end];
    var out := Collapse(body);
    return Join(out, '\n');
  }

  /** The loop both versions share: a second blank line in a row is left out. */
  method Collapse(body: seq<string>) returns (out: seq<string>)
    requires body != [] ==> body[0] != "" && Last(body) != ""
    ensures out == Layout(Paragraphs(body))
  {
    hide Paragraphs, Layout, SoFar;
    out := [];
    var blank := 0;
    Whole(body);
    for i := 0 to |body|
      invariant out == SoFar(body[..i])
      invariant blank >= 0 && (blank > 0 <==> i > 0 && body[i - 1] == "")
    {
      var l := body[i];
      OneMore(body[..i], l);
      assert body[..i] + [l] == body[..i + 1];
      if l == "" {
        blank := blank + 1;
        if blank > 1 {
          continue;
        }
      } else {
        blank := 0;
      }
      out := out + [l];
    }
    assert body[..|body|] == body;
  }

  lemma Whole(body: seq<string>)
    requires body != [] ==> Last(body) != ""
    ensures SoFar([]) == [] && SoFar(body) == Layout(Paragraphs(body))
  {}

  /** The browser's version, shifting and popping a list. */
  method TidyMultiline(v: string) returns (r: string)
    ensures r == Tidy(v)
  {
    hide Paragraphs, Layout, SoFar, Split, Join, TrimEnd;
    var lines := Trimmed(Split(v, '\n'));
    ghost var all, a, b := lines, 0, |lines|;
    assert all[0..|all|] == lines;
    while |lines| > 0 && lines[0] == ""
      invariant 0 <= a <= b == |all| && lines == all[a..b]
      invariant forall k :: 0 <= k < a ==> all[k] == ""
      decreases |lines|
    {
      assert lines[1..] == all[a + 1..b];
      lines := lines[1..];
      a := a + 1;
    }
    while |lines| > 0 && lines[|lines| - 1] == ""
      invariant 0 <= a <= b <= |all| && lines == all[a..b]
      invariant lines != [] ==> lines[0] != ""
      invariant forall k :: 0 <= k < a || b <= k < |all| ==> all[k] == ""
      decreases |lines|
    {
      assert lines[..|lines| - 1] == all[a..b - 1];
      lines := lines[..|lines| - 1];
      b := b - 1;
    }
    DropBlanks(all, a, b);
    var out := Collapse(lines);
    return Join(out, '\n');
  }
}
