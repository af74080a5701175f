/** Tidying said of texts alone: what becomes of one line, of two texts put one below
    the other, and of a blank line between them. */
module ScreenLaws {
  import opened Common
  import opened Screen
  import opened Text

  /** The tidied lines of a list. */
  function Lines(lines: seq<string>): seq<string> { Layout(Paragraphs(Trimmed(lines))) }

  lemma SplitAppend(a: string, b: string)
    ensures Split(a + "\n" + b, '\n') == Split(a, '\n') + Split(b, '\n')
  {
    var x, y := Split(a, '\n'), Split(b, '\n');
    JoinSplit(a, '\n');
    JoinSplit(b, '\n');
    SplitIsFree(a, '\n');
    SplitIsFree(b, '\n');
    hide Split, Join;
    JoinAppend(x, y);
    assert Free(x + y, '\n');
    SplitJoin(x + y, '\n');
  }

  lemma {:induction false} JoinAppend(x: seq<string>, y: seq<string>)
    requires x != [] && y != []
    ensures Join(x + y, '\n') == Join(x, '\n') + "\n" + Join(y, '\n')
  {
    if |x| == 1 {
      assert (x + y)[1..] == y && (x + y)[0] == x[0];
    } else {
      JoinAppend(x[1..], y);
      assert (x + y)[1..] == x[1..] + y && (x + y)[0] == x[0];
      assert x[0] + "\n" + (Join(x[1..], '\n') + "\n" + Join(y, '\n'))
          == (x[0] + "\n" + Join(x[1..], '\n')) + "\n" + Join(y, '\n');
    }
  }

  // ---- Paragraphs ----

  lemma OneLineMore(lines: seq<string>, l: string)
    ensures var p := Paragraphs(lines);
      && (lines != [] && Last(lines) != "" ==> p != [])
      && Paragraphs(lines + [l]) ==
         if l == "" then p
         else if lines != [] && Last(lines) != "" then Init(p) + [Last(p) + [l]]
         else p + [[l]]
  {
    assert Init(lines + [l]) == lines;
  }

  lemma {:induction false} ParagraphsApart(a: seq<string>, b: seq<string>)
    ensures Paragraphs(a + [""] + b) == Paragraphs(a) + Paragraphs(b)
  {
    hide Paragraphs;
    NoParagraph();
    OneLineMore(a, "");
    if b == [] {
      assert a + [""] + b == a + [""] && Paragraphs(a) + [] == Paragraphs(a);
    } else {
      var front, l := Init(b), Last(b);
      var upto := a + [""] + front;
      assert upto + [l] == a + [""] + b && front + [l] == b;
      ParagraphsApart(a, front);
      OneLineMore(upto, l);
      OneLineMore(front, l);
      assert Last(upto) == if front == [] then "" else Last(front);
      AppendInside(Paragraphs(a), Paragraphs(front), l);
    }
  }

  lemma NoParagraph()
    ensures Paragraphs([]) == []
  {
  }

  lemma AppendInside(p: seq<seq<string>>, q: seq<seq<string>>, l: string)
    ensures (p + q) + [[l]] == p + (q + [[l]])
    ensures q != [] ==> Init(p + q) + [Last(p + q) + [l]] == p + (Init(q) + [Last(q) + [l]])
  {
  }

  /** Two runs that meet become one paragraph. */
  lemma {:induction false} ParagraphsMeet(a: seq<string>, b: seq<string>)
    requires a != [] && Last(a) != "" && b != [] && b[0] != ""
    ensures var p, q := Paragraphs(a), Paragraphs(b);
      p != [] && q != [] && Paragraphs(a + b) == Init(p) + [Last(p) + q[0]] + q[1..]
  {
    hide Paragraphs;
    var p := Paragraphs(a);
    var front, l := Init(b), Last(b);
    assert front + [l] == b && (a + front) + [l] == a + b;
    OneLineMore(Init(a), Last(a));
    assert Init(a) + [Last(a)] == a;
    OneLineMore(front, l);
    OneLineMore(a + front, l);
    if front == [] {
      NoParagraph();
      assert a + front == a;
    } else {
      ParagraphsMeet(a, front);
      assert Last(a + front) == Last(front);
      Meet(p, Paragraphs(front), l);
    }
  }

  lemma Meet(p: seq<seq<string>>, q: seq<seq<string>>, l: string)
    requires p != [] && q != []
    ensures var m := Init(p) + [Last(p) + q[0]] + q[1..]; var r := Init(q) + [Last(q) + [l]]; var s := q + [[l]];
      && Init(m) + [Last(m) + [l]] == Init(p) + [Last(p) + r[0]] + r[1..]
      && m + [[l]] == Init(p) + [Last(p) + s[0]] + s[1..]
  {
    if |q| == 1 {
      assert Last(p) + (q[0] + [l]) == (Last(p) + q[0]) + [l];
    }
  }

  lemma {:induction false} LayoutApart(p: seq<seq<string>>, q: seq<seq<string>>)
    requires p != [] && q != []
    ensures Layout(p + q) == Layout(p) + [""] + Layout(q)
  {
    var all := p + q;
    if |q| == 1 {
      assert Init(all) == p && Last(all) == q[0];
    } else {
      LayoutApart(p, Init(q));
      assert Init(all) == p + Init(q) && Last(all) == Last(q);
      assert Layout(p) + [""] + (Layout(Init(q)) + [""] + Last(q))
          == (Layout(p) + [""] + Layout(Init(q))) + [""] + Last(q);
    }
  }

  lemma {:induction false} LayoutMeets(p: seq<seq<string>>, q: seq<seq<string>>)
    requires p != [] && q != []
    ensures Layout(Init(p) + [Last(p) + q[0]] + q[1..]) == Layout(p) + Layout(q)
  {
    var all := Init(p) + [Last(p) + q[0]] + q[1..];
    if |q| == 1 {
      assert Init(all) == Init(p) && Last(all) == Last(p) + q[0];
      if |p| > 1 {
        assert Layout(Init(p)) + [""] + (Last(p) + q[0]) == (Layout(Init(p)) + [""] + Last(p)) + q[0];
      }
    } else {
      LayoutMeets(p, Init(q));
      assert Init(all) == Init(p) + [Last(p) + Init(q)[0]] + Init(q)[1..] && Last(all) == Last(q);
      assert Layout(p) + (Layout(Init(q)) + [""] + Last(q)) == Layout(p) + Layout(Init(q)) + [""] + Last(q);
    }
  }

  // ---- Lines ----

  lemma TrimmedAppend(a: seq<string>, b: seq<string>)
    ensures Trimmed(a + b) == Trimmed(a) + Trimmed(b)
  {
  }

  /** Only spaces and tabs, or nothing. */
  ghost predicate BlankLine(l: string) { forall c :: c in l ==> c == ' ' || c == '\t' }

  lemma TrimBlank(l: string)
    ensures TrimEnd(l) == "" <==> BlankLine(l)
  {
    if BlankLine(l) {
      assert forall k :: 0 <= k < |l| ==> l[k] in l;
    } else if TrimEnd(l) == "" {
      assert forall k :: 0 <= k < |l| ==> IsBlank(l[k]);
    }
  }

  lemma LinesApart(a: seq<string>, t: string, b: seq<string>)
    requires BlankLine(t)
    ensures var x, y := Lines(a), Lines(b);
      Lines(a + [t] + b) == if x == [] then y else if y == [] then x else x + [""] + y
  {
    TrimBlank(t);
    TrimmedAppend(a + [t], b);
    TrimmedAppend(a, [t]);
    assert Trimmed([t]) == [""];
    var p, q := Paragraphs(Trimmed(a)), Paragraphs(Trimmed(b));
    ParagraphsApart(Trimmed(a), Trimmed(b));
    LaidOut(p);
    LaidOut(q);
    hide Paragraphs, Layout, Trimmed;
    if p == [] {
      assert p + q == q;
    } else if q == [] {
      assert p + q == p;
    } else {
      LayoutApart(p, q);
    }
  }

  lemma LaidOut(p: seq<seq<string>>)
    requires Proper(p)
    ensures Layout(p) == [] <==> p == []
    ensures p != [] ==> Layout(p)[0] != ""
  {
    if p != [] {
      LayoutIsNeat(p);
    }
  }

  lemma LinesMeet(a: seq<string>, b: seq<string>)
    requires a != [] && b != [] && !BlankLine(Last(a)) && !BlankLine(b[0])
    ensures Lines(a + b) == Lines(a) + Lines(b)
  {
    TrimBlank(Last(a));
    TrimBlank(b[0]);
    TrimmedAppend(a, b);
    assert Last(Trimmed(a)) == TrimEnd(Last(a)) && Trimmed(b)[0] == TrimEnd(b[0]);
    ParagraphsMeet(Trimmed(a), Trimmed(b));
    LayoutMeets(Paragraphs(Trimmed(a)), Paragraphs(Trimmed(b)));
  }

  // ---- Texts ----

  lemma TidyIs(s: string)
    ensures Tidy(s) == Join(Lines(Split(s, '\n')), '\n')
    ensures Tidy(s) == "" <==> Lines(Split(s, '\n')) == []
  {
    var ps := Paragraphs(Trimmed(Split(s, '\n')));
    LaidOut(ps);
  }

  /** A single line loses the spaces and tabs at its end. */
  lemma TidyLine(l: string)
    requires '\n' !in l
    ensures var t := Tidy(l);
      && t <= l && (t == "" || (Last(t) != ' ' && Last(t) != '\t'))
      && forall k :: |t| <= k < |l| ==> l[k] == ' ' || l[k] == '\t'
  {
    SplitFirst(l, "", '\n');
    assert Trimmed([l]) == [TrimEnd(l)] && Init([TrimEnd(l)]) == [];
    LayoutOne(TrimEnd(l));
    assert [] + [[TrimEnd(l)]] == [[TrimEnd(l)]];
  }

  /** Texts that meet in lines that are not blank are tidied one below the other. */
  lemma TidyMeets(a: string, b: string)
    requires !BlankLine(Last(Split(a, '\n'))) && !BlankLine(Split(b, '\n')[0])
    ensures Tidy(a + "\n" + b) == Tidy(a) + "\n" + Tidy(b)
  {
    var x, y := Split(a, '\n'), Split(b, '\n');
    SplitAppend(a, b);
    TidyIs(a);
    TidyIs(b);
    TidyIs(a + "\n" + b);
    SomeLines(x, |x| - 1);
    SomeLines(y, 0);
    hide Lines, Split, Join, BlankLine;
    LinesMeet(x, y);
    JoinAppend(Lines(x), Lines(y));
  }

  lemma SomeLines(x: seq<string>, k: nat)
    requires k < |x| && !BlankLine(x[k])
    ensures Lines(x) != []
  {
    TrimBlank(x[k]);
    LayoutKeeps(Trimmed(x));
    SomeNonblank(Trimmed(x), k);
    assert Nonblank([]) == [];
  }

  lemma {:induction false} SomeNonblank(lines: seq<string>, k: nat)
    requires k < |lines| && lines[k] != ""
    ensures Nonblank(lines) != []
  {
    if k < |lines| - 1 {
      SomeNonblank(Init(lines), k);
    }
  }

  /** Blank lines between two texts come down to one empty line, and to none where
      there is nothing on one side. */
  lemma TidyApart(a: string, t: string, b: string)
    requires BlankLine(t)
    ensures Tidy(a + "\n" + t + "\n" + b)
         == if Tidy(a) == "" then Tidy(b) else if Tidy(b) == "" then Tidy(a) else Tidy(a) + "\n" + "\n" + Tidy(b)
    ensures Tidy(t + "\n" + b) == Tidy(b) && Tidy(a + "\n" + t) == Tidy(a)
  {
    hide *;
    var x, y := Split(a, '\n'), Split(b, '\n');
    SplitApart(a, t, b);
    TidyIs(a);
    TidyIs(b);
    TidyIs(a + "\n" + t + "\n" + b);
    TidyIs(t + "\n" + b);
    TidyIs(a + "\n" + t);
    NoLines();
    LinesApart(x, t, y);
    LinesApart([], t, y);
    LinesApart(x, t, []);
    assert [] + [t] + y == [t] + y && x + [t] + [] == x + [t];
    JoinApart(Lines(x), Lines(y));
  }

  lemma SplitApart(a: string, t: string, b: string)
    requires BlankLine(t)
    ensures var x, y := Split(a, '\n'), Split(b, '\n');
      && Split(a + "\n" + t + "\n" + b, '\n') == x + [t] + y
      && Split(t + "\n" + b, '\n') == [t] + y && Split(a + "\n" + t, '\n') == x + [t]
  {
    assert '\n' !in t;
    hide *;
    SplitLine(a, t, b);
    Regroup(a, t, b);
    SplitAppend(a, t + "\n" + b);
    SameParts(Split(a, '\n'), [t], Split(b, '\n'));
  }

  lemma SplitLine(a: string, t: string, b: string)
    requires '\n' !in t
    ensures Split(t + "\n" + b, '\n') == [t] + Split(b, '\n') && Split(a + "\n" + t, '\n') == Split(a, '\n') + [t]
  {
    hide *;
    SplitFirst(t, "", '\n');
    SplitAppend(t, b);
    SplitAppend(a, t);
  }

  lemma SameParts(x: seq<string>, y: seq<string>, z: seq<string>)
    ensures x + (y + z) == x + y + z
  {
  }

  lemma Regroup(a: string, t: string, b: string)
    ensures a + "\n" + t + "\n" + b == a + "\n" + (t + "\n" + b)
  {
  }

  lemma JoinApart(u: seq<string>, v: seq<string>)
    ensures u != [] && v != [] ==>
              Join(u + [""] + v, '\n') == Join(u, '\n') + "\n" + "\n" + Join(v, '\n')
  {
    if u != [] && v != [] {
      assert u + [""] + v == u + ([""] + v);
      JoinEmpty();
      hide Join;
      JoinAppend(u, [""] + v);
      JoinAppend([""], v);
      var x, y := Join(u, '\n'), Join(v, '\n');
      assert x + "\n" + ("" + "\n" + y) == x + "\n" + "\n" + y;
    }
  }

  lemma NoLines()
    ensures Lines([]) == []
  {
    assert Trimmed([]) == [];
  }

  lemma JoinEmpty()
    ensures Join([""], '\n') == ""
  {
  }
}
