/** Splitting a text on a separator character and joining it again. */
module Text {

  /** strings.Split / String.split on a one-character separator: never empty. */
  function Split(s: string, sep: char): (parts: seq<string>)
    ensures |parts| >= 1
  {
    if s == "" then [""]
    else
      var rest := Split(s[1..], sep);
      if s[0] == sep then [""] + rest else [[s[0]] + rest[0]] + rest[1..]
  }

  function Join(parts: seq<string>, sep: char): string {
    if parts == [] then ""
    else if |parts| == 1 then parts[0]
    else parts[0] + [sep] + Join(parts[1..], sep)
  }

  /** No part contains the separator. */
  ghost predicate Free(parts: seq<string>, sep: char) {
    forall k :: 0 <= k < |parts| ==> sep !in parts[k]
  }

  lemma {:induction false} SplitIsFree(s: string, sep: char)
    ensures Free(Split(s, sep), sep)
  {
    if s != "" {
      SplitIsFree(s[1..], sep);
    }
  }

  lemma {:induction false} JoinSplit(s: string, sep: char)
    ensures Join(Split(s, sep), sep) == s
  {
    if s != "" {
      JoinSplit(s[1..], sep);
      var rest := Split(s[1..], sep);
      if s[0] == sep {
        assert ([""] + rest)[1..] == rest;
      } else {
      }
    }
  }

  /** A separator-free part followed by a separator is the first part. */
  lemma {:induction false} SplitFirst(p: string, s: string, sep: char)
    requires sep !in p
    ensures Split(p + [sep] + s, sep) == [p] + Split(s, sep)
    ensures Split(p, sep) == [p]
  {
    if p == "" {
      assert (p + [sep] + s)[1..] == s;
    } else {
      var rest := p[1..];
      SplitFirst(rest, s, sep);
      assert p[0] in p && p[0] != sep;
      assert [p[0]] + rest == p;
      assert (p + [sep] + s)[1..] == rest + [sep] + s;
      assert ([rest] + Split(s, sep))[1..] == Split(s, sep);
    }
  }

  lemma {:induction false} SplitJoin(parts: seq<string>, sep: char)
    requires parts != [] && Free(parts, sep)
    ensures Split(Join(parts, sep), sep) == parts
  {
    if |parts| == 1 {
      SplitFirst(parts[0], "", sep);
    } else {
      SplitJoin(parts[1..], sep);
      SplitFirst(parts[0], Join(parts[1..], sep), sep);
    }
  }

  // ---- White space ----

  /** Unicode white space. */
  predicate IsSpace(c: char) {
    || '\t' <= c <= '\r' || c == ' ' || c == '\U{85}' || c == '\U{A0}' || c == '\U{1680}'
    || '\U{2000}' <= c <= '\U{200A}' || c == '\U{2028}' || c == '\U{2029}' || c == '\U{202F}'
    || c == '\U{205F}' || c == '\U{3000}'
  }

  function TrimLeftSpace(s: string): (t: string)
    ensures |t| <= |s| && (t != "" ==> !IsSpace(t[0]))
  {
    if s != "" && IsSpace(s[0]) then TrimLeftSpace(s[1..]) else s
  }

  function TrimRightSpace(s: string): string {
    if s != "" && IsSpace(s[|s| - 1]) then TrimRightSpace(s[..|s| - 1]) else s
  }

  function TrimSpace(s: string): string { TrimRightSpace(TrimLeftSpace(s)) }

  lemma {:induction false} TrimmedLeft(s: string) returns (i: nat)
    ensures i <= |s| && TrimLeftSpace(s) == s[i..]
    ensures (forall k :: 0 <= k < i ==> IsSpace(s[k])) && (i < |s| ==> !IsSpace(s[i]))
  {
    if s != "" && IsSpace(s[0]) {
      i := TrimmedLeft(s[1..]);
      i := i + 1;
    } else {
      i := 0;
    }
  }

  lemma {:induction false} TrimmedRight(s: string) returns (j: nat)
    ensures j <= |s| && TrimRightSpace(s) == s[..j]
    ensures (forall k :: j <= k < |s| ==> IsSpace(s[k])) && (j > 0 ==> !IsSpace(s[j - 1]))
  {
    if s != "" && IsSpace(s[|s| - 1]) {
      j := TrimmedRight(s[..|s| - 1]);
    } else {
      j := |s|;
    }
  }

  /** Trimming takes the white space at both ends and nothing else. */
  lemma TrimsEnds(s: string) returns (i: nat, j: nat)
    ensures i <= j <= |s| && TrimSpace(s) == s[i..j]
    ensures forall k :: 0 <= k < i || j <= k < |s| ==> IsSpace(s[k])
    ensures i < j ==> !IsSpace(s[i]) && !IsSpace(s[j - 1])
  {
    i := TrimmedLeft(s);
    var n := TrimmedRight(s[i..]);
    j := i + n;
    assert s[i..][..n] == s[i..j];
    assert forall k :: j <= k < |s| ==> s[k] == s[i..][k - i];
  }

  /** The maximal runs without white space. */
  function Fields(s: string): (fs: seq<string>)
    decreases |s|
  {
    var t := TrimLeftSpace(s);
    if t == "" then []
    else
      var n := WordLength(t);
      [t[..n]] + Fields(t[n..])
  }

  function WordLength(s: string): (n: nat)
    ensures n <= |s|
    ensures s != "" && !IsSpace(s[0]) ==> n >= 1
  {
    if s == "" || IsSpace(s[0]) then 0 else 1 + WordLength(s[1..])
  }

  /** Words: not empty, without white space. */
  ghost predicate Words(ws: seq<string>) {
    forall k :: 0 <= k < |ws| ==> ws[k] != "" && forall c :: c in ws[k] ==> !IsSpace(c)
  }

  lemma {:induction false} WordEnds(w: string, rest: string)
    requires forall c :: c in w ==> !IsSpace(c)
    requires rest == "" || IsSpace(rest[0])
    ensures WordLength(w + rest) == |w|
  {
    if w == "" {
      assert w + rest == rest;
    } else {
      assert w[0] in w && (w + rest)[1..] == w[1..] + rest;
      WordEnds(w[1..], rest);
    }
  }

  lemma FieldsOfWord(w: string, rest: string)
    requires w != "" && forall c :: c in w ==> !IsSpace(c)
    requires rest == "" || IsSpace(rest[0])
    ensures Fields(w + rest) == [w] + Fields(rest)
  {
    assert w[0] in w;
    WordEnds(w, rest);
    assert (w + rest)[..|w|] == w && (w + rest)[|w|..] == rest;
  }

  /** Words joined by spaces are the fields again. */
  lemma {:induction false} FieldsJoin(ws: seq<string>)
    requires Words(ws)
    ensures Fields(Join(ws, ' ')) == ws
  {
    if ws != [] {
      var rest := if |ws| == 1 then "" else [' '] + Join(ws[1..], ' ');
      assert Join(ws, ' ') == ws[0] + rest;
      FieldsOfWord(ws[0], rest);
      FieldsJoin(ws[1..]);
      if |ws| > 1 {
      }
    }
  }

  ghost predicate Blank(s: string) { forall c :: c in s ==> IsSpace(c) }

  lemma {:induction false} SkipBlank(gap: string, s: string)
    requires Blank(gap)
    ensures TrimLeftSpace(gap + s) == TrimLeftSpace(s) && Fields(gap + s) == Fields(s)
  {
    if gap == "" {
      assert gap + s == s;
    } else {
      assert gap[0] in gap && (gap + s)[1..] == gap[1..] + s;
      SkipBlank(gap[1..], s);
    }
  }

  ghost predicate Word(w: string) { w != "" && forall c :: c in w ==> !IsSpace(c) }

  /** White space, a word, and the rest, which starts with white space if at all. */
  lemma FirstWord(a: string) returns (skip: string, w: string, rest: string)
    ensures a == skip + w + rest && Blank(skip)
    ensures if w == "" then rest == "" else Word(w) && (rest == "" || IsSpace(rest[0]))
  {
    var i := TrimmedLeft(a);
    skip := a[..i];
    var t := a[i..];
    if t == "" {
      w, rest := "", "";
    } else {
      WordIs(t);
      w, rest := t[..WordLength(t)], t[WordLength(t)..];
    }
  }

  lemma FieldsFrom(skip: string, w: string, rest: string)
    requires Blank(skip) && Word(w) && (rest == "" || IsSpace(rest[0]))
    ensures Fields(skip + (w + rest)) == [w] + Fields(rest)
  {
    SkipBlank(skip, w + rest);
    FieldsOfWord(w, rest);
  }

  lemma NoFields(gap: string)
    requires Blank(gap)
    ensures Fields(gap) == []
  {
    SkipBlank(gap, "");
    assert gap + "" == gap;
  }

  lemma OneField(w: string)
    requires Word(w)
    ensures Fields(w) == [w]
  {
    FieldsFrom("", w, "");
    assert "" + (w + "") == w && Fields("") == [];
  }

  /** Any white space parts the fields on its left from those on its right; a word is a
      field, and white space alone has none. */
  lemma FieldsLaw(a: string, gap: string, b: string)
    requires gap != "" && Blank(gap)
    ensures Fields(a + gap + b) == Fields(a) + Fields(b)
    ensures Fields(gap) == [] && (Word(a) ==> Fields(a) == [a])
  {
    NoFields(gap);
    if Word(a) {
      OneField(a);
    }
    FieldsApart(a, gap, b);
  }

  lemma {:induction false} FieldsApart(a: string, gap: string, b: string)
    requires gap != "" && Blank(gap)
    ensures Fields(a + gap + b) == Fields(a) + Fields(b)
    decreases |a|
  {
    var skip, w, rest := FirstWord(a);
    Regroup(skip, w, rest, gap, b);
    hide Fields, IsSpace, Blank, Word;
    if w == "" {
      NoFields(skip);
      SkipBlank(skip + gap, b);
    } else {
      FieldsApart(rest, gap, b);
      WordApart(skip, w, rest, rest + gap + b, Fields(b));
    }
  }

  lemma WordApart(skip: string, w: string, rest: string, more: string, right: seq<string>)
    requires Blank(skip) && Word(w) && (rest == "" || IsSpace(rest[0])) && more != "" && IsSpace(more[0])
    requires Fields(more) == Fields(rest) + right
    ensures Fields(skip + (w + more)) == Fields(skip + (w + rest)) + right
  {
    hide *;
    FieldsFrom(skip, w, rest);
    FieldsFrom(skip, w, more);
    var left := Fields(rest);
    assert [w] + (left + right) == ([w] + left) + right;
  }

  lemma Regroup(skip: string, w: string, rest: string, gap: string, b: string)
    requires gap != "" && Blank(gap) && Blank(skip)
    ensures skip + w + rest == skip + (w + rest) && Blank(skip + gap)
    ensures skip + w + rest + gap + b == skip + (w + (rest + gap + b))
    ensures w == "" && rest == "" ==> skip + w + rest == skip
    ensures rest == "" || IsSpace(rest[0]) ==> IsSpace((rest + gap + b)[0])
    ensures Word(w) ==> |rest| < |skip + w + rest|
  {
    assert gap[0] in gap;
  }

  lemma {:induction false} WordIs(s: string)
    requires s != "" && !IsSpace(s[0])
    ensures var n := WordLength(s);
      && 1 <= n <= |s| && (forall c :: c in s[..n] ==> !IsSpace(c)) && (n < |s| ==> IsSpace(s[n]))
  {
    if |s| > 1 && !IsSpace(s[1]) {
      WordIs(s[1..]);
      var n := WordLength(s);
      assert s[..n] == [s[0]] + s[1..][..n - 1];
    } else {
      assert |s| > 1 ==> s[1..][0] == s[1];
      assert WordLength(s[1..]) == 0;
    }
  }
}
