/** The "Changes" tab's line diff: a longest-common-subsequence table filled
    backwards, then walked greedily. */
module LineDiff {
  import opened Text

  datatype Tag = Same | Removed | Added
  datatype Entry = Entry(t: Tag, text: string)

  /** The lines of a diff that do not carry the tag. */
  function Without(es: seq<Entry>, drop: Tag): seq<string> {
    if es == [] then []
    else if es[0].t == drop then Without(es[1..], drop)
    else [es[0].text] + Without(es[1..], drop)
  }

  /** What a diff says the first text was. */
  function Left(es: seq<Entry>): seq<string> { Without(es, Added) }

  /** What a diff says the second text was. */
  function Right(es: seq<Entry>): seq<string> { Without(es, Removed) }

  /** The lines a diff keeps. */
  function Kept(es: seq<Entry>): seq<string> {
    if es == [] then []
    else if es[0].t == Same then [es[0].text] + Kept(es[1..])
    else Kept(es[1..])
  }

  /** The number of added and removed lines. */
  function Changes(es: seq<Entry>): nat {
    if es == [] then 0 else (if es[0].t == Same then 0 else 1) + Changes(es[1..])
  }

  /** The table's recurrence. */
  function Lcs(a: seq<string>, b: seq<string>, i: nat, j: nat): nat
    requires i <= |a| && j <= |b|
    decreases |a| - i + |b| - j
  {
    if i == |a| || j == |b| then 0
    else if a[i] == b[j] then Lcs(a, b, i + 1, j + 1) + 1
    else
      var down, right := Lcs(a, b, i + 1, j), Lcs(a, b, i, j + 1);
      if down >= right then down else right
  }

  // ---- Common subsequences, independently of the table ----

  /** f lists, in increasing order and from position lo on, where s sits in t. */
  ghost predicate Embeds(s: seq<string>, t: seq<string>, f: seq<nat>, lo: nat) {
    && |f| == |s|
    && (forall k :: 0 <= k < |f| ==> lo <= f[k] < |t| && t[f[k]] == s[k])
    && (forall k, l :: 0 <= k < l < |f| ==> f[k] < f[l])
  }

  ghost predicate Subsequence(s: seq<string>, t: seq<string>) {
    exists f: seq<nat> :: Embeds(s, t, f, 0)
  }

  lemma {:induction false} LcsBound(a: seq<string>, b: seq<string>, i: nat, j: nat,
                                    s: seq<string>, f: seq<nat>, g: seq<nat>)
    requires i <= |a| && j <= |b|
    requires Embeds(s, a, f, i) && Embeds(s, b, g, j)
    ensures |s| <= Lcs(a, b, i, j)
    decreases |a| - i + |b| - j
  {
    if s == [] {
      return;
    }
    assert i <= f[0] < |a| && j <= g[0] < |b| && a[f[0]] == s[0] == b[g[0]];
    if a[i] == b[j] {
      forall k | 1 <= k < |f| ensures f[k] > f[0] && g[k] > g[0] {}
      LcsBound(a, b, i + 1, j + 1, s[1..], f[1..], g[1..]);
    } else if f[0] > i {
      LcsBound(a, b, i + 1, j, s, f, g);
    } else {
      LcsBound(a, b, i, j + 1, s, f, g);
    }
  }

  /** Every table entry fits: it is at most the shorter remaining side. */
  lemma {:induction false} LcsAtMost(a: seq<string>, b: seq<string>, i: nat, j: nat)
    requires i <= |a| && j <= |b|
    ensures Lcs(a, b, i, j) <= |a| - i && Lcs(a, b, i, j) <= |b| - j
    decreases |a| - i + |b| - j
  {
    if i < |a| && j < |b| {
      LcsAtMost(a, b, i + 1, j + 1);
      LcsAtMost(a, b, i + 1, j);
      LcsAtMost(a, b, i, j + 1);
    }
  }

  /** Dropping one line of either side costs the table at most one. */
  lemma {:induction false} LcsSteps(a: seq<string>, b: seq<string>, i: nat, j: nat)
    requires i <= |a| && j <= |b|
    ensures i < |a| ==> Lcs(a, b, i + 1, j) <= Lcs(a, b, i, j) <= Lcs(a, b, i + 1, j) + 1
    ensures j < |b| ==> Lcs(a, b, i, j + 1) <= Lcs(a, b, i, j) <= Lcs(a, b, i, j + 1) + 1
    decreases |a| - i + |b| - j
  {
    if i < |a| && j < |b| {
      LcsSteps(a, b, i + 1, j);
      LcsSteps(a, b, i, j + 1);
    }
  }

  // ---- Any script's kept lines are a common subsequence of its two sides ----

  /** Where, counting from a position, the kept lines sit among the lines not tagged drop. */
  function KeptAt(es: seq<Entry>, drop: Tag, from: nat): (f: seq<nat>) {
    if es == [] then []
    else if es[0].t == Same then [from] + KeptAt(es[1..], drop, from + 1)
    else KeptAt(es[1..], drop, if es[0].t == drop then from else from + 1)
  }

  lemma {:induction false} KeptEmbeds(es: seq<Entry>, drop: Tag, pre: seq<string>)
    requires drop != Same
    ensures Embeds(Kept(es), pre + Without(es, drop), KeptAt(es, drop, |pre|), |pre|)
  {
    if es != [] {
      var e, rest := es[0], es[1..];
      if e.t == drop {
        KeptEmbeds(rest, drop, pre);
      } else {
        KeptEmbeds(rest, drop, pre + [e.text]);
        assert pre + Without(es, drop) == pre + [e.text] + Without(rest, drop);
        if e.t == Same {
        }
      }
    }
  }

  lemma KeptIsCommon(es: seq<Entry>)
    ensures Subsequence(Kept(es), Left(es)) && Subsequence(Kept(es), Right(es))
  {
    KeptEmbeds(es, Added, []);
    KeptEmbeds(es, Removed, []);
    assert [] + Left(es) == Left(es) && [] + Right(es) == Right(es);
  }

  lemma {:induction false} ChangesCount(es: seq<Entry>)
    ensures Changes(es) + 2 * |Kept(es)| == |Left(es)| + |Right(es)|
  {
    if es != [] {
      ChangesCount(es[1..]);
    }
  }

  // ---- Appending one entry ----

  lemma {:induction false} Appended(es: seq<Entry>, e: Entry)
    ensures Left(es + [e]) == Left(es) + (if e.t == Added then [] else [e.text])
    ensures Right(es + [e]) == Right(es) + (if e.t == Removed then [] else [e.text])
    ensures Kept(es + [e]) == Kept(es) + (if e.t == Same then [e.text] else [])
  {
    if es == [] {
      assert es + [e] == [e];
    } else {
      Appended(es[1..], e);
      assert (es + [e])[1..] == es[1..] + [e];
    }
  }

  // ---- Which of the shortest scripts it is ----

  /** The script from line i of the first text and line j of the second on: a common
      line is kept; else the first text's line goes if that costs no common line. */
  function Script(a: seq<string>, b: seq<string>, i: nat, j: nat): seq<Entry>
    requires i <= |a| && j <= |b|
    decreases |a| - i + |b| - j
  {
    if i == |a| && j == |b| then []
    else if i < |a| && j < |b| && a[i] == b[j] then [Entry(Same, a[i])] + Script(a, b, i + 1, j + 1)
    else if i < |a| && (j == |b| || Lcs(a, b, i + 1, j) >= Lcs(a, b, i, j + 1)) then
      [Entry(Removed, a[i])] + Script(a, b, i + 1, j)
    else [Entry(Added, b[j])] + Script(a, b, i, j + 1)
  }

  function Rank(t: Tag): nat {
    match t
    case Same => 0
    case Removed => 1
    case Added => 2
  }

  /** Where the two first differ, s keeps the line or else removes one. */
  ghost predicate ComesFirst(s: seq<Entry>, t: seq<Entry>) {
    exists k :: 0 <= k < |s| && k < |t| && s[..k] == t[..k] && Rank(s[k].t) < Rank(t[k].t)
  }

  lemma KeptBound(rest: seq<Entry>, a: seq<string>, b: seq<string>, i: nat, j: nat)
    requires i <= |a| && j <= |b| && Left(rest) == a[i..] && Right(rest) == b[j..]
    ensures |Kept(rest)| <= Lcs(a, b, i, j)
  {
    KeptEmbeds(rest, Added, a[..i]);
    KeptEmbeds(rest, Removed, b[..j]);
    assert a[..i] + a[i..] == a && b[..j] + b[j..] == b;
    LcsBound(a, b, i, j, Kept(rest), KeptAt(rest, Added, i), KeptAt(rest, Removed, j));
  }

  lemma {:induction false} ScriptFirst(a: seq<string>, b: seq<string>, i: nat, j: nat, t: seq<Entry>)
    requires i <= |a| && j <= |b| && Left(t) == a[i..] && Right(t) == b[j..] && |Kept(t)| == Lcs(a, b, i, j)
    ensures t == Script(a, b, i, j) || ComesFirst(Script(a, b, i, j), t)
    decreases |t|
  {
    if t != [] {
      var s, e, rest := Script(a, b, i, j), t[0], t[1..];
      assert e.t != Added ==> i < |a| && e.text == a[i] && Left(rest) == a[i + 1..];
      assert e.t != Removed ==> j < |b| && e.text == b[j] && Right(rest) == b[j + 1..];
      if Rank(s[0].t) < Rank(e.t) {
        assert s[..0] == t[..0];
      } else {
        if e.t == Removed {
          KeptBound(rest, a, b, i + 1, j);
          LcsSteps(a, b, i, j);
        }
        assert s[0] == e;
        var u, v := if e.t == Added then i else i + 1, if e.t == Removed then j else j + 1;
        assert s[1..] == Script(a, b, u, v);
        ScriptFirst(a, b, u, v, rest);
        FirstAfter(s, t);
      }
    }
  }

  lemma FirstAfter(s: seq<Entry>, t: seq<Entry>)
    requires s != [] && t != [] && s[0] == t[0] && (t[1..] == s[1..] || ComesFirst(s[1..], t[1..]))
    ensures t == s || ComesFirst(s, t)
  {
    assert s == [s[0]] + s[1..] && t == [t[0]] + t[1..];
    if t[1..] != s[1..] {
      var x, y := s[1..], t[1..];
      var k :| 0 <= k < |x| && k < |y| && x[..k] == y[..k] && Rank(x[k].t) < Rank(y[k].t);
      assert s[..k + 1] == [s[0]] + x[..k] && t[..k + 1] == [t[0]] + y[..k];
    }
  }

  /** Among all scripts that change as few lines it is the first: where another one
      first differs from it, it keeps a line that the other does not, or removes one
      where the other adds one. */
  lemma FirstOfShortest(out: seq<Entry>, other: seq<Entry>)
    requires out == Script(Left(out), Right(out), 0, 0) && |Kept(out)| == Lcs(Left(out), Right(out), 0, 0)
    requires Left(other) == Left(out) && Right(other) == Right(out) && Changes(other) == Changes(out)
    ensures other == out || ComesFirst(out, other)
  {
    ChangesCount(out);
    ChangesCount(other);
    assert Left(out)[0..] == Left(out) && Right(out)[0..] == Right(out);
    ScriptFirst(Left(out), Right(out), 0, 0, other);
  }

  /** The diff of two texts: it can be read back as either of them, no common
      subsequence is longer than what it keeps, and no other edit script between
      the two changes fewer lines. */
  method Diff(aText: string, bText: string) returns (out: seq<Entry>)
    ensures Left(out) == Split(aText, '\n') && Right(out) == Split(bText, '\n')
    ensures |Kept(out)| == Lcs(Split(aText, '\n'), Split(bText, '\n'), 0, 0)
    ensures forall s :: Subsequence(s, Left(out)) && Subsequence(s, Right(out)) ==> |s| <= |Kept(out)|
    ensures forall other :: Left(other) == Left(out) && Right(other) == Right(out) ==> Changes(out) <= Changes(other)
    ensures RemovedFirst(out)
    ensures forall other :: Left(other) == Left(out) && Right(other) == Right(out) && Changes(other) == Changes(out) ==>
              other == out || ComesFirst(out, other)
  {
    var a, b := Split(aText, '\n'), Split(bText, '\n');
    var dp := Table(a, b);
    out := Walk(a, b, dp);
    Longest(a, b, out);
    forall other | Left(other) == a && Right(other) == b
      ensures Changes(out) <= Changes(other)
    {
      Minimal(out, other);
    }
    forall other | Left(other) == a && Right(other) == b && Changes(other) == Changes(out)
      ensures other == out || ComesFirst(out, other)
    {
      FirstOfShortest(out, other);
    }
  }

  /** Between two kept lines all removed lines come before all added ones. */
  ghost predicate RemovedFirst(es: seq<Entry>) {
    forall k :: 0 < k < |es| && es[k - 1].t == Added ==> es[k].t != Removed
  }

  /** The walk's invariant: the first i and j lines are accounted for, what is
      kept plus what the table still promises is the table's first entry, and
      after an added line the table needs the next line of the first text. */
  ghost predicate Walked(out: seq<Entry>, a: seq<string>, b: seq<string>, i: nat, j: nat) {
    && i <= |a| && j <= |b|
    && Left(out) == a[..i] && Right(out) == b[..j]
    && |Kept(out)| + Lcs(a, b, i, j) == Lcs(a, b, 0, 0)
    && RemovedFirst(out) && out + Script(a, b, i, j) == Script(a, b, 0, 0)
    && (out != [] && out[|out| - 1].t == Added && i < |a| ==> Lcs(a, b, i + 1, j) < Lcs(a, b, i, j))
  }

  lemma OneOn(out: seq<Entry>, e: Entry, rest: seq<Entry>)
    ensures (out + [e]) + rest == out + ([e] + rest)
  {
  }

  lemma WalkSame(out: seq<Entry>, a: seq<string>, b: seq<string>, i: nat, j: nat)
    requires Walked(out, a, b, i, j) && i < |a| && j < |b| && a[i] == b[j]
    ensures Walked(out + [Entry(Same, a[i])], a, b, i + 1, j + 1)
  {
    Appended(out, Entry(Same, a[i]));
    OneOn(out, Entry(Same, a[i]), Script(a, b, i + 1, j + 1));
  }

  lemma WalkRemoved(out: seq<Entry>, a: seq<string>, b: seq<string>, i: nat, j: nat)
    requires Walked(out, a, b, i, j) && i < |a|
    requires j < |b| ==> a[i] != b[j] && Lcs(a, b, i + 1, j) >= Lcs(a, b, i, j + 1)
    ensures Walked(out + [Entry(Removed, a[i])], a, b, i + 1, j)
  {
    Appended(out, Entry(Removed, a[i]));
    OneOn(out, Entry(Removed, a[i]), Script(a, b, i + 1, j));
  }

  lemma WalkAdded(out: seq<Entry>, a: seq<string>, b: seq<string>, i: nat, j: nat)
    requires Walked(out, a, b, i, j) && j < |b|
    requires i < |a| ==> a[i] != b[j] && Lcs(a, b, i + 1, j) < Lcs(a, b, i, j + 1)
    ensures Walked(out + [Entry(Added, b[j])], a, b, i, j + 1)
  {
    if i < |a| {
      LcsSteps(a, b, i + 1, j);
    }
    Appended(out, Entry(Added, b[j]));
    OneOn(out, Entry(Added, b[j]), Script(a, b, i, j + 1));
  }

  lemma Finished(out: seq<Entry>, a: seq<string>, b: seq<string>)
    requires Walked(out, a, b, |a|, |b|)
    ensures Left(out) == a && Right(out) == b && |Kept(out)| == Lcs(a, b, 0, 0)
    ensures RemovedFirst(out) && out == Script(a, b, 0, 0)
  {
    assert a[..|a|] == a && b[..|b|] == b && out + [] == out;
  }

  lemma Unwalked(a: seq<string>, b: seq<string>)
    ensures Walked([], a, b, 0, 0)
  {
    assert [] + Script(a, b, 0, 0) == Script(a, b, 0, 0);
  }

  /** The greedy walk over a filled table, then the rest of either side. */
  method Walk(a: seq<string>, b: seq<string>, dp: array2<int>) returns (out: seq<Entry>)
    requires dp.Length0 == |a| + 1 && dp.Length1 == |b| + 1
    requires forall i, j {:trigger dp[i, j]} :: 0 <= i <= |a| && 0 <= j <= |b| ==> dp[i, j] == Lcs(a, b, i, j)
    ensures Left(out) == a && Right(out) == b && |Kept(out)| == Lcs(a, b, 0, 0)
    ensures RemovedFirst(out) && out == Script(a, b, 0, 0)
  {
    hide Walked, Script, RemovedFirst;
    var n, m := |a|, |b|;
    out := [];
    Unwalked(a, b);
    var i, j := 0, 0;
    while i < n && j < m
      invariant 0 <= i <= n && 0 <= j <= m && Walked(out, a, b, i, j)
    {
      if a[i] == b[j] {
        WalkSame(out, a, b, i, j);
        out, i, j := out + [Entry(Same, a[i])], i + 1, j + 1;
      } else if dp[i + 1, j] >= dp[i, j + 1] {
        WalkRemoved(out, a, b, i, j);
        out, i := out + [Entry(Removed, a[i])], i + 1;
      } else {
        WalkAdded(out, a, b, i, j);
        out, j := out + [Entry(Added, b[j])], j + 1;
      }
    }
    while i < n
      invariant 0 <= i <= n && 0 <= j <= m && (i == n || j == m) && Walked(out, a, b, i, j)
    {
      WalkRemoved(out, a, b, i, j);
      out, i := out + [Entry(Removed, a[i])], i + 1;
    }
    while j < m
      invariant 0 <= j <= m && Walked(out, a, b, n, j)
    {
      WalkAdded(out, a, b, n, j);
      out, j := out + [Entry(Added, b[j])], j + 1;
    }
    Finished(out, a, b);
  }

  /** The table, filled from the last line of both texts backwards. */
  method Table(a: seq<string>, b: seq<string>) returns (dp: array2<int>)
    ensures dp.Length0 == |a| + 1 && dp.Length1 == |b| + 1
    ensures forall i, j {:trigger dp[i, j]} :: 0 <= i <= |a| && 0 <= j <= |b| ==> dp[i, j] == Lcs(a, b, i, j)
  {
    var n, m := |a|, |b|;
    dp := new int[n + 1, m + 1]((i, j) => 0);
    for i := n downto 0
      invariant forall k, l {:trigger dp[k, l]} :: 0 <= k <= n && 0 <= l <= m && (k >= i || l == m) ==>
                  dp[k, l] == Lcs(a, b, k, l)
    {
      for j := m downto 0
        invariant forall k, l {:trigger dp[k, l]} ::
                    0 <= k <= n && 0 <= l <= m && (k > i || l == m || (k == i && l >= j)) ==>
                      dp[k, l] == Lcs(a, b, k, l)
      {
        var best := if a[i] == b[j] then dp[i + 1, j + 1] + 1
                    else if dp[i + 1, j] >= dp[i, j + 1] then dp[i + 1, j] else dp[i, j + 1];
        assert best == Lcs(a, b, i, j);
        dp[i, j] := best;
      }
    }
  }

  // ---- What a diff guarantees ----

  /** The two texts can be read back from a diff of them. */
  lemma Faithful(out: seq<Entry>, aText: string, bText: string)
    requires Left(out) == Split(aText, '\n') && Right(out) == Split(bText, '\n')
    ensures Join(Left(out), '\n') == aText && Join(Right(out), '\n') == bText
  {
    JoinSplit(aText, '\n');
    JoinSplit(bText, '\n');
  }

  /** dp[0][0] is the length of a longest common subsequence: none is longer,
      and the lines a diff of that size keeps are one. */
  lemma Longest(a: seq<string>, b: seq<string>, out: seq<Entry>)
    requires Left(out) == a && Right(out) == b && |Kept(out)| == Lcs(a, b, 0, 0)
    ensures Subsequence(Kept(out), a) && Subsequence(Kept(out), b)
    ensures forall s :: Subsequence(s, a) && Subsequence(s, b) ==> |s| <= |Kept(out)|
  {
    KeptIsCommon(out);
    forall s | Subsequence(s, a) && Subsequence(s, b)
      ensures |s| <= |Kept(out)|
    {
      var f: seq<nat> :| Embeds(s, a, f, 0);
      var g: seq<nat> :| Embeds(s, b, g, 0);
      LcsBound(a, b, 0, 0, s, f, g);
    }
  }

  /** No edit script between the same two texts changes fewer lines. */
  lemma Minimal(out: seq<Entry>, other: seq<Entry>)
    requires Left(other) == Left(out) && Right(other) == Right(out)
    requires |Kept(out)| == Lcs(Left(out), Right(out), 0, 0)
    ensures Changes(out) <= Changes(other)
  {
    Longest(Left(out), Right(out), out);
    KeptIsCommon(other);
    ChangesCount(out);
    ChangesCount(other);
  }
}
