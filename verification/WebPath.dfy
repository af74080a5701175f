/** Asset paths: the storage key a write normalises to, and the lexical cleaning
    a request goes through. */
module WebPath {
  import opened Common
  import opened Text

  function ForwardSlashes(s: string): string {
    seq(|s|, i requires 0 <= i < |s| => if s[i] == '\\' then '/' else s[i])
  }

  function TrimLeftSlashes(s: string): string {
    if s != "" && s[0] == '/' then TrimLeftSlashes(s[1..]) else s
  }

  /** The segments that name something. */
  function Named(segs: seq<string>): seq<string> {
    if segs == [] then []
    else
      var n := |segs| - 1;
      if segs[n] == "" || segs[n] == "." then Named(segs[..n]) else Named(segs[..n]) + [segs[n]]
  }

  /** The segments of a path as it is written, before anything is dropped. */
  function Written(p: string): seq<string> {
    Split(TrimLeftSlashes(ForwardSlashes(TrimSpace(p))), '/')
  }

  /** The storage key of a path; none for a traversal or an empty result. */
  function Normalize(p: string): Option<string> {
    if ".." in Written(p) || Named(Written(p)) == [] then None
    else Some(Join(Named(Written(p)), '/'))
  }

  // ---- What a normalised path is ----

  /** No empty, '.' or '..' segment, and at least one. */
  ghost predicate ProperSegs(segs: seq<string>) {
    && segs != [] && Free(segs, '/')
    && forall k :: 0 <= k < |segs| ==> segs[k] != "" && segs[k] != "." && segs[k] != ".."
  }

  ghost predicate Proper(path: string) {
    ProperSegs(Split(path, '/'))
  }

  lemma {:induction false} NamedFacts(segs: seq<string>)
    ensures forall x :: x in Named(segs) <==> x in segs && x != "" && x != "."
  {
    if segs != [] {
      var n := |segs| - 1;
      NamedFacts(segs[..n]);
      assert segs == segs[..n] + [segs[n]];
    }
  }

  /** Segments that name something are kept in order, one by one. */
  lemma {:induction false} NamedLaw(a: seq<string>, b: seq<string>, x: string)
    ensures Named([]) == [] && Named(a + b) == Named(a) + Named(b)
    ensures Named([x]) == if x == "" || x == "." then [] else [x]
  {
    assert [x][..0] == [];
    if b == [] {
      assert a + b == a;
    } else {
      var n := |b| - 1;
      NamedLaw(a, b[..n], x);
      assert (a + b)[..|a + b| - 1] == a + b[..n];
    }
  }

  lemma {:induction false} SlashesOff(s: string) returns (n: nat)
    ensures n <= |s| && s[n..] == TrimLeftSlashes(s)
    ensures (forall k :: 0 <= k < n ==> s[k] == '/') && (n < |s| ==> s[n] != '/')
  {
    if s != "" && s[0] == '/' {
      n := SlashesOff(s[1..]);
      n := n + 1;
    } else {
      n := 0;
    }
  }

  /** What is written is the path between white space, with forward slashes, after its
      leading slashes: the characters from i on, up to but not including j. */
  lemma WrittenIs(p: string) returns (i: nat, j: nat, n: nat)
    ensures i <= n <= j <= |p|
    ensures forall k :: 0 <= k < i || j <= k < |p| ==> IsSpace(p[k])
    ensures i < j ==> !IsSpace(p[i]) && !IsSpace(p[j - 1])
    ensures (forall k :: i <= k < n ==> p[k] == '/' || p[k] == '\\') && (n < j ==> p[n] != '/' && p[n] != '\\')
    ensures |Join(Written(p), '/')| == j - n
    ensures forall k :: n <= k < j ==> Join(Written(p), '/')[k - n] == if p[k] == '\\' then '/' else p[k]
    ensures Free(Written(p), '/')
  {
    i, j := TrimsEnds(p);
    var q := ForwardSlashes(p[i..j]);
    var m := SlashesOff(q);
    n := i + m;
    JoinSplit(q[m..], '/');
    SplitIsFree(q[m..], '/');
    forall k | i <= k < n ensures p[k] == '/' || p[k] == '\\' {
      assert q[k - i] == '/';
    }
    assert n < j ==> q[m] == if p[n] == '\\' then '/' else p[n];
  }

  /** A path is accepted exactly when it names something and has no '..' segment,
      and then its key is proper. */
  lemma NormalizeProper(p: string)
    ensures Normalize(p).Some? <==>
              ".." !in Written(p) && exists x :: x in Written(p) && x != "" && x != "."
    ensures Normalize(p).Some? ==>
              Proper(Normalize(p).value) && Split(Normalize(p).value, '/') == Named(Written(p))
  {
    var segs := Written(p);
    NamedFacts(segs);
    SplitIsFree(TrimLeftSlashes(ForwardSlashes(TrimSpace(p))), '/');
    if Named(segs) != [] {
      assert Named(segs)[0] in Named(segs);
      assert forall k :: 0 <= k < |Named(segs)| ==> Named(segs)[k] in Named(segs);
      SplitJoin(Named(segs), '/');
    }
  }

  // ---- When a key normalises to itself ----

  lemma {:induction false} SplitChars(s: string, sep: char, k: nat, c: char)
    requires k < |Split(s, sep)| && c in Split(s, sep)[k]
    ensures c in s
  {
    if s != "" {
      var rest := Split(s[1..], sep);
      if s[0] == sep {
        if k > 0 { SplitChars(s[1..], sep, k - 1, c); }
      } else if k == 0 && c == s[0] {
      } else {
        SplitChars(s[1..], sep, k, c);
      }
    }
  }

  lemma {:induction false} SlashesAreSuffix(s: string)
    ensures forall c :: c in TrimLeftSlashes(s) ==> c in s
  {
    if s != "" && s[0] == '/' {
      SlashesAreSuffix(s[1..]);
    }
  }

  lemma {:induction false} JoinNoChar(parts: seq<string>, sep: char, c: char)
    requires c != sep && forall k :: 0 <= k < |parts| ==> c !in parts[k]
    ensures c !in Join(parts, sep)
  {
    if |parts| > 1 {
      JoinNoChar(parts[1..], sep, c);
    }
  }

  /** A key holds no backslash. */
  lemma KeyNoBackslash(p: string)
    requires Normalize(p).Some?
    ensures '\\' !in Normalize(p).value
  {
    var q := ForwardSlashes(TrimSpace(p));
    var t := TrimLeftSlashes(q);
    SlashesAreSuffix(q);
    var segs := Written(p);
    NamedFacts(segs);
    forall k | 0 <= k < |Named(segs)|
      ensures '\\' !in Named(segs)[k]
    {
      assert Named(segs)[k] in Named(segs);
      var l :| 0 <= l < |segs| && segs[l] == Named(segs)[k];
      if '\\' in segs[l] {
        SplitChars(t, '/', l, '\\');
        assert false;
      }
    }
    JoinNoChar(Named(segs), '/', '\\');
  }

  /** Dropping segments never makes the path longer. */
  lemma {:induction false} JoinLength(parts: seq<string>, last: string, sep: char)
    ensures |Join(parts + [last], sep)| == (if parts == [] then |last| else |Join(parts, sep)| + 1 + |last|)
  {
    if parts == [] {
      assert parts + [last] == [last];
    } else {
      JoinLength(parts[1..], last, sep);
      assert (parts + [last])[1..] == parts[1..] + [last];
    }
  }

  lemma {:induction false} NamedShorter(segs: seq<string>)
    ensures |Join(Named(segs), '/')| <= |Join(segs, '/')|
  {
    if segs != [] {
      var n := |segs| - 1;
      NamedShorter(segs[..n]);
      JoinLength(segs[..n], segs[n], '/');
      assert segs[..n] + [segs[n]] == segs;
      JoinLength(Named(segs[..n]), segs[n], '/');
      if segs[..n] == [] {
        assert Named(segs[..n]) == [];
      }
    }
  }

  lemma {:induction false} TrimShorter(s: string)
    ensures |TrimLeftSpace(s)| <= |s| && |TrimRightSpace(s)| <= |s| && |TrimLeftSlashes(s)| <= |s|
    ensures s != "" && IsSpace(s[0]) ==> |TrimLeftSpace(s)| < |s|
    ensures s != "" && IsSpace(s[|s| - 1]) ==> |TrimRightSpace(s)| < |s|
    decreases |s|
  {
    if s != "" {
      TrimShorter(s[1..]);
      TrimShorter(s[..|s| - 1]);
    }
  }

  lemma NoLeadingSlash(k: string)
    requires Proper(k) && k != ""
    ensures k[0] != '/'
  {
    assert Split(k, '/')[0] != "";
  }

  /** A proper path without backslash that neither starts nor ends with white space
      is its own key; one that does is not. */
  lemma OwnKey(k: string)
    requires Proper(k) && '\\' !in k
    ensures k != ""
    ensures Normalize(k) == Some(k) <==> !IsSpace(k[0]) && !IsSpace(k[|k| - 1])
  {
    ProperIsFixed(k);
    var q := TrimSpace(k);
    if !IsSpace(k[0]) && !IsSpace(k[|k| - 1]) {
      assert q == k && ForwardSlashes(k) == k;
      NoLeadingSlash(k);
      ProperNamed(Split(k, '/'));
      JoinSplit(k, '/');
    } else if Normalize(k).Some? {
      TrimShorter(k);
      TrimShorter(TrimLeftSpace(k));
      TrimShorter(ForwardSlashes(q));
      assert |q| < |k| by {
        if !IsSpace(k[0]) { assert TrimLeftSpace(k) == k; }
      }
      NamedShorter(Written(k));
      JoinSplit(TrimLeftSlashes(ForwardSlashes(q)), '/');
    }
  }

  lemma {:induction false} ProperNamed(segs: seq<string>)
    requires forall k :: 0 <= k < |segs| ==> segs[k] != "" && segs[k] != "."
    ensures Named(segs) == segs
  {
    if segs != [] {
      ProperNamed(segs[..|segs| - 1]);
    }
  }

  /** Normalising twice gives the same key exactly when the first key neither
      starts nor ends with white space. */
  lemma IdempotentIff(p: string)
    requires Normalize(p).Some?
    ensures var k := Normalize(p).value;
      k != "" && (Normalize(k) == Some(k) <==> !IsSpace(k[0]) && !IsSpace(k[|k| - 1]))
  {
    NormalizeProper(p);
    KeyNoBackslash(p);
    OwnKey(Normalize(p).value);
  }

  /** A leading slash keeps white space from being trimmed: "/" before a proper
      path that ends in no white space gives that path as its key. */
  lemma SlashShields(k: string)
    requires Proper(k) && '\\' !in k && k != "" && !IsSpace(k[|k| - 1])
    ensures Normalize("/" + k) == Some(k)
  {
    var p := "/" + k;
    assert TrimSpace(p) == p && ForwardSlashes(p) == p;
    assert p[1..] == k;
    NoLeadingSlash(k);
    assert TrimLeftSlashes(p) == k;
    ProperNamed(Split(k, '/'));
    JoinSplit(k, '/');
  }

  /** So normalising twice can differ from normalising once. */
  lemma NotIdempotent()
    ensures Normalize("/" + " a") == Some(" a") && Normalize(" a") != Some(" a")
  {
    var k := " a";
    SplitFirst(k, "", '/');
    assert k[0] == ' ' && k[1] == 'a';
    assert Proper(k) && '\\' !in k;
    hide *;
    SlashShields(k);
    OwnKey(k);
  }

  /** The loop over the segments. */
  method NormalizeWebPath(p: string) returns (r: Option<string>)
    ensures r == Normalize(p)
  {
    var q := TrimLeftSlashes(ForwardSlashes(TrimSpace(p)));
    if q == "" {
      assert Split(q, '/')[..0] == [];
      assert Named([""]) == Named([""][..0]);
      return None;
    }
    var parts := Split(q, '/');
    var out: seq<string> := [];
    for i := 0 to |parts|
      invariant ".." !in parts[..i] && out == Named(parts[..i])
    {
      var seg := parts[i];
      assert parts[..i + 1][..i] == parts[..i];
      if seg == "" || seg == "." {
        continue;
      }
      if seg == ".." {
        return None;
      }
      out := out + [seg];
    }
    assert parts[..|parts|] == parts;
    if |out| == 0 {
      return None;
    }
    r := Some(Join(out, '/'));
  }

  // ---- The cleaning of a request ----

  /** One segment more: '..' drops the segment before it, if any. */
  function Onto(before: seq<string>, seg: string): seq<string> {
    if seg == "" || seg == "." then before
    else if seg == ".." then (if before == [] then [] else before[..|before| - 1])
    else before + [seg]
  }

  /** Lexical cleaning of a rooted path. */
  function CleanSegs(segs: seq<string>): seq<string> {
    if segs == [] then [] else Onto(CleanSegs(segs[..|segs| - 1]), segs[|segs| - 1])
  }

  /** The request path cleaned as a rooted path, without its leading slash. */
  function CleanRooted(name: string): string {
    Join(CleanSegs(Split(name, '/')), '/')
  }

  lemma {:induction false} CleanFacts(segs: seq<string>)
    requires Free(segs, '/')
    ensures var c := CleanSegs(segs);
      Free(c, '/') && forall k :: 0 <= k < |c| ==> c[k] != "" && c[k] != "." && c[k] != ".."
  {
    if segs != [] {
      CleanFacts(segs[..|segs| - 1]);
    }
  }

  lemma {:induction false} CleanFixed(segs: seq<string>)
    requires forall k :: 0 <= k < |segs| ==> segs[k] != "" && segs[k] != "." && segs[k] != ".."
    ensures CleanSegs(segs) == segs
  {
    if segs != [] {
      CleanFixed(segs[..|segs| - 1]);
    }
  }

  lemma CleanSnoc(segs: seq<string>, seg: string)
    ensures CleanSegs(segs + [seg]) == Onto(CleanSegs(segs), seg)
  {
    assert (segs + [seg])[..|segs|] == segs;
  }

  lemma {:induction false} CleanSame(a: seq<string>, c: seq<string>, b: seq<string>)
    requires CleanSegs(a) == CleanSegs(c)
    ensures CleanSegs(a + b) == CleanSegs(c + b)
  {
    hide CleanSegs, Onto;
    if b == [] {
      assert a + b == a && c + b == c;
    } else {
      var n := |b| - 1;
      CleanSame(a, c, b[..n]);
      assert a + b == (a + b[..n]) + [b[n]] && c + b == (c + b[..n]) + [b[n]];
      CleanSnoc(a + b[..n], b[n]);
      CleanSnoc(c + b[..n], b[n]);
    }
  }

  /** How a path is cleaned, wherever in it: empty and '.' segments go, '..' takes the
      named segment before it along, and at the front it just goes. */
  lemma CleanLaw(a: seq<string>, x: string, b: seq<string>)
    requires x != "" && x != "." && x != ".."
    ensures CleanSegs(a + [""] + b) == CleanSegs(a + ["."] + b) == CleanSegs(a + [x, ".."] + b) == CleanSegs(a + b)
    ensures CleanSegs([".."] + b) == CleanSegs(b)
  {
    CleanPair(a, x);
    assert [] + b == b;
    hide CleanSegs;
    CleanSame(a + [""], a, b);
    CleanSame(a + ["."], a, b);
    CleanSame(a + [x, ".."], a, b);
    CleanSame([".."], [], b);
  }

  lemma CleanPair(a: seq<string>, x: string)
    requires x != "" && x != "." && x != ".."
    ensures CleanSegs(a + [""]) == CleanSegs(a + ["."]) == CleanSegs(a + [x, ".."]) == CleanSegs(a)
    ensures CleanSegs([".."]) == CleanSegs([]) == []
  {
    NothingClean();
    hide CleanSegs;
    CleanSnoc(a, "");
    CleanSnoc(a, ".");
    CleanSnoc(a, x);
    CleanSnoc(a + [x], "..");
    assert a + [x] + [".."] == a + [x, ".."];
    CleanSnoc([], "..");
    assert [] + [".."] == [".."];
  }

  lemma NothingClean()
    ensures CleanSegs([]) == []
  {
  }

  /** Cleaning leaves a proper path, or nothing at all. */
  lemma CleanedIsProper(name: string)
    ensures CleanRooted(name) == "" || Proper(CleanRooted(name))
  {
    SplitIsFree(name, '/');
    CleanFacts(Split(name, '/'));
    var c := CleanSegs(Split(name, '/'));
    if c != [] {
      SplitJoin(c, '/');
    }
  }

  /** The cleaned path has the cleaned segments. */
  lemma CleanedSegs(name: string)
    ensures var c := CleanSegs(Split(name, '/'));
      Split(CleanRooted(name), '/') == (if c == [] then [""] else c) && (CleanRooted(name) == "" <==> c == [])
  {
    SplitIsFree(name, '/');
    CleanFacts(Split(name, '/'));
    var c := CleanSegs(Split(name, '/'));
    if c != [] {
      SplitJoin(c, '/');
      assert c[0] != "" && Split("", '/') == [""];
    }
  }

  /** A proper path, so every accepted one, is a fixed point of the cleaning. */
  lemma ProperIsFixed(path: string)
    requires Proper(path)
    ensures CleanRooted(path) == path && path != ""
  {
    CleanFixed(Split(path, '/'));
    JoinSplit(path, '/');
    assert Split("", '/') == [""];
  }

  /** Proper paths are told apart by their segments. */
  lemma SegsTellApart(a: string, b: string)
    requires Split(a, '/') == Split(b, '/')
    ensures a == b
  {
    JoinSplit(a, '/');
    JoinSplit(b, '/');
  }
}
