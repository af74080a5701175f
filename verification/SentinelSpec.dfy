/** The stripping that the protocol asks for (spec/mcp-protocol.md, section 6.5), and
    exactly when the code's stripping is that. */
module SentinelSpec {
  import opened Common
  import opened Sentinel
  import opened Text

  /** What the typed line appends to the command, as the terminal echoes it. */
  function EchoTail(nonce: string): string { "; echo \"" + PREFIX + "$?_" + nonce + "__\"" }

  predicate EndsWith(l: string, w: string) {
    |w| <= |l| && l[|l| - |w|..] == w
  }

  /** The line is the sentinel with the exit code in place, and nothing else. */
  predicate ResolvedLine(l: string, nonce: string) {
    Match(l, nonce, 0, |l| - |Mark(nonce)|)
  }

  /** The echoed command without the suffix; any other line as it is. */
  function SpecLine(l: string, nonce: string): string {
    if EndsWith(l, EchoTail(nonce)) then l[..|l| - |EchoTail(nonce)|] else l
  }

  /** The resolved lines go, the suffix goes, and everything else stays. */
  function SpecLines(lines: seq<string>, nonce: string): seq<string> {
    if lines == [] then []
    else SpecLines(Init(lines), nonce)
         + if ResolvedLine(Last(lines), nonce) then [] else [SpecLine(Last(lines), nonce)]
  }

  function SpecStrip(s: string, nonce: string): string { Join(SpecLines(Split(s, '\n'), nonce), '\n') }

  /** Every line that shows the prefix is a resolved line. */
  ghost predicate OnlyResolved(lines: seq<string>, nonce: string) {
    forall l :: l in lines && Occurs(l, PREFIX) ==> ResolvedLine(l, nonce)
  }

  /** All but one line are resolved lines, and that one is the suffix alone. */
  ghost predicate BareSuffix(lines: seq<string>, nonce: string) {
    exists k :: 0 <= k < |lines| && lines[k] == EchoTail(nonce) && OthersResolved(lines, nonce, k)
  }

  ghost predicate OthersResolved(lines: seq<string>, nonce: string, k: int) {
    forall m :: 0 <= m < |lines| && m != k ==> ResolvedLine(lines[m], nonce)
  }

  // ---- Lines that show the prefix ----

  lemma ResolvedShows(l: string, nonce: string)
    requires ResolvedLine(l, nonce)
    ensures Occurs(l, PREFIX)
  {
    assert At(l, 0, PREFIX);
  }

  lemma SuffixShows(l: string, nonce: string)
    requires EndsWith(l, EchoTail(nonce))
    ensures Occurs(l, PREFIX)
  {
    var w := EchoTail(nonce);
    var i := |l| - |w|;
    assert At(l, i, w);
    assert w[8..8 + |PREFIX|] == PREFIX;
    Part(l, i, w, 8, 8 + |PREFIX|);
  }

  // ---- Line by line ----

  /** The code never keeps more lines, and as many only when all it drops are
      resolved lines; then it keeps the same ones. */
  lemma {:induction false} LinesAgreeIff(lines: seq<string>, nonce: string)
    ensures |Clean(lines)| <= |SpecLines(lines, nonce)|
    ensures |Clean(lines)| == |SpecLines(lines, nonce)| ==> OnlyResolved(lines, nonce)
    ensures OnlyResolved(lines, nonce) ==> Clean(lines) == SpecLines(lines, nonce)
  {
    hide Occurs, ResolvedLine, EndsWith;
    if lines != [] {
      var front, l := Init(lines), Last(lines);
      LinesAgreeIff(front, nonce);
      assert lines == front + [l];
      if ResolvedLine(l, nonce) {
        ResolvedShows(l, nonce);
      } else if EndsWith(l, EchoTail(nonce)) {
        SuffixShows(l, nonce);
      }
    }
  }

  /** When one line is left, it comes from the one line that is not resolved. */
  lemma {:induction false} OneLeft(lines: seq<string>, nonce: string) returns (k: nat)
    requires |SpecLines(lines, nonce)| == 1
    ensures k < |lines| && SpecLines(lines, nonce) == [SpecLine(lines[k], nonce)] && OthersResolved(lines, nonce, k)
  {
    hide ResolvedLine, SpecLine;
    var front, n := Init(lines), |lines| - 1;
    if ResolvedLine(Last(lines), nonce) {
      k := OneLeft(front, nonce);
    } else {
      k := n;
      NoneLeft(front, nonce);
    }
  }

  lemma {:induction false} NoneLeft(lines: seq<string>, nonce: string)
    ensures SpecLines(lines, nonce) == [] <==> forall m :: 0 <= m < |lines| ==> ResolvedLine(lines[m], nonce)
  {
    hide ResolvedLine, SpecLine;
    if lines != [] {
      NoneLeft(Init(lines), nonce);
    }
  }

  lemma {:induction false} SpecLinesFree(lines: seq<string>, nonce: string)
    requires Free(lines, '\n')
    ensures Free(SpecLines(lines, nonce), '\n')
  {
    hide ResolvedLine;
    if lines != [] {
      SpecLinesFree(Init(lines), nonce);
    }
  }

  // ---- The whole screen ----

  lemma BareAgrees(s: string, nonce: string)
    requires BareSuffix(Split(s, '\n'), nonce)
    ensures Strip(s) == SpecStrip(s, nonce)
  {
    var lines := Split(s, '\n');
    var k :| 0 <= k < |lines| && lines[k] == EchoTail(nonce) && OthersResolved(lines, nonce, k);
    hide Occurs, ResolvedLine, Split;
    forall l | l in lines ensures Occurs(l, PREFIX) {
      var m :| 0 <= m < |lines| && lines[m] == l;
      if m == k {
        SuffixShows(l, nonce);
      } else {
        ResolvedShows(l, nonce);
      }
    }
    AllShown(lines);
    BareLines(lines, nonce, k);
  }

  lemma AllShown(lines: seq<string>)
    requires forall l :: l in lines ==> Occurs(l, PREFIX)
    ensures Clean(lines) == []
  {
    hide Occurs;
    if c :| c in Clean(lines) {
      CleanLines(lines, c);
      assert false;
    }
  }

  lemma BareIsNotResolved(l: string, nonce: string)
    requires EndsWith(l, EchoTail(nonce))
    ensures !ResolvedLine(l, nonce)
  {
    var w, m := EchoTail(nonce), Mark(nonce);
    assert w[|w| - 1] == '"' && m[|m| - 1] == '_';
    assert l[|l| - |w|..][|w| - 1] == l[|l| - 1];
  }

  lemma {:induction false} BareLines(lines: seq<string>, nonce: string, k: int)
    requires 0 <= k < |lines| && lines[k] == EchoTail(nonce) && OthersResolved(lines, nonce, k)
    ensures SpecLines(lines, nonce) == [""]
  {
    hide ResolvedLine;
    var n := |lines| - 1;
    if k == n {
      NoneLeft(Init(lines), nonce);
      BareIsNotResolved(lines[k], nonce);
    } else {
      BareLines(Init(lines), nonce, k);
    }
  }

  /** The code strips a screen as the protocol asks if and only if every line that
      shows the prefix is a resolved line, or nothing is left to show either way. */
  lemma StripMeetsSpecIff(s: string, nonce: string)
    ensures Strip(s) == SpecStrip(s, nonce)
       <==> OnlyResolved(Split(s, '\n'), nonce) || BareSuffix(Split(s, '\n'), nonce)
  {
    var lines := Split(s, '\n');
    LinesAgreeIff(lines, nonce);
    if BareSuffix(lines, nonce) {
      BareAgrees(s, nonce);
    } else if Strip(s) == SpecStrip(s, nonce) && !OnlyResolved(lines, nonce) {
      StripKeepsOtherLines(s);
      SplitIsFree(s, '\n');
      SpecLinesFree(lines, nonce);
      SplitJoin(SpecLines(lines, nonce), '\n');
      assert SpecLines(lines, nonce) == [""] && Clean(lines) == [];
      NothingElse(lines, nonce);
    }
  }

  lemma NothingElse(lines: seq<string>, nonce: string)
    requires SpecLines(lines, nonce) == [""] && Clean(lines) == []
    ensures BareSuffix(lines, nonce)
  {
    hide Occurs, ResolvedLine;
    var k := OneLeft(lines, nonce);
    CleanLines(lines, lines[k]);
    NotInEmpty();
    assert EndsWith(lines[k], EchoTail(nonce)) && |lines[k]| == |EchoTail(nonce)|;
    assert lines[k] == EchoTail(nonce);
  }

  // ---- What is lost ----

  lemma OneLine(l: string, nonce: string)
    requires '\n' !in l && !ResolvedLine(l, nonce) && Occurs(l, PREFIX)
    ensures Strip(l) == "" && SpecStrip(l, nonce) == SpecLine(l, nonce)
  {
    hide Occurs, ResolvedLine, SpecLine;
    SplitFirst(l, "", '\n');
    assert Init([l]) == [] && [l][..0] == [];
    assert SpecLines([l], nonce) == SpecLines([], nonce) + [SpecLine(l, nonce)];
  }

  /** The echo of a command is dropped with its prompt and the command in it. */
  lemma EchoIsLost(shown: string, nonce: string)
    requires '\n' !in shown && IsNonce(nonce)
    ensures Strip(shown + EchoTail(nonce)) == "" && SpecStrip(shown + EchoTail(nonce), nonce) == shown
  {
    var l, w := shown + EchoTail(nonce), EchoTail(nonce);
    assert l[|shown|..] == w && l[..|shown|] == shown;
    BareIsNotResolved(l, nonce);
    SuffixShows(l, nonce);
    assert '\n' !in nonce && '\n' !in w;
    OneLine(l, nonce);
  }

  /** So is a line of the command's output that merely mentions the prefix. */
  lemma MentionIsLost(nonce: string)
    requires IsNonce(nonce)
    ensures Strip("see __HOPSKIP_DONE_") == "" && SpecStrip("see __HOPSKIP_DONE_", nonce) == "see __HOPSKIP_DONE_"
  {
    var l := "see __HOPSKIP_DONE_";
    assert l[4..4 + |PREFIX|] == PREFIX;
    assert At(l, 4, PREFIX);
    assert l[0] == 's' && PREFIX[0] == '_';
    OneLine(l, nonce);
  }
}
