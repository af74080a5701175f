/** Knowing when a typed command is done: the command is wrapped so that the shell
    prints a marked line with its exit code, and the screen is searched for it. */
module Sentinel {
  import opened Decimal
  import opened Text

  const PREFIX := "__HOPSKIP_DONE_"

  // ---- What is typed ----

  /** strings.TrimSuffix(keys, "\n"): at most one newline goes. */
  function TrimNewline(keys: string): string {
    if keys != "" && keys[|keys| - 1] == '\n' then keys[..|keys| - 1] else keys
  }

  function ToCR(s: string): (t: string)
    ensures |t| == |s|
    ensures forall k :: 0 <= k < |s| ==> t[k] == if s[k] == '\n' then '\r' else s[k]
  {
    seq(|s|, k requires 0 <= k < |s| => if s[k] == '\n' then '\r' else s[k])
  }

  /** The command, and after it what prints the sentinel. */
  function Tail(nonce: string): string { "; echo \"" + PREFIX + "$?_" + nonce + "__\"\n" }

  function TypedLine(keys: string, nonce: string): string {
    ToCR(TrimNewline(keys) + Tail(nonce))
  }

  /** What is typed is the keys, up to one newline at their end, with each other newline
      as a carriage return, and then the echo of the sentinel, on the same line. */
  lemma Typed(keys: string, nonce: string)
    requires '\n' !in nonce && (keys == "" || keys[|keys| - 1] != '\n')
    ensures TypedLine(keys + "\n", nonce) == TypedLine(keys, nonce)
    ensures var line, n := TypedLine(keys, nonce), |keys|;
      && n <= |line| && line[n..] == "; echo \"__HOPSKIP_DONE_$?_" + nonce + "__\"\r"
      && forall k :: 0 <= k < n ==> line[k] == if keys[k] == '\n' then '\r' else keys[k]
  {
    var more, n := keys + "\n", |keys|;
    assert more[..n] == keys && TrimNewline(more) == keys && TrimNewline(keys) == keys;
    TailTyped(nonce);
    hide Tail, TrimNewline;
    ToCRAppend(keys, Tail(nonce));
  }

  lemma ToCRAppend(a: string, b: string)
    ensures ToCR(a + b) == ToCR(a) + ToCR(b)
  {
  }

  lemma TailTyped(nonce: string)
    requires '\n' !in nonce
    ensures ToCR(Tail(nonce)) == "; echo \"__HOPSKIP_DONE_$?_" + nonce + "__\"\r"
  {
    var head := "; echo \"__HOPSKIP_DONE_$?_";
    assert "; echo \"" + PREFIX + "$?_" == head;
    ToCRAppend(head + nonce, "__\"\n");
    ToCRAppend(head, nonce);
    assert ToCR(head) == head && ToCR(nonce) == nonce && ToCR("__\"\n") == "__\"\r";
    hide ToCR;
    assert Tail(nonce) == head + nonce + "__\"\n";
  }

  // ---- What is looked for ----

  predicate HexDigit(c: char) { '0' <= c <= '9' || 'a' <= c <= 'f' }

  /** Twelve lower-case hexadecimal digits. */
  predicate IsNonce(nonce: string) {
    |nonce| == 12 && forall k :: 0 <= k < 12 ==> HexDigit(nonce[k])
  }

  predicate At(s: string, i: int, w: string) {
    0 <= i && i + |w| <= |s| && s[i..i + |w|] == w
  }

  predicate Occurs(s: string, w: string) {
    exists i :: 0 <= i <= |s| && At(s, i, w)
  }

  /** What follows the exit code. */
  function Mark(nonce: string): string { "_" + nonce + "__" }

  /** The completion pattern matches at i, its digits ending at j. */
  predicate Match(s: string, nonce: string, i: int, j: int) {
    && At(s, i, PREFIX) && i + |PREFIX| < j <= |s|
    && AllDigits(s[i + |PREFIX|..j]) && At(s, j, Mark(nonce))
  }

  predicate Matches(s: string, nonce: string) {
    exists i, j :: 0 <= i <= |s| && i <= j <= |s| && Match(s, nonce, i, j)
  }

  // ---- Matches ----

  /** The characters a match is made of. */
  predicate MatchChar(c: char) { c == '_' || HexDigit(c) || 'A' <= c <= 'Z' }

  /** A part of what is there is there too. */
  lemma Part(s: string, i: int, w: string, a: nat, b: nat)
    requires At(s, i, w) && a <= b <= |w|
    ensures At(s, i + a, w[a..b])
  {
    var x, y := s[i + a..i + b], w[a..b];
    forall k | 0 <= k < b - a ensures x[k] == y[k] {
    }
    assert x == y && i + a + |y| == i + b;
  }

  lemma MatchChars(s: string, nonce: string, i: int, j: int, k: int)
    requires IsNonce(nonce) && Match(s, nonce, i, j) && i <= k < j + 15
    ensures MatchChar(s[k])
  {
    if k < i + |PREFIX| {
      assert MatchChar(PREFIX[k - i]);
    } else if k < j {
      assert IsDigit(s[i + |PREFIX|..j][k - i - |PREFIX|]);
    } else {
      if 1 <= k - j < 13 {
        assert HexDigit(nonce[k - j - 1]);
      }
    }
  }

  /** A match carries over to a text that agrees with it there. */
  lemma Transfer(s: string, t: string, nonce: string, i: int, j: int)
    requires IsNonce(nonce) && Match(s, nonce, i, j)
    requires j + 15 <= |t| && forall k :: i <= k < j + 15 ==> t[k] == s[k]
    ensures Match(t, nonce, i, j)
  {
    assert s[i..i + |PREFIX|] == t[i..i + |PREFIX|];
    assert s[i + |PREFIX|..j] == t[i + |PREFIX|..j];
    assert s[j..j + 15] == t[j..j + 15];
  }

  lemma LastDigit(s: string, nonce: string, i: int, j: int)
    requires Match(s, nonce, i, j)
    ensures IsDigit(s[j - 1]) && s[j] == '_' && s[i + |PREFIX| - 1] == '_'
    ensures forall k :: i + |PREFIX| <= k < j ==> IsDigit(s[k])
  {
    forall k | i + |PREFIX| <= k < j ensures IsDigit(s[k]) {
      assert IsDigit(s[i + |PREFIX|..j][k - i - |PREFIX|]);
    }
  }

  lemma NonceInMatch(s: string, nonce: string, i: int, j: int)
    requires Match(s, nonce, i, j)
    ensures At(s, j + 1, nonce)
  {
    var m := Mark(nonce);
    assert m[1..1 + |nonce|] == nonce;
    Part(s, j, m, 1, 1 + |nonce|);
  }

  // ---- The echo of the typed line ----

  /** What follows the command in the typed line, c the command's length. */
  lemma AfterCommand(keys: string, nonce: string)
    requires IsNonce(nonce)
    ensures var line, c := TypedLine(keys, nonce), |TrimNewline(keys)|;
            && |line| == c + 42 && line[c] == ';' && line[c + 27] != '_'
            && forall k :: c + 16 <= k <= c + 25 ==> !IsDigit(line[k])
  {
    var cmd, tail, line := TrimNewline(keys), Tail(nonce), TypedLine(keys, nonce);
    var c := |cmd|;
    assert (cmd + tail)[c] == tail[0] && (cmd + tail)[c + 27] == tail[27];
    forall k | c + 16 <= k <= c + 25 ensures !IsDigit(line[k]) {
      assert (cmd + tail)[k] == tail[k - c];
    }
  }

  /** Any match in the typed line lies in the command. */
  lemma MatchInCommand(keys: string, nonce: string, i: int, j: int)
    requires IsNonce(nonce) && Match(TypedLine(keys, nonce), nonce, i, j)
    ensures j + 15 <= |TrimNewline(keys)|
  {
    hide TypedLine, TrimNewline, AllDigits;
    var line, c := TypedLine(keys, nonce), |TrimNewline(keys)|;
    AfterCommand(keys, nonce);
    LastDigit(line, nonce, i, j);
  }

  /** The echo of the typed line completes nothing unless the keys themselves hold a
      completed sentinel with this nonce. */
  lemma EchoIff(keys: string, nonce: string)
    requires IsNonce(nonce)
    ensures Matches(TypedLine(keys, nonce), nonce) <==> Matches(keys, nonce)
  {
    var line, cmd := TypedLine(keys, nonce), TrimNewline(keys);
    if i, j :| 0 <= i <= |line| && i <= j <= |line| && Match(line, nonce, i, j) {
      MatchInCommand(keys, nonce, i, j);
      forall k | i <= k < j + 15 ensures keys[k] == line[k] {
        MatchChars(line, nonce, i, j, k);
        assert (cmd + Tail(nonce))[k] == keys[k];
      }
      Transfer(line, keys, nonce, i, j);
    }
    if i, j :| 0 <= i <= |keys| && i <= j <= |keys| && Match(keys, nonce, i, j) {
      MatchChars(keys, nonce, i, j, j + 14);
      assert j + 15 <= |cmd|;
      forall k | i <= k < j + 15 ensures line[k] == keys[k] {
        MatchChars(keys, nonce, i, j, k);
        assert (cmd + Tail(nonce))[k] == keys[k];
      }
      Transfer(keys, line, nonce, i, j);
    }
  }

  /** Keys that do not hold the nonce are echoed without completing anything. */
  lemma EchoNeverCompletes(keys: string, nonce: string)
    requires IsNonce(nonce) && !Occurs(keys, nonce)
    ensures !Matches(TypedLine(keys, nonce), nonce)
  {
    EchoIff(keys, nonce);
    if i, j :| 0 <= i <= |keys| && i <= j <= |keys| && Match(keys, nonce, i, j) {
      NonceInMatch(keys, nonce, i, j);
      assert Occurs(keys, nonce);
      assert false;
    }
  }

  // ---- The leftmost match ----

  /** The end of the run of digits from p. */
  function DigitsEnd(s: string, p: nat): (j: nat)
    requires p <= |s|
    ensures p <= j <= |s| && forall k :: p <= k < j ==> IsDigit(s[k])
    ensures j < |s| ==> !IsDigit(s[j])
    decreases |s| - p
  {
    if p < |s| && IsDigit(s[p]) then DigitsEnd(s, p + 1) else p
  }

  datatype Found = NoMatch | Code(digits: string)

  /** What the leftmost match at or after i captures. */
  function Search(s: string, nonce: string, i: nat): (f: Found)
    requires i <= |s|
    decreases |s| - i
  {
    if i == |s| then NoMatch
    else
      var p := i + |PREFIX|;
      if p <= |s| && Match(s, nonce, i, DigitsEnd(s, p)) then Code(s[p..DigitsEnd(s, p)])
      else Search(s, nonce, i + 1)
  }

  /** The digits of a match are all the digits there. */
  lemma DigitsOfMatch(s: string, nonce: string, i: int, j: int)
    requires Match(s, nonce, i, j)
    ensures j == DigitsEnd(s, i + |PREFIX|)
  {
    LastDigit(s, nonce, i, j);
    assert !IsDigit(s[j]);
  }

  /** The leftmost match at or after a place, and its digits. */
  ghost predicate Leftmost(s: string, nonce: string, from: nat, i: int, j: int, digits: string) {
    && from <= i && i + |PREFIX| < j <= |s| && Match(s, nonce, i, j) && digits == s[i + |PREFIX|..j]
    && (forall a, b :: from <= a < i && a <= b <= |s| ==> !Match(s, nonce, a, b))
  }

  /** What was found is what the leftmost match captures, or there is no match. */
  ghost predicate Captures(s: string, nonce: string, from: nat, f: Found) {
    if f == NoMatch then forall i, j :: from <= i <= |s| && i <= j <= |s| ==> !Match(s, nonce, i, j)
    else exists i, j :: Leftmost(s, nonce, from, i, j, f.digits)
  }

  lemma {:induction false} SearchIsLeftmost(s: string, nonce: string, from: nat)
    requires from <= |s|
    ensures Captures(s, nonce, from, Search(s, nonce, from))
    decreases |s| - from
  {
    hide Match, Search, Leftmost;
    SearchStep(s, nonce, from);
    if from == |s| {
      forall j | from <= j <= |s| ensures !Match(s, nonce, from, j) {
        if Match(s, nonce, from, j) {
          Room(s, nonce, from, j);
        }
      }
    } else if exists j :: from <= j <= |s| && Match(s, nonce, from, j) {
      var j :| from <= j <= |s| && Match(s, nonce, from, j);
      DigitsOfMatch(s, nonce, from, j);
      Room(s, nonce, from, j);
      LeftmostHere(s, nonce, from, j);
    } else {
      SearchIsLeftmost(s, nonce, from + 1);
      if Search(s, nonce, from + 1).Code? {
        var i, j :| Leftmost(s, nonce, from + 1, i, j, Search(s, nonce, from + 1).digits);
        LeftmostLater(s, nonce, from, i, j, Search(s, nonce, from).digits);
      }
    }
  }

  lemma SearchStep(s: string, nonce: string, from: nat)
    requires from <= |s|
    ensures from == |s| ==> Search(s, nonce, from) == NoMatch
    ensures from < |s| ==>
              var p := from + |PREFIX|;
              Search(s, nonce, from) ==
              if p <= |s| && Match(s, nonce, from, DigitsEnd(s, p)) then Code(s[p..DigitsEnd(s, p)])
              else Search(s, nonce, from + 1)
  {}

  lemma LeftmostHere(s: string, nonce: string, from: nat, j: int)
    requires from + |PREFIX| < j <= |s| && Match(s, nonce, from, j)
    ensures Leftmost(s, nonce, from, from, j, s[from + |PREFIX|..j])
  {}

  lemma LeftmostLater(s: string, nonce: string, from: nat, i: int, j: int, digits: string)
    requires Leftmost(s, nonce, from + 1, i, j, digits)
    requires forall b :: from <= b <= |s| ==> !Match(s, nonce, from, b)
    ensures Leftmost(s, nonce, from, i, j, digits)
  {}

  lemma Room(s: string, nonce: string, i: int, j: int)
    requires Match(s, nonce, i, j)
    ensures 0 <= i && i + |PREFIX| < j <= |s|
  {}

  // ---- The resolved line ----

  /** The shell's answer: the sentinel with the exit code in place, nonce at d. */
  predicate ResolvedAt(s: string, nonce: string, code: nat, d: int) {
    At(s, d - 1 - |Print(code)| - |PREFIX|, PREFIX + Print(code) + Mark(nonce))
  }

  lemma ResolvedMatches(s: string, nonce: string, code: nat, d: int)
    requires ResolvedAt(s, nonce, code, d)
    ensures var i := d - 1 - |Print(code)| - |PREFIX|;
            Match(s, nonce, i, d - 1) && s[i + |PREFIX|..d - 1] == Print(code)
  {
    PrintParses(code);
    Cut(s, d - 1 - |Print(code)| - |PREFIX|, PREFIX, Print(code), Mark(nonce));
  }

  lemma Cut(s: string, i: int, a: string, b: string, c: string)
    requires At(s, i, a + b + c)
    ensures At(s, i, a) && At(s, i + |a|, b) && At(s, i + |a| + |b|, c)
  {
    var w := a + b + c;
    assert w[0..|a|] == a && w[|a|..|a| + |b|] == b && w[|a| + |b|..|w|] == c;
    Part(s, i, w, 0, |a|);
    Part(s, i, w, |a|, |a| + |b|);
    Part(s, i, w, |a| + |b|, |w|);
  }

  /** Two matches that end together are one. */
  lemma SameEnd(s: string, nonce: string, a: int, b: int, j: int)
    requires Match(s, nonce, a, j) && Match(s, nonce, b, j)
    ensures a == b
  {
    LastDigit(s, nonce, a, j);
    LastDigit(s, nonce, b, j);
    assert !IsDigit('_');
  }

  /** The nonce is on the screen only in the echo, after "?_", and at d. */
  ghost predicate OnlyEchoAnd(s: string, nonce: string, d: int) {
    forall p :: 0 <= p <= |s| && At(s, p, nonce) ==> p == d || At(s, p - 2, "?_")
  }

  lemma OnlyMatch(s: string, nonce: string, code: nat, d: int, i: int, j: int)
    requires ResolvedAt(s, nonce, code, d) && OnlyEchoAnd(s, nonce, d) && Match(s, nonce, i, j)
    ensures i + |PREFIX| < j <= |s| && s[i + |PREFIX|..j] == Print(code)
  {
    hide Match, At, Print, ResolvedAt, Mark;
    ResolvedMatches(s, nonce, code, d);
    Room(s, nonce, i, j);
    NonceInMatch(s, nonce, i, j);
    EchoIsNoMatch(s, nonce, i, j);
    assert j + 1 == d;
    SameEnd(s, nonce, i, d - 1 - |Print(code)| - |PREFIX|, j);
  }

  /** Then what is captured and parsed is the exit code the shell printed. */
  lemma ParsesExitCode(s: string, nonce: string, code: nat, d: int)
    requires ResolvedAt(s, nonce, code, d) && OnlyEchoAnd(s, nonce, d) && code <= MAX_INT
    ensures Settled(Screen(s), nonce) == Completed(Strip(s), code)
  {
    hide Match, At, Print, Search, Atoi, ResolvedAt, OnlyEchoAnd, Strip;
    ResolvedMatches(s, nonce, code, d);
    SearchIsLeftmost(s, nonce, 0);
    AtoiPrinted(code);
    var i0 := d - 1 - |Print(code)| - |PREFIX|;
    Room(s, nonce, i0, d - 1);
    var i, j :| Leftmost(s, nonce, 0, i, j, Search(s, nonce, 0).digits);
    OnlyMatch(s, nonce, code, d, i, j);
  }

  lemma EchoIsNoMatch(s: string, nonce: string, i: int, j: int)
    requires Match(s, nonce, i, j)
    ensures !At(s, j - 1, "?_")
  {
    LastDigit(s, nonce, i, j);
    if At(s, j - 1, "?_") {
      assert false;
    }
  }

  /** A whole screen on which every nonce follows "?_" completes nothing, however
      often the typed line is on it. */
  lemma EchoesNeverComplete(s: string, nonce: string)
    requires forall p :: 0 <= p <= |s| && At(s, p, nonce) ==> At(s, p - 2, "?_")
    ensures !Matches(s, nonce)
  {
    hide Match, At;
    forall i, j | 0 <= i <= |s| && i <= j <= |s| ensures !Match(s, nonce, i, j) {
      if Match(s, nonce, i, j) {
        Room(s, nonce, i, j);
        NonceInMatch(s, nonce, i, j);
        EchoIsNoMatch(s, nonce, i, j);
      }
    }
  }

  // ---- Stripping ----

  /** The lines without the sentinel's prefix, in order. */
  function Clean(lines: seq<string>): (c: seq<string>)
    ensures |c| <= |lines|
  {
    if lines == [] then []
    else
      var n := |lines| - 1;
      if Occurs(lines[n], PREFIX) then Clean(lines[..n]) else Clean(lines[..n]) + [lines[n]]
  }

  /** Line by line: one that shows the prefix goes, any other stays. */
  lemma {:induction false} CleanLaw(a: seq<string>, b: seq<string>, l: string)
    ensures Clean([]) == [] && Clean(a + b) == Clean(a) + Clean(b)
    ensures Clean([l]) == if Occurs(l, PREFIX) then [] else [l]
  {
    hide Occurs;
    assert [l][..0] == [];
    if b == [] {
      assert a + b == a;
    } else {
      var n := |b| - 1;
      CleanLaw(a, b[..n], l);
      assert (a + b)[..|a + b| - 1] == a + b[..n];
    }
  }

  function Strip(s: string): string { Join(Clean(Split(s, '\n')), '\n') }

  /** Filtering the lines in place: what is kept is written over what was read. */
  method StripSentinel(screen: string) returns (r: string)
    ensures r == Strip(screen)
  {
    hide Occurs, Split, Join;
    var parts := Split(screen, '\n');
    var lines := new string[|parts|](i requires 0 <= i < |parts| => parts[i]);
    var out := 0;
    for i := 0 to lines.Length
      invariant 0 <= out <= i
      invariant lines[..out] == Clean(parts[..i])
      invariant forall k :: i <= k < lines.Length ==> lines[k] == parts[k]
    {
      assert parts[..i + 1][..i] == parts[..i];
      if Occurs(lines[i], PREFIX) {
        continue;
      }
      lines[out] := lines[i];
      out := out + 1;
    }
    assert parts[..|parts|] == parts;
    return Join(lines[..out], '\n');
  }

  lemma {:induction false} CleanLines(lines: seq<string>, l: string)
    ensures l in Clean(lines) <==> l in lines && !Occurs(l, PREFIX)
  {
    hide Occurs;
    if lines != [] {
      CleanLines(lines[..|lines| - 1], l);
      assert lines == lines[..|lines| - 1] + [lines[|lines| - 1]];
    }
  }

  lemma {:induction false} CleanFixed(lines: seq<string>)
    requires forall l :: l in lines ==> !Occurs(l, PREFIX)
    ensures Clean(lines) == lines
  {
    hide Occurs;
    if lines != [] {
      var n := |lines| - 1;
      assert lines == lines[..n] + [lines[n]];
      CleanFixed(lines[..n]);
    }
  }

  /** What holds no newline is on a screen exactly when it is on one of its lines. */
  lemma {:induction false} OccursInLine(lines: seq<string>, w: string)
    requires lines != [] && w != "" && '\n' !in w
    ensures Occurs(Join(lines, '\n'), w) <==> exists l :: l in lines && Occurs(l, w)
  {
    var s, first := Join(lines, '\n'), lines[0];
    if |lines| == 1 {
      assert Occurs(s, w) ==> first in lines && Occurs(first, w);
    } else {
      var rest := Join(lines[1..], '\n');
      OccursInLine(lines[1..], w);
      assert s == first + ['\n'] + rest;
      OccursEither(first, rest, w);
      assert lines == [first] + lines[1..];
      if Occurs(first, w) {
        assert first in lines;
      }
    }
  }

  /** What is in one text is in another that agrees with it there. */
  lemma Moved(s: string, i: int, t: string, j: int, w: string)
    requires At(s, i, w) && 0 <= j && j + |w| <= |t|
    requires forall k :: j <= k < j + |w| ==> t[k] == s[k - j + i]
    ensures Occurs(t, w)
  {
    var x := t[j..j + |w|];
    forall k | 0 <= k < |w| ensures x[k] == w[k] {
    }
    assert At(t, j, w);
  }

  lemma OccursEither(a: string, b: string, w: string)
    requires w != "" && '\n' !in w
    ensures Occurs(a + ['\n'] + b, w) <==> Occurs(a, w) || Occurs(b, w)
  {
    hide At;
    var s, n := a + ['\n'] + b, |a|;
    if i :| 0 <= i <= |s| && At(s, i, w) {
      Inside(s, i, w);
      NoneAcross(s, i, w, n);
      if i + |w| <= n {
        Moved(s, i, a, i, w);
      } else {
        Moved(s, i, b, i - n - 1, w);
      }
    }
    if i :| 0 <= i <= |a| && At(a, i, w) {
      Inside(a, i, w);
      Moved(a, i, s, i, w);
    }
    if i :| 0 <= i <= |b| && At(b, i, w) {
      Inside(b, i, w);
      Moved(b, i, s, n + 1 + i, w);
    }
  }

  lemma Inside(s: string, i: int, w: string)
    requires At(s, i, w)
    ensures 0 <= i && i + |w| <= |s|
  {}

  lemma NoneAcross(s: string, i: int, w: string, n: int)
    requires At(s, i, w) && 0 <= n < |s| && s[n] !in w
    ensures n < i || i + |w| <= n
  {
    if i <= n < i + |w| {
    }
  }

  /** A stripped screen never shows the prefix, and stripping leaves a screen alone
      exactly when it did not show the prefix. */
  lemma StripsExactly(s: string)
    ensures !Occurs(Strip(s), PREFIX)
    ensures Strip(s) == s <==> !Occurs(s, PREFIX)
  {
    hide Occurs, Join, Split;
    var lines := Split(s, '\n');
    var kept := Clean(lines);
    assert '\n' !in PREFIX;
    JoinSplit(s, '\n');
    OccursInLine(lines, PREFIX);
    if kept == [] {
      NotInEmpty();
    } else {
      OccursInLine(kept, PREFIX);
      forall l | l in kept ensures !Occurs(l, PREFIX) {
        CleanLines(lines, l);
      }
    }
    if !Occurs(s, PREFIX) {
      CleanFixed(lines);
    }
  }

  lemma NotInEmpty()
    ensures Join([], '\n') == "" && !Occurs("", PREFIX)
  {}

  /** The lines that stay are the others, unchanged and in their order. */
  lemma StripKeepsOtherLines(s: string)
    ensures var kept := Clean(Split(s, '\n'));
            Split(Strip(s), '\n') == if kept == [] then [""] else kept
  {
    var lines := Split(s, '\n');
    var kept := Clean(lines);
    SplitIsFree(s, '\n');
    forall k | 0 <= k < |kept| ensures '\n' !in kept[k] {
      assert kept[k] in kept;
      CleanLines(lines, kept[k]);
    }
    if kept != [] {
      SplitJoin(kept, '\n');
    }
  }

  // ---- The wait ----

  /** What a poll captures: a screen, or an error once the session is gone. */
  datatype Capture = Screen(text: string) | Gone

  datatype Outcome = Failed | TimedOut(screen: string) | Completed(screen: string, code: int)

  predicate Settles(c: Capture, nonce: string) {
    c.Gone? || Matches(c.text, nonce)
  }

  lemma SearchIff(s: string, nonce: string)
    ensures Search(s, nonce, 0).Code? <==> Matches(s, nonce)
  {
    hide Match, Search;
    SearchIsLeftmost(s, nonce, 0);
    if Search(s, nonce, 0).Code? {
      var i, j :| Leftmost(s, nonce, 0, i, j, Search(s, nonce, 0).digits);
      assert Match(s, nonce, i, j);
    }
  }

  /** Polls until a screen completes the command or the screens captured before the
      deadline run out; the first poll that settles it decides. */
  method AwaitDone(screens: seq<Capture>, nonce: string) returns (o: Outcome)
    requires screens != []
    ensures o.TimedOut? <==> forall k :: 0 <= k < |screens| ==> !Settles(screens[k], nonce)
    ensures o.TimedOut? ==> screens[|screens| - 1] == Screen(o.screen)
    ensures !o.TimedOut? ==>
              exists k :: && 0 <= k < |screens| && Settles(screens[k], nonce)
                          && (forall m :: 0 <= m < k ==> !Settles(screens[m], nonce))
                          && o == Settled(screens[k], nonce)
  {
    hide Matches, Search, Strip, ExitCode;
    var last := "";
    for i := 0 to |screens|
      invariant forall m :: 0 <= m < i ==> !Settles(screens[m], nonce)
      invariant i > 0 ==> screens[i - 1] == Screen(last)
    {
      if screens[i].Gone? {
        return Failed;
      }
      last := screens[i].text;
      SearchIff(last, nonce);
      var mm := Search(last, nonce, 0);
      if mm.Code? {
        var clean := StripSentinel(last);
        return Completed(clean, ExitCode(mm.digits));
      }
    }
    return TimedOut(last);
  }

  /** Too many digits give the largest integer. */
  function ExitCode(digits: string): int {
    match Atoi(digits)
    case Num(n) => n
    case NotANumber => MAX_INT
  }

  /** The exit code is the number the digits are, or the largest integer. */
  lemma ExitCodeIs(digits: string)
    requires digits != "" && AllDigits(digits)
    ensures ExitCode(digits) == if Parse(digits) <= 0x7fff_ffff_ffff_ffff then Parse(digits) else 0x7fff_ffff_ffff_ffff
  {
    Signed(digits);
  }

  /** What a poll that settles it comes to. */
  function Settled(c: Capture, nonce: string): Outcome {
    if c.Gone? then Failed
    else
      match Search(c.text, nonce, 0)
      case NoMatch => TimedOut(c.text)
      case Code(digits) => Completed(Strip(c.text), ExitCode(digits))
  }

  /** A screen that completes the command gives the digits of its leftmost match, as a
      number that fits, and is shown stripped. */
  lemma SettledIs(text: string, nonce: string) returns (i: int, j: int, digits: string)
    requires Matches(text, nonce)
    ensures Leftmost(text, nonce, 0, i, j, digits) && digits != "" && AllDigits(digits)
    ensures Settled(Screen(text), nonce) == Completed(Strip(text), ExitCode(digits))
  {
    hide Match, Search, Strip, ExitCode;
    SearchIff(text, nonce);
    SearchIsLeftmost(text, nonce, 0);
    digits := Search(text, nonce, 0).digits;
    i, j :| Leftmost(text, nonce, 0, i, j, digits);
    MatchDigits(text, nonce, i, j);
  }

  lemma MatchDigits(s: string, nonce: string, i: int, j: int)
    requires Match(s, nonce, i, j)
    ensures 0 <= i && i + |PREFIX| < j <= |s| && AllDigits(s[i + |PREFIX|..j]) && s[i + |PREFIX|..j] != ""
  {
  }
}
