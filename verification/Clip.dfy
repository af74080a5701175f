/** Shortening tool output for the browser without splitting a UTF-8 character. */
module Clip {

  type Byte = b: int | 0 <= b < 0x100

  /** A Unicode scalar value. */
  type Scalar = c: int | 0 <= c < 0xD800 || 0xE000 <= c < 0x11_0000

  const ELLIPSIS: Scalar := 0x2026

  /** utf8.RuneStart: not a continuation byte. */
  predicate RuneStart(b: Byte) { b < 0x80 || b >= 0xC0 }

  /** The bytes of one character, section 3 of RFC 3629. */
  function Encode(c: Scalar): (e: seq<Byte>)
    ensures 1 <= |e| <= 4 && RuneStart(e[0])
    ensures forall k :: 1 <= k < |e| ==> !RuneStart(e[k])
  {
    if c < 0x80 then [c]
    else if c < 0x800 then [0xC0 + c / 0x40, 0x80 + c % 0x40]
    else if c < 0x1_0000 then [0xE0 + c / 0x1000, 0x80 + c / 0x40 % 0x40, 0x80 + c % 0x40]
    else [0xF0 + c / 0x4_0000, 0x80 + c / 0x1000 % 0x40, 0x80 + c / 0x40 % 0x40, 0x80 + c % 0x40]
  }

  function Bits(b: Byte, lead: int): int { var v: int := b; v - lead }

  /** The character read back: the lead byte's bits, and six more from each further byte. */
  function Value(e: seq<Byte>): int
    requires 1 <= |e| <= 4
  {
    if |e| == 1 then e[0]
    else if |e| == 2 then Bits(e[0], 0xC0) * 0x40 + Bits(e[1], 0x80)
    else if |e| == 3 then Bits(e[0], 0xE0) * 0x1000 + Bits(e[1], 0x80) * 0x40 + Bits(e[2], 0x80)
    else Bits(e[0], 0xF0) * 0x4_0000 + Bits(e[1], 0x80) * 0x1000 + Bits(e[2], 0x80) * 0x40 + Bits(e[3], 0x80)
  }

  /** A character is as long as its value asks for, no longer, and reads back as itself;
      the lead byte tells the length, and six bits stand in each further byte. */
  lemma EncodeReadsBack(c: Scalar)
    ensures var e := Encode(c);
      && Value(e) == c
      && |e| == (if c < 0x80 then 1 else if c < 0x800 then 2 else if c < 0x1_0000 then 3 else 4)
      && (|e| == 2 ==> 0xC0 <= e[0] < 0xE0) && (|e| == 3 ==> 0xE0 <= e[0] < 0xF0) && (|e| == 4 ==> 0xF0 <= e[0] < 0xF8)
      && forall k :: 1 <= k < |e| ==> 0x80 <= e[k] < 0xC0
  {
    var v: int := c;
    if 0x800 <= c {
      assert v == v / 0x1000 * 0x1000 + v / 0x40 % 0x40 * 0x40 + v % 0x40 by {
        assert v / 0x40 / 0x40 == v / 0x1000;
      }
      if 0x1_0000 <= c {
        assert v / 0x1000 / 0x40 == v / 0x4_0000;
      }
    }
  }

  /** Valid UTF-8 is the encoding of some characters. */
  function EncodeAll(cs: seq<Scalar>): (s: seq<Byte>)
    ensures cs != [] ==> s != [] && RuneStart(s[0])
  {
    if cs == [] then [] else Encode(cs[0]) + EncodeAll(cs[1..])
  }

  /** The last place at or before n where a character may start. */
  function Boundary(s: seq<Byte>, n: nat): (m: nat)
    requires n < |s|
    ensures m <= n && (m == 0 || RuneStart(s[m]))
    ensures forall k :: m < k <= n ==> !RuneStart(s[k])
  {
    if n > 0 && !RuneStart(s[n]) then Boundary(s, n - 1) else n
  }

  method Clip(s: seq<Byte>, limit: nat) returns (r: seq<Byte>)
    ensures |s| <= limit ==> r == s
    ensures |s| > limit ==> r == s[..Boundary(s, limit)] + Encode(ELLIPSIS) && Encode(ELLIPSIS) == [0xE2, 0x80, 0xA6]
    ensures |r| <= limit + 3
  {
    if |s| <= limit {
      return s;
    }
    var n := limit;
    while n > 0 && !RuneStart(s[n])
      invariant 0 <= n <= limit && Boundary(s, n) == Boundary(s, limit)
    {
      n := n - 1;
    }
    return s[..n] + Encode(ELLIPSIS);
  }

  lemma {:induction false} BoundaryShift(e: seq<Byte>, t: seq<Byte>, n: nat)
    requires n < |t| && RuneStart(t[0])
    ensures Boundary(e + t, |e| + n) == |e| + Boundary(t, n)
  {
    assert (e + t)[|e| + n] == t[n];
    if n > 0 {
      BoundaryShift(e, t, n - 1);
    }
  }

  /** How many of the characters fit whole. */
  function Fitting(cs: seq<Scalar>, limit: nat): (k: nat)
    ensures k <= |cs|
  {
    if cs == [] || |Encode(cs[0])| > limit then 0 else 1 + Fitting(cs[1..], limit - |Encode(cs[0])|)
  }

  lemma {:induction false} FittingIsLongest(cs: seq<Scalar>, limit: nat)
    requires |EncodeAll(cs)| > limit
    ensures var k := Fitting(cs, limit);
            k < |cs| && |EncodeAll(cs[..k])| <= limit < |EncodeAll(cs[..k + 1])|
  {
    hide Encode;
    var e := Encode(cs[0]);
    if |e| > limit {
      assert cs[..1][0] == cs[0] && cs[..1][1..] == [];
      assert EncodeAll(cs[..1]) == e;
    } else {
      var rest := cs[1..];
      FittingIsLongest(rest, limit - |e|);
      var k := Fitting(rest, limit - |e|);
      assert cs[..k + 1][1..] == rest[..k] && cs[..k + 2][1..] == rest[..k + 1];
    }
  }

  /** On valid UTF-8 over the limit the boundary ends the longest run of whole
      characters within it, so the clipped text is that run and an ellipsis: valid
      UTF-8 again. */
  lemma {:induction false} ClipsWholeCharacters(cs: seq<Scalar>, limit: nat)
    requires |EncodeAll(cs)| > limit
    ensures var s, k := EncodeAll(cs), Fitting(cs, limit);
            && k < |cs| && |EncodeAll(cs[..k])| <= limit < |EncodeAll(cs[..k + 1])|
            && s[..Boundary(s, limit)] == EncodeAll(cs[..k])
            && s[..Boundary(s, limit)] + Encode(ELLIPSIS) == EncodeAll(cs[..k] + [ELLIPSIS])
  {
    FittingIsLongest(cs, limit);
    BoundaryEnds(cs, limit);
    EncodeMore(cs[..Fitting(cs, limit)], ELLIPSIS);
  }

  lemma {:induction false} BoundaryEnds(cs: seq<Scalar>, limit: nat)
    requires |EncodeAll(cs)| > limit
    ensures var s := EncodeAll(cs); s[..Boundary(s, limit)] == EncodeAll(cs[..Fitting(cs, limit)])
  {
    hide Encode, Boundary;
    var s, e, rest := EncodeAll(cs), Encode(cs[0]), cs[1..];
    var t := EncodeAll(rest);
    assert s == e + t;
    if |e| > limit {
    } else {
      var n := limit - |e|;
      BoundaryEnds(rest, n);
      BoundaryShift(e, t, n);
      var k := Fitting(rest, n);
      assert cs[..k + 1][0] == cs[0] && cs[..k + 1][1..] == rest[..k];
      assert s[..|e| + Boundary(t, n)] == e + t[..Boundary(t, n)];
    }
  }

  lemma {:induction false} EncodeMore(cs: seq<Scalar>, c: Scalar)
    ensures EncodeAll(cs + [c]) == EncodeAll(cs) + Encode(c)
  {
    hide Encode;
    if cs == [] {
      assert cs + [c] == [c];
      assert EncodeAll([c]) == Encode(c) + EncodeAll([c][1..]);
    } else {
      assert (cs + [c])[1..] == cs[1..] + [c];
      EncodeMore(cs[1..], c);
    }
  }
}
