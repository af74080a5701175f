/** Decimal numerals, as strconv prints and parses them. */
module Decimal {

  predicate IsDigit(c: char) { '0' <= c <= '9' }

  function DigitChar(d: nat): char
    requires d < 10
  {
    '0' + d as char
  }

  function DigitValue(c: char): (d: nat)
    requires IsDigit(c)
    ensures d < 10
  {
    c as int - '0' as int
  }

  function Print(n: nat): string {
    if n < 10 then [DigitChar(n)] else Print(n / 10) + [DigitChar(n % 10)]
  }

  predicate AllDigits(s: string) {
    forall i :: 0 <= i < |s| ==> IsDigit(s[i])
  }

  function Parse(s: string): nat
    requires AllDigits(s)
  {
    if s == "" then 0 else Parse(s[..|s| - 1]) * 10 + DigitValue(s[|s| - 1])
  }

  lemma {:induction false} PrintParses(n: nat)
    ensures Print(n) != "" && AllDigits(Print(n)) && Parse(Print(n)) == n
  {
    if n < 10 {
      assert Print(n)[..0] == "";
    } else {
      PrintParses(n / 10);
      var s := Print(n);
      assert s[..|s| - 1] == Print(n / 10);
    }
  }

  const DIGITS := "0123456789"

  /** Numerals are written digit by digit, the last digit last, and read so. */
  lemma DigitByDigit(n: nat, d: nat, s: string)
    requires d < 10 && AllDigits(s)
    ensures Print(d) == [DIGITS[d]] && (n > 0 ==> Print(10 * n + d) == Print(n) + [DIGITS[d]])
    ensures AllDigits(s + [DIGITS[d]]) && Parse(s + [DIGITS[d]]) == 10 * Parse(s) + d && Parse("") == 0
  {
    assert (s + [DIGITS[d]])[..|s|] == s;
    assert (10 * n + d) / 10 == n && (10 * n + d) % 10 == d;
  }

  ghost predicate Zeros(s: string) { forall k :: 0 <= k < |s| ==> s[k] == '0' }

  /** What a numeral says: zeros, and the number as it is printed. */
  lemma {:induction false} Reads(s: string) returns (zeros: string)
    requires AllDigits(s) && s != ""
    ensures Zeros(zeros) && s == zeros + Print(Parse(s))
  {
    var n := |s| - 1;
    var u, d := s[..n], DigitValue(s[n]);
    assert s == u + [DIGITS[d]];
    DigitByDigit(Parse(u), d, u);
    if u == "" {
      zeros := "";
    } else {
      var z := Reads(u);
      if Parse(u) == 0 {
        zeros := z + "0";
        assert Print(0) == "0";
      } else {
        zeros := z;
      }
    }
  }

  lemma {:induction false} ZerosFirst(zeros: string, s: string)
    requires Zeros(zeros) && AllDigits(s)
    ensures AllDigits(zeros + s) && Parse(zeros + s) == Parse(s)
  {
    if s != "" {
      var n := |s| - 1;
      ZerosFirst(zeros, s[..n]);
      assert (zeros + s)[..|zeros + s| - 1] == zeros + s[..n];
    } else if zeros != "" {
      var m := |zeros| - 1;
      ZerosFirst(zeros[..m], "");
      assert zeros[..m] + "" == zeros[..m] && zeros + "" == zeros;
    }
  }

  // ---- Machine integers ----

  const MAX_INT := 0x7fff_ffff_ffff_ffff

  datatype Number = NotANumber | Num(n: int)

  /** A decimal with an optional sign, within the machine integer. */
  function Atoi(s: string): Number {
    var digits := if s != "" && (s[0] == '+' || s[0] == '-') then s[1..] else s;
    if digits == "" || !AllDigits(digits) then NotANumber
    else
      var v: int := Parse(digits);
      var n: int := if s[0] == '-' then -v else v;
      if -MAX_INT - 1 <= n <= MAX_INT then Num(n) else NotANumber
  }

  lemma AtoiPrinted(n: nat)
    requires n <= MAX_INT
    ensures Atoi(Print(n)) == Num(n)
  {
    PrintParses(n);
    assert IsDigit(Print(n)[0]);
  }

  /** The text is a sign, if any, then zeros, if any, and the number as it is printed. */
  ghost predicate Spells(s: string, n: int) {
    exists zeros :: Zeros(zeros) && SpelledWith(s, zeros, n)
  }

  ghost predicate SpelledWith(s: string, zeros: string, n: int) {
    || (n >= 0 && (s == zeros + Print(n) || s == "+" + (zeros + Print(n))))
    || (n <= 0 && s == "-" + (zeros + Print(0 - n)))
  }

  function InRange(n: int): Number { if -MAX_INT - 1 <= n <= MAX_INT then Num(n) else NotANumber }

  lemma Signed(digits: string)
    requires digits != "" && AllDigits(digits)
    ensures Atoi(digits) == Atoi("+" + digits) == InRange(Parse(digits))
    ensures Atoi("-" + digits) == InRange(0 - Parse(digits))
  {
    assert IsDigit(digits[0]);
    assert ("+" + digits)[1..] == digits && ("-" + digits)[1..] == digits;
  }

  lemma NumberSpelt(s: string, n: int)
    requires Atoi(s) == Num(n)
    ensures Spells(s, n) && -MAX_INT - 1 <= n <= MAX_INT
  {
    var digits := if s != "" && (s[0] == '+' || s[0] == '-') then s[1..] else s;
    var zeros := Reads(digits);
    var sign := if s[0] == '+' then "+" else if s[0] == '-' then "-" else "";
    assert s == sign + digits && n == if sign == "-" then 0 - Parse(digits) else Parse(digits);
    assert SpelledWith(s, zeros, n);
  }

  lemma SpeltNumber(s: string, n: int)
    requires Spells(s, n) && -MAX_INT - 1 <= n <= MAX_INT
    ensures Atoi(s) == Num(n)
  {
    hide Atoi, Parse, Print;
    var zeros :| Zeros(zeros) && SpelledWith(s, zeros, n);
    Zeroed(zeros, if n >= 0 then n else 0 - n);
  }

  lemma Zeroed(zeros: string, m: nat)
    requires Zeros(zeros)
    ensures var digits := zeros + Print(m);
      && Atoi(digits) == Atoi("+" + digits) == InRange(m) && Atoi("-" + digits) == InRange(0 - m)
  {
    PrintParses(m);
    ZerosFirst(zeros, Print(m));
    Signed(zeros + Print(m));
  }

  /** Which texts are numbers, and which number each is. */
  lemma AtoiIff(s: string, n: int)
    ensures Atoi(s) == Num(n) <==> -MAX_INT - 1 <= n <= MAX_INT && Spells(s, n)
  {
    hide Spells, Atoi;
    if Atoi(s) == Num(n) {
      NumberSpelt(s, n);
    } else if -MAX_INT - 1 <= n <= MAX_INT && Spells(s, n) {
      SpeltNumber(s, n);
    }
  }
}
