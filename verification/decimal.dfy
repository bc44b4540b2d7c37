/** Decimal rendering of integers (Go's `%d`) and reading digit strings back, including the
    base-0 rule of Go's `strconv.ParseInt` for plain digit strings (a leading `0` selects octal). */
module Decimal {
  import opened Wrappers
  import Int64

  predicate IsDigit(c: char) {
    '0' <= c <= '9'
  }

  predicate AllDigits(s: string) {
    forall i :: 0 <= i < |s| ==> IsDigit(s[i])
  }

  function DigitChar(d: nat): (c: char)
    requires d < 10
    ensures IsDigit(c) && DigitValue(c) == d
  {
    ('0' as int + d) as char
  }

  function DigitValue(c: char): nat
    requires IsDigit(c)
  {
    c as int - '0' as int
  }

  /** The decimal digits of `n`, most significant first, with no leading zero. */
  function NatToString(n: nat): (s: string)
    ensures |s| >= 1 && AllDigits(s)
    ensures s[0] == '0' <==> n == 0
    ensures n == 0 ==> s == "0"
  {
    if n < 10 then [DigitChar(n)] else NatToString(n / 10) + [DigitChar(n % 10)]
  }

  /** Go's `%d`: a leading `-` for negative numbers, then the digits of the magnitude. */
  function IntToString(i: int): (s: string)
    ensures |s| >= 1
    ensures (s[0] == '-') <==> i < 0
  {
    if i < 0 then "-" + NatToString(-i) else NatToString(i)
  }

  /** The number a digit string denotes in `base`; every digit must be below the base. */
  function ValueIn(s: string, base: nat): nat
    requires AllDigits(s)
  {
    if |s| == 0 then 0 else ValueIn(s[..|s| - 1], base) * base + DigitValue(s[|s| - 1])
  }

  predicate DigitsBelow(s: string, base: nat)
    requires AllDigits(s)
  {
    forall i :: 0 <= i < |s| ==> DigitValue(s[i]) < base
  }

  /** Reads back an optionally signed decimal rendering. */
  function ReadSigned(s: string): int
    requires |s| >= 1
    requires AllDigits(if s[0] == '-' then s[1..] else s)
  {
    if s[0] == '-' then 0 - ValueIn(s[1..], 10) else ValueIn(s, 10)
  }

  lemma {:induction false} NatRoundTrip(n: nat)
    ensures ValueIn(NatToString(n), 10) == n
  {
    if n >= 10 {
      var s := NatToString(n);
      assert s[..|s| - 1] == NatToString(n / 10);
      NatRoundTrip(n / 10);
    }
  }

  /** Rendering then reading back gives the same integer. */
  lemma IntRoundTrip(i: int)
    ensures var s := IntToString(i);
            AllDigits(if s[0] == '-' then s[1..] else s) && ReadSigned(s) == i
  {
    var s := IntToString(i);
    if i < 0 {
      assert s[1..] == NatToString(-i);
      NatRoundTrip(-i);
    } else {
      NatRoundTrip(i);
    }
  }

  /** `strconv.ParseInt(lit, 0, 64)` on the INT literals the lexer produces (plain digit
      strings): a leading `0` followed by more digits is octal, a digit 8 or 9 there is a syntax
      error, and a value above the int64 maximum is a range error. `None` is the error. */
  function ParseIntLiteral(lit: string): (r: Option<Int64.Int64>)
    ensures r.Some? ==> AllDigits(lit) && |lit| >= 1
    ensures r.Some? && (lit[0] != '0' || |lit| == 1) ==> r.value == ValueIn(lit, 10)
    ensures r.Some? && lit[0] == '0' && |lit| > 1 ==>
              DigitsBelow(lit[1..], 8) && r.value == ValueIn(lit[1..], 8)
    ensures AllDigits(lit) && |lit| >= 1 && (lit[0] != '0' || |lit| == 1) && ValueIn(lit, 10) <= Int64.Max ==>
              r == Some(ValueIn(lit, 10))
    ensures AllDigits(lit) && |lit| > 1 && lit[0] == '0' && DigitsBelow(lit[1..], 8) &&
            ValueIn(lit[1..], 8) <= Int64.Max ==>
              r == Some(ValueIn(lit[1..], 8))
  {
    if |lit| == 0 || !AllDigits(lit) then None
    else if lit[0] == '0' && |lit| > 1 then
      var rest := lit[1..];
      if !DigitsBelow(rest, 8) || ValueIn(rest, 8) > Int64.Max then None
      else Some(ValueIn(rest, 8))
    else if ValueIn(lit, 10) > Int64.Max then None
    else Some(ValueIn(lit, 10))
  }

  /** Every int64 that is not negative survives rendering and re-parsing as a literal. */
  lemma LiteralRoundTrip(n: nat)
    requires n <= Int64.Max
    ensures ParseIntLiteral(NatToString(n)) == Some(n)
  {
    NatRoundTrip(n);
  }
}
