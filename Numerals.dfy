/**
 * The two pieces of Rust's integer text handling that the client relies on:
 * `to_string` on integers (query parameters, the numeric status text) and
 * `str::parse::<i32>()` (the rate-limit headers).
 */
module Numerals {
  import opened Wrappers

  /** Rust's `i32`. */
  type Int32 = x: int | -0x8000_0000 <= x < 0x8000_0000

  predicate IsDigit(c: char) {
    '0' <= c <= '9'
  }

  predicate AllDigits(s: string) {
    forall i :: 0 <= i < |s| ==> IsDigit(s[i])
  }

  function DigitValue(c: char): nat
    requires IsDigit(c)
  {
    c as int - '0' as int
  }

  function DigitChar(d: nat): (c: char)
    requires d < 10
    ensures IsDigit(c) && DigitValue(c) == d
  {
    ('0' as int + d) as char
  }

  /** Decimal text of a natural number, most significant digit first, without leading zeros. */
  function NatToString(n: nat): (s: string)
    ensures |s| > 0 && AllDigits(s)
    ensures |s| > 1 ==> s[0] != '0'
    ensures s[0] == '0' ==> n == 0 && s == "0"
    decreases n
  {
    if n < 10 then [DigitChar(n)] else NatToString(n / 10) + [DigitChar(n % 10)]
  }

  /** The number a string of decimal digits denotes (the empty string denotes 0). */
  function DigitsValue(s: string): nat
    requires AllDigits(s)
  {
    if s == [] then 0 else DigitsValue(s[..|s| - 1]) * 10 + DigitValue(s[|s| - 1])
  }

  /** What follows an optional leading '+' or '-'. */
  function Unsigned(s: string): string {
    if |s| > 0 && (s[0] == '+' || s[0] == '-') then s[1..] else s
  }

  /** An optional sign followed by at least one decimal digit, and nothing else. */
  predicate IsSignedDecimal(s: string) {
    |Unsigned(s)| > 0 && AllDigits(Unsigned(s))
  }

  /** The integer a signed decimal denotes, whatever its size. */
  function SignedDecimalValue(s: string): int
    requires IsSignedDecimal(s)
  {
    if s[0] == '-' then -(DigitsValue(Unsigned(s)) as int) else DigitsValue(Unsigned(s))
  }

  predicate InI32Range(v: int) {
    -0x8000_0000 <= v < 0x8000_0000
  }

  /**
   * Rust's `Display` for a signed integer: a '-' in front of negative values and nothing in
   * front of the others, then the magnitude without leading zeros.
   */
  function IntToString(n: int): (s: string)
    ensures |s| > 0
    ensures s[0] == '-' <==> n < 0
    ensures s[0] != '+'
    ensures AllDigits(s[1..])
    ensures n >= 0 ==> AllDigits(s)
    ensures |Unsigned(s)| > 0 && (Unsigned(s)[0] == '0' ==> s == "0")
    ensures IsSignedDecimal(s) && SignedDecimalValue(s) == n
  {
    if n < 0 then
      var t := NatToString(-n);
      DigitsValueOfNatToString(-n);
      assert Unsigned("-" + t) == t;
      "-" + t
    else
      DigitsValueOfNatToString(n);
      NatToString(n)
  }

  /**
   * `str::parse::<i32>()`: an optional '+' or '-' followed by at least one decimal digit and
   * nothing else, whose value fits in an `i32`. Whitespace, a lone sign, the empty string and
   * an overflowing value are all errors; leading zeros and a '+' are accepted.
   */
  function ParseI32(s: string): (r: Option<Int32>)
    ensures r.Some? <==> IsSignedDecimal(s) && InI32Range(SignedDecimalValue(s))
    ensures r.Some? ==> r.value == SignedDecimalValue(s)
    ensures r.Some? ==> |s| > 0 && AllDigits(s[1..])
    ensures r.Some? ==> IsDigit(s[0]) || s[0] == '+' || s[0] == '-'
  {
    if s == [] then None
    else if (s[0] == '+' || s[0] == '-') && |s| == 1 then None
    else
      var digits := if s[0] == '+' || s[0] == '-' then s[1..] else s;
      if !AllDigits(digits) then None
      else
        var v: int := if s[0] == '-' then -(DigitsValue(digits) as int) else DigitsValue(digits);
        if -0x8000_0000 <= v < 0x8000_0000 then Some(v) else None
  }

  /** A '+' sign and leading zeros do not change what a decimal reads as; a leading space is refused. */
  lemma ParseI32Samples()
    ensures ParseI32("+7") == Some(7)
    ensures ParseI32("007") == Some(7)
    ensures ParseI32("-0") == Some(0)
    ensures ParseI32(" 7") == None
    ensures ParseI32("+") == None
  {
    assert Unsigned("+7") == "7";
    assert Unsigned("-0") == "0";
    assert DigitsValue("00") == 0 by { assert "00"[..1] == "0"; }
    assert "007"[..2] == "00";
  }

  /** Reading back the decimal text of a natural number gives the number. */
  lemma {:induction false} DigitsValueOfNatToString(n: nat)
    ensures DigitsValue(NatToString(n)) == n
  {
    var s := NatToString(n);
    if n < 10 {
      assert s[..|s| - 1] == [];
    } else {
      var t := NatToString(n / 10);
      assert s == t + [DigitChar(n % 10)];
      assert s[..|s| - 1] == t;
      DigitsValueOfNatToString(n / 10);
    }
  }

  /** Parsing the text Rust prints for an `i32` gives back that `i32`. */
  lemma ParseI32OfIntToString(n: Int32)
    ensures ParseI32(IntToString(n)) == Some(n)
  {
    var s := IntToString(n);
    assert Unsigned(s) == s[1..] || Unsigned(s) == s;
  }
}
