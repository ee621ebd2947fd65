/** Decimal integers as Rust prints them (`to_string`, `{}`) and reads them (`str::parse`). */
module Decimal {
  import opened Options

  const U32_MAX: nat := 0xFFFF_FFFF
  const I64_MIN: int := -0x8000_0000_0000_0000
  const I64_MAX: int := 0x7FFF_FFFF_FFFF_FFFF

  predicate IsDigit(c: char) { '0' <= c <= '9' }

  function DigitChar(d: nat): (c: char)
    requires d < 10
    ensures IsDigit(c) && DigitValue(c) == d
  {
    ('0' as int + d) as char
  }

  function DigitValue(c: char): (d: nat)
    requires IsDigit(c)
    ensures d < 10
  {
    c as int - '0' as int
  }

  predicate AllDigits(s: string) {
    forall i :: 0 <= i < |s| ==> IsDigit(s[i])
  }

  lemma DigitsHaveNo(s: string, c: char)
    requires AllDigits(s) && !IsDigit(c)
    ensures c !in s
  {
  }

  function Value(s: string): nat
    requires AllDigits(s)
  {
    if s == [] then 0 else 10 * Value(s[..|s| - 1]) + DigitValue(s[|s| - 1])
  }

  /** A number without sign, without leading zeros. */
  function Format(n: nat): (s: string)
    ensures s != [] && AllDigits(s)
    ensures |s| > 1 ==> s[0] != '0'
    ensures n > 0 ==> s[0] != '0'
  {
    if n < 10 then [DigitChar(n)] else Format(n / 10) + [DigitChar(n % 10)]
  }

  lemma {:induction false} FormatValue(n: nat)
    ensures Value(Format(n)) == n
  {
    var s := Format(n);
    if n < 10 {
      assert s[..|s| - 1] == [];
    } else {
      FormatValue(n / 10);
      assert s[..|s| - 1] == Format(n / 10);
    }
  }

  function FormatInt(i: int): string {
    if i < 0 then "-" + Format(-i) else Format(i)
  }

  /** `str::parse` for an unsigned type: an optional plus sign, digits, no overflow. */
  function ParseUnsigned(s: string, max: nat): (r: Option<nat>)
    ensures r.Some? ==> r.value <= max
  {
    var digits := if s != [] && s[0] == '+' then s[1..] else s;
    if digits == [] || !AllDigits(digits) || Value(digits) > max then None
    else Some(Value(digits))
  }

  /** `str::parse` for a signed type. */
  function ParseSigned(s: string, min: int, max: int): (r: Option<int>)
    requires min <= 0 <= max
    ensures r.Some? ==> min <= r.value <= max
  {
    if s != [] && s[0] == '-' then
      var digits := s[1..];
      if digits == [] || !AllDigits(digits) || Value(digits) > -min then None
      else Some(0 - Value(digits))
    else
      match ParseUnsigned(s, max)
      case None => None
      case Some(n) => Some(n)
  }

  /** Printing then parsing is the identity, unsigned and signed. */
  lemma ParseFormat(n: nat, max: nat, min: int)
    requires n <= max && min <= 0
    ensures ParseUnsigned(Format(n), max) == Some(n)
    ensures ParseSigned(Format(n), min, max) == Some(n)
  {
    FormatValue(n);
  }

  lemma ParseFormatInt(i: int, min: int, max: int)
    requires min <= 0 <= max && min <= i <= max
    ensures ParseSigned(FormatInt(i), min, max) == Some(i)
  {
    if i < 0 {
      FormatValue(-i);
      assert FormatInt(i)[1..] == Format(-i);
    } else {
      ParseFormat(i, max, min);
    }
  }
}
