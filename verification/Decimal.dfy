/** Decimal text of integers: `printf("%ld")`, `strtoll(..., 10)` and `atol`. */
module Decimal {

  const INT64_MIN: int := -0x8000_0000_0000_0000
  const INT64_MAX: int := 0x7fff_ffff_ffff_ffff

  predicate IsDigit(c: char) {
    '0' <= c <= '9'
  }

  predicate AllDigits(s: string) {
    forall i :: 0 <= i < |s| ==> IsDigit(s[i])
  }

  function DigitValue(c: char): (d: nat)
    requires IsDigit(c)
    ensures d <= 9
  {
    (c as int) - ('0' as int)
  }

  function DigitChar(d: nat): (c: char)
    requires d <= 9
    ensures IsDigit(c) && DigitValue(c) == d
  {
    (d + ('0' as int)) as char
  }

  /** The value of a digit string, most significant digit first. */
  function DigitsValue(s: string): nat
    requires AllDigits(s)
  {
    if s == [] then 0 else 10 * DigitsValue(s[..|s| - 1]) + DigitValue(s[|s| - 1])
  }

  /** `%ld` of a natural number. */
  function NatText(n: nat): (s: string)
    ensures s != [] && AllDigits(s)
  {
    if n <= 9 then [DigitChar(n)] else NatText(n / 10) + [DigitChar(n % 10)]
  }

  function IntText(n: int): string {
    if n < 0 then "-" + NatText(-n) else NatText(n)
  }

  lemma {:induction false} NatTextValue(n: nat)
    ensures DigitsValue(NatText(n)) == n
  {
    var s := NatText(n);
    if n <= 9 {
      assert s[..0] == [];
    } else {
      NatTextValue(n / 10);
      assert s[..|s| - 1] == NatText(n / 10);
    }
  }

  function Clamp(n: int): int {
    if n < INT64_MIN then INT64_MIN else if n > INT64_MAX then INT64_MAX else n
  }

  /** How many digits start `s`. */
  function DigitRun(s: string): (k: nat)
    ensures k <= |s| && AllDigits(s[..k]) && (k < |s| ==> !IsDigit(s[k]))
  {
    if s == [] || !IsDigit(s[0]) then 0
    else
      var k := DigitRun(s[1..]);
      assert s[..k + 1] == [s[0]] + s[1..][..k];
      k + 1
  }

  lemma {:induction false} DigitRunOf(digits: string, rest: string)
    requires AllDigits(digits)
    requires rest == [] || !IsDigit(rest[0])
    ensures DigitRun(digits + rest) == |digits|
  {
    if digits == [] {
      assert digits + rest == rest;
    } else {
      DigitRunOf(digits[1..], rest);
      assert (digits + rest)[1..] == digits[1..] + rest;
    }
  }

  /** `atol` and `strtoll(s, NULL, 10)` without leading white space: an optional
      sign, then the longest run of digits; out-of-range values saturate. */
  function ParseInt(s: string): int {
    if s != [] && (s[0] == '-' || s[0] == '+') then
      var k := DigitRun(s[1..]);
      var v: int := DigitsValue(s[1..][..k]);
      Clamp(if s[0] == '-' then -v else v)
    else
      Clamp(DigitsValue(s[..DigitRun(s)]))
  }

  /** Digits in front of something else, alone and behind a minus sign. */
  lemma ParseDigits(digits: string, rest: string)
    requires AllDigits(digits) && digits != [] && (rest == [] || !IsDigit(rest[0]))
    ensures ParseInt(digits + rest) == Clamp(DigitsValue(digits))
  {
    hide DigitRun, DigitsValue, Clamp;
    DigitRunOf(digits, rest);
    var s := digits + rest;
    assert s[0] == digits[0] && IsDigit(digits[0]) && s[..|digits|] == digits;
  }

  lemma ParseSigned(digits: string, rest: string)
    requires AllDigits(digits) && digits != [] && (rest == [] || !IsDigit(rest[0]))
    ensures ParseInt("-" + digits + rest) == Clamp(-(DigitsValue(digits) as int))
  {
    hide DigitRun, DigitsValue, Clamp, AllDigits;
    DigitRunOf(digits, rest);
    var s, t := "-" + digits + rest, digits + rest;
    assert s[0] == '-' && s[1..] == t && t[..|digits|] == digits;
  }

  /** Reading back a printed 64-bit integer, whatever non-digit follows it. */
  lemma ParseIntText(n: int, rest: string)
    requires INT64_MIN <= n <= INT64_MAX
    requires rest == [] || !IsDigit(rest[0])
    ensures ParseInt(IntText(n) + rest) == n
  {
    hide NatText, DigitsValue, ParseInt, AllDigits;
    if n < 0 {
      NatTextValue(-n);
      ParseSigned(NatText(-n), rest);
    } else {
      NatTextValue(n);
      ParseDigits(NatText(n), rest);
    }
  }

  /** A further digit counts once and what stands before it ten times; too large a value is
      the largest 64-bit one. */
  lemma PlaceValue(s: string, c: char)
    requires '0' <= c <= '9' && forall i :: 0 <= i < |s| ==> '0' <= s[i] <= '9'
    ensures ParseInt("") == 0
    ensures
      var n := 10 * ParseInt(s) + ((c as int) - ('0' as int));
      ParseInt(s + [c]) == if n <= 0x7fff_ffff_ffff_ffff then n else 0x7fff_ffff_ffff_ffff
  {
    hide DigitRun;
    DigitsAlone(s);
    DigitsAlone(s + [c]);
    DigitsAlone("");
    assert (s + [c])[..|s|] == s;
  }

  lemma DigitsAlone(s: string)
    requires AllDigits(s)
    ensures ParseInt(s) == Clamp(DigitsValue(s))
  {
    hide Clamp;
    if s != [] {
      ParseDigits(s, []);
      assert s + [] == s;
    }
  }
}
