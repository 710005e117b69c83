/**
  Decimal text of integers, as Python's `str` writes an `int`: the layout is
  keyed by `str(row)`, so whether a row is present depends on this encoding.
  `ToNat` is its inverse on digit strings and is what makes the encoding
  injective.
*/
module Decimal {

  predicate IsDigit(c: char) {
    '0' <= c <= '9'
  }

  predicate AllDigits(s: string) {
    forall i :: 0 <= i < |s| ==> IsDigit(s[i])
  }

  function DigitValue(c: char): (d: nat)
    requires IsDigit(c)
    ensures d < 10
  {
    c as int - '0' as int
  }

  function DigitChar(d: nat): (c: char)
    requires d < 10
    ensures IsDigit(c) && DigitValue(c) == d
  {
    ('0' as int + d) as char
  }

  /** Reads a string of decimal digits, most significant first. */
  function ToNat(s: string): nat
    requires AllDigits(s)
  {
    if s == [] then 0 else 10 * ToNat(s[..|s| - 1]) + DigitValue(s[|s| - 1])
  }

  /** The decimal text of `n`, without leading zeros. */
  function FromNat(n: nat): (s: string)
    ensures |s| >= 1 && AllDigits(s)
    ensures ToNat(s) == n
  {
    if n < 10 then [DigitChar(n)]
    else
      var high := FromNat(n / 10);
      var s := high + [DigitChar(n % 10)];
      assert s[..|s| - 1] == high;
      s
  }

  /** The texts `FromInt` produces: digits, with a minus sign in front for a negative number. */
  predicate IsIntText(s: string) {
    || (|s| >= 1 && AllDigits(s))
    || (|s| >= 2 && s[0] == '-' && AllDigits(s[1..]))
  }

  /** Python's `int(s)` on such a text. */
  function ToInt(s: string): int
    requires IsIntText(s)
  {
    if s[0] == '-' then -(ToNat(s[1..]) as int) else ToNat(s)
  }

  /** Python's `str(i)` for an `int`: a minus sign before the digits of a negative number. */
  function FromInt(i: int): (s: string)
    ensures IsIntText(s) && ToInt(s) == i
  {
    if i < 0 then
      var digits := FromNat(-i);
      var s := "-" + digits;
      assert s[1..] == digits;
      s
    else
      var s := FromNat(i);
      assert IsDigit(s[0]);
      s
  }

  /** Distinct integers have distinct decimal texts. */
  lemma FromIntInjective(i: int, j: int)
    requires FromInt(i) == FromInt(j)
    ensures i == j
  {
  }
}
