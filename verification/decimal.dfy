/** Decimal rendering of integers, as used when damage numbers are written into log lines. */
module Decimal {

  predicate IsDigit(c: char) {
    '0' <= c <= '9'
  }

  function DigitChar(d: nat): (c: char)
    requires d < 10
    ensures IsDigit(c) && c as int - '0' as int == d
  {
    (d + '0' as int) as char
  }

  /** The shortest decimal numeral of n. */
  function NatToString(n: nat): (r: string)
    ensures 0 < |r|
    ensures forall i :: 0 <= i < |r| ==> IsDigit(r[i])
    ensures |r| > 1 ==> r[0] != '0'
  {
    if n < 10 then [DigitChar(n)] else NatToString(n / 10) + [DigitChar(n % 10)]
  }

  /** The value of a numeral made of digits. */
  function Value(s: string): nat
    requires forall i :: 0 <= i < |s| ==> IsDigit(s[i])
  {
    if |s| == 0 then 0
    else
      assert IsDigit(s[|s| - 1]);
      Value(s[..|s| - 1]) * 10 + (s[|s| - 1] as int - '0' as int)
  }

  /** Reading back a rendered numeral gives the number. */
  lemma {:induction false} ValueOfNatToString(n: nat)
    ensures Value(NatToString(n)) == n
  {
    var r := NatToString(n);
    if n < 10 {
      assert r[..0] == [];
    } else {
      ValueOfNatToString(n / 10);
      assert r[..|r| - 1] == NatToString(n / 10);
    }
  }

  /** The digits of a numeral, read back, give the number it was written for. */
  predicate Reads(digits: string, n: nat) {
    && (forall i :: 0 <= i < |digits| ==> IsDigit(digits[i]))
    && Value(digits) == n
  }

  /** The shortest numeral of n: digits that read back as n, with no leading zero. */
  predicate Numeral(digits: string, n: nat) {
    && 0 < |digits|
    && Reads(digits, n)
    && (|digits| > 1 ==> digits[0] != '0')
  }

  /** The text Python's string formatting produces for an int. */
  function IntToString(i: int): (r: string)
    ensures 0 < |r|
    // a non-negative number is its digits alone; a negative one is '-' before the digits of -i
    ensures i >= 0 ==> Numeral(r, i)
    ensures i < 0 ==> r[0] == '-' && Numeral(r[1..], -i)
  {
    if i < 0 then
      ValueOfNatToString(-i);
      "-" + NatToString(-i)
    else
      ValueOfNatToString(i);
      NatToString(i)
  }
}
