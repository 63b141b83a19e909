/**
 * Decimal rendering of a score, as a JavaScript template literal
 * `${n}` renders an integral number.
 */
module Numerals {

  predicate IsDigit(c: char) {
    '0' <= c <= '9'
  }

  predicate AllDigits(s: string) {
    forall i :: 0 <= i < |s| ==> IsDigit(s[i])
  }

  /** The character for the decimal digit d. */
  function Digit(d: nat): (c: char)
    requires d < 10
    ensures IsDigit(c) && c as int - '0' as int == d
  {
    ('0' as int + d) as char
  }

  /** The value of a string of decimal digits, most significant first. */
  function DigitsValue(s: string): nat
    requires AllDigits(s)
    decreases |s|
  {
    if s == [] then 0
    else DigitsValue(s[..|s| - 1]) * 10 + (s[|s| - 1] as int - '0' as int)
  }

  /** The shortest decimal numeral of n: non-empty, digits only, no leading zero. */
  function NatToString(n: nat): (s: string)
    ensures |s| > 0 && AllDigits(s)
    ensures s[0] == '0' ==> n == 0
    decreases n
  {
    if n < 10 then [Digit(n)] else NatToString(n / 10) + [Digit(n % 10)]
  }

  /** Reading the numeral back gives the number. */
  lemma {:induction false} NatToStringRoundTrip(n: nat)
    ensures DigitsValue(NatToString(n)) == n
  {
    if n >= 10 {
      NatToStringRoundTrip(n / 10);
      var s := NatToString(n / 10);
      assert (s + [Digit(n % 10)])[..|s|] == s;
    }
  }

  /** The numeral of an integer; negative ones carry a leading minus sign. */
  function IntToString(i: int): (s: string)
    ensures |s| > 0
    ensures s[0] == '-' <==> i < 0
    ensures AllDigits(if i < 0 then s[1..] else s)
  {
    if i < 0 then "-" + NatToString(-i) else NatToString(i)
  }

  /** Distinct scores render as distinct numerals. */
  lemma {:induction false} NatToStringInjective(m: nat, n: nat)
    requires NatToString(m) == NatToString(n)
    ensures m == n
  {
    NatToStringRoundTrip(m);
    NatToStringRoundTrip(n);
  }

  lemma {:induction false} IntToStringInjective(i: int, j: int)
    requires IntToString(i) == IntToString(j)
    ensures i == j
  {
    var s := IntToString(i);
    assert (s[0] == '-') == (i < 0) == (j < 0);
    if i < 0 {
      assert NatToString(-i) == s[1..] == NatToString(-j);
      NatToStringInjective(-i, -j);
    } else {
      NatToStringInjective(i, j);
    }
  }
}
