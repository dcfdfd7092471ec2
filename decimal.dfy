/** Decimal numerals: how a template literal renders a non-negative integer
    (`${n}`), and the value of a digit string, which inverts it. */
module Decimal {

  predicate IsDigit(c: char)
  {
    '0' <= c <= '9'
  }

  predicate AllDigits(s: string)
  {
    forall i :: 0 <= i < |s| ==> IsDigit(s[i])
  }

  function DigitChar(d: nat): (c: char)
    requires d < 10
    ensures IsDigit(c) && c as int - '0' as int == d
  {
    ('0' as int + d) as char
  }

  /** `${n}` for a non-negative integer n: shortest decimal numeral, no sign. */
  function FromNat(n: nat): (s: string)
    ensures |s| >= 1
    ensures AllDigits(s)
    ensures |s| > 1 ==> s[0] != '0'
    decreases n
  {
    if n < 10 then [DigitChar(n)] else FromNat(n / 10) + [DigitChar(n % 10)]
  }

  /** The number a digit string denotes, most significant digit first. */
  function Value(s: string): nat
    requires AllDigits(s)
  {
    if s == [] then 0 else Value(s[..|s| - 1]) * 10 + (s[|s| - 1] as int - '0' as int)
  }

  /** Reading the numeral back gives the number. */
  lemma {:induction false} ValueOfFromNat(n: nat)
    ensures Value(FromNat(n)) == n
    decreases n
  {
    var s := FromNat(n);
    if n >= 10 {
      ValueOfFromNat(n / 10);
      assert s[..|s| - 1] == FromNat(n / 10);
    }
  }

  /** A number in 100..999 renders as exactly three digits. */
  lemma ThreeDigits(n: nat)
    requires 100 <= n <= 999
    ensures |FromNat(n)| == 3
  {
    assert FromNat(n / 10) == FromNat(n / 100) + [DigitChar((n / 10) % 10)];
  }
}
