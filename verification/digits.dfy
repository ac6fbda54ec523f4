/** Decimal digit strings: Python's `str(n)` for non-negative integers, and
    reading a run of ASCII digits back as a number. */
module Digits {

  predicate IsDigit(c: char) {
    '0' <= c <= '9'
  }

  predicate AllDigits(s: string) {
    forall i :: 0 <= i < |s| ==> IsDigit(s[i])
  }

  /** Non-empty and made of digits only: what `\d+` matches. */
  predicate IsDigitRun(s: string) {
    |s| > 0 && AllDigits(s)
  }

  /** True when position `k` of `s` holds a digit. */
  predicate DigitAt(s: string, k: int) {
    0 <= k < |s| && IsDigit(s[k])
  }

  function DigitChar(d: nat): (c: char)
    requires d < 10
    ensures IsDigit(c)
  {
    ('0' as int + d) as char
  }

  function DigitValue(c: char): (d: nat)
    requires IsDigit(c)
    ensures d < 10
  {
    c as int - '0' as int
  }

  /** The value of a digit string read most-significant digit first. */
  function DecimalValue(s: string): nat
    requires AllDigits(s)
  {
    if |s| == 0 then 0 else 10 * DecimalValue(s[..|s| - 1]) + DigitValue(s[|s| - 1])
  }

  /** `str(n)` for a natural number: no sign, no leading zeros. */
  function NatText(n: nat): (s: string)
    ensures IsDigitRun(s)
    ensures |s| > 1 ==> s[0] != '0'
    decreases n
  {
    if n < 10 then [DigitChar(n)] else NatText(n / 10) + [DigitChar(n % 10)]
  }

  /** Reading `str(n)` back gives `n`. */
  lemma {:induction false} ValueOfNatText(n: nat)
    ensures DecimalValue(NatText(n)) == n
    decreases n
  {
    if n >= 10 {
      var s := NatText(n);
      assert s[..|s| - 1] == NatText(n / 10);
      ValueOfNatText(n / 10);
    }
  }

  /** `str` is injective on natural numbers. */
  lemma NatTextInjective(m: nat, n: nat)
    requires NatText(m) == NatText(n)
    ensures m == n
  {
    ValueOfNatText(m);
    ValueOfNatText(n);
  }

  /** The number of leading digits of `s` from position `i` on: how far a
      greedy `\d+` starting at `i` reaches. */
  function RunLength(s: string, i: nat): (k: nat)
    requires i <= |s|
    ensures i + k <= |s| && AllDigits(s[i..i + k])
    ensures !DigitAt(s, i + k)
    decreases |s| - i
  {
    if i < |s| && IsDigit(s[i]) then
      var k := 1 + RunLength(s, i + 1);
      assert s[i..i + k] == [s[i]] + s[i + 1..i + k];
      k
    else 0
  }

  /** Digits at positions `i..i + n` followed by a non-digit: exactly what
      greedy `\d+` takes from `i`. */
  lemma {:induction false} RunLengthOfDigits(s: string, i: nat, n: nat)
    requires i + n <= |s| && forall m :: i <= m < i + n ==> IsDigit(s[m])
    requires !DigitAt(s, i + n)
    ensures RunLength(s, i) == n
    decreases n
  {
    if n > 0 {
      RunLengthOfDigits(s, i + 1, n - 1);
    }
  }

  /** The same, for a given digit run found at `i`. */
  lemma RunLengthOfRun(s: string, i: nat, d: string)
    requires i + |d| <= |s| && forall k :: 0 <= k < |d| ==> s[i + k] == d[k]
    requires AllDigits(d)
    requires !DigitAt(s, i + |d|)
    ensures RunLength(s, i) == |d|
  {
    forall m | i <= m < i + |d|
      ensures IsDigit(s[m])
    {
      assert s[i + (m - i)] == d[m - i];
    }
    RunLengthOfDigits(s, i, |d|);
  }
}
