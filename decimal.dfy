/** Python's zero-padded integer formatting `f"{n:0{width}}"` for non-negative
    `n`, and its inverse, the value of a string of decimal digits. */
module Decimal {

  predicate IsDigit(ch: char) { '0' <= ch <= '9' }

  predicate AllDigits(s: string) { forall i :: 0 <= i < |s| ==> IsDigit(s[i]) }

  function DigitChar(d: nat): (ch: char)
    requires d < 10
    ensures IsDigit(ch)
  {
    "0123456789"[d]
  }

  function DigitValue(ch: char): (d: nat)
    requires IsDigit(ch)
    ensures d < 10
  {
    (ch as int - '0' as int) as nat
  }

  /** The shortest decimal representation of `n`: `str(n)`. */
  function Digits(n: nat): (s: string)
    ensures 1 <= |s| && AllDigits(s)
  {
    if n < 10 then [DigitChar(n)] else Digits(n / 10) + [DigitChar(n % 10)]
  }

  /** `f"{n:0{width}}"`: `str(n)` with zeros in front up to `width` characters;
      never cut, so a wider number keeps all its digits. */
  function ZeroPadded(n: nat, width: nat): (s: string)
    ensures AllDigits(s)
    ensures |s| == if |Digits(n)| < width then width else |Digits(n)|
  {
    var digits := Digits(n);
    if |digits| < width then seq(width - |digits|, _ => '0') + digits else digits
  }

  /** The number a string of decimal digits denotes (leading zeros allowed). */
  function Value(s: string): nat
    requires AllDigits(s)
  {
    if s == [] then 0 else 10 * Value(s[..|s| - 1]) + DigitValue(s[|s| - 1])
  }

  lemma {:induction false} ValueOfDigits(n: nat)
    ensures Value(Digits(n)) == n
  {
    if n >= 10 {
      var s := Digits(n);
      assert s[..|s| - 1] == Digits(n / 10);
      ValueOfDigits(n / 10);
    }
  }

  /** Leading zeros do not change the value. */
  lemma {:induction false} ValueOfZeros(zeros: string, s: string)
    requires forall i :: 0 <= i < |zeros| ==> zeros[i] == '0'
    requires AllDigits(s)
    ensures Value(zeros + s) == Value(s)
    decreases |s| + |zeros|
  {
    if s == [] {
      assert zeros + s == zeros;
      if zeros != [] {
        ValueOfZeros(zeros[..|zeros| - 1], []);
        assert zeros[..|zeros| - 1] + [] == zeros[..|zeros| - 1];
      }
    } else {
      assert (zeros + s)[..|zeros + s| - 1] == zeros + s[..|s| - 1];
      ValueOfZeros(zeros, s[..|s| - 1]);
    }
  }

  /** Formatting then reading back gives the number: the formatting loses
      nothing, whatever the width. */
  lemma ValueOfZeroPadded(n: nat, width: nat)
    ensures Value(ZeroPadded(n, width)) == n
  {
    var digits := Digits(n);
    ValueOfDigits(n);
    if |digits| < width {
      ValueOfZeros(seq(width - |digits|, _ => '0'), digits);
    }
  }

  /** Different numbers are formatted differently. */
  lemma ZeroPaddedInjective(m: nat, n: nat, width: nat)
    requires ZeroPadded(m, width) == ZeroPadded(n, width)
    ensures m == n
  {
    ValueOfZeroPadded(m, width);
    ValueOfZeroPadded(n, width);
  }
}
