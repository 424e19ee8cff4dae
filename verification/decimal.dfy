/** Decimal rendering of natural numbers, as the timer display needs it:
    JavaScript's `String(n)` for a non-negative integer, `padStart` with a
    fill character, and the inverse reading of a digit string. */
module Decimal {

  predicate IsDigit(c: char) {
    '0' <= c <= '9'
  }

  predicate IsDigits(s: string) {
    forall i :: 0 <= i < |s| ==> IsDigit(s[i])
  }

  function DigitChar(d: nat): (c: char)
    requires d < 10
    ensures IsDigit(c)
  {
    ('0' as int + d) as char
  }

  function DigitValue(c: char): (d: nat)
    requires IsDigit(c)
    ensures d < 10
  {
    c as int - '0' as int
  }

  /** The value of a digit string, read most significant digit first; the
      empty string reads as 0. */
  function Value(s: string): nat
    requires IsDigits(s)
  {
    if |s| == 0 then 0 else Value(s[..|s| - 1]) * 10 + DigitValue(s[|s| - 1])
  }

  /** `s` is a numeral denoting `n`. */
  predicate ReadsAs(s: string, n: nat) {
    IsDigits(s) && Value(s) == n
  }

  /** `String(n)` for a non-negative integer: the shortest decimal numeral,
      without leading zeros (0 itself is "0"). */
  function ToDecimal(n: nat): (r: string)
    ensures IsDigits(r)
    ensures |r| >= 1
    ensures r[0] == '0' <==> n == 0
    ensures n < 10 <==> |r| == 1
  {
    if n < 10 then [DigitChar(n)] else ToDecimal(n / 10) + [DigitChar(n % 10)]
  }

  /** `k` copies of `c`. */
  function Fill(c: char, k: nat): (r: string)
    ensures |r| == k
    ensures forall i :: 0 <= i < k ==> r[i] == c
  {
    if k == 0 then [] else [c] + Fill(c, k - 1)
  }

  /** `s.padStart(width, fill)`: fill is prepended until the string is at
      least `width` long; a longer string is returned as it is. */
  function PadStart(s: string, width: nat, fill: char): (r: string)
    ensures |r| == if |s| >= width then |s| else width
    ensures forall i :: 0 <= i < |r| - |s| ==> r[i] == fill
  {
    if |s| >= width then s else Fill(fill, width - |s|) + s
  }

  /** The padded string ends with the original one. */
  lemma PadStartKeepsSuffix(s: string, width: nat, fill: char)
    ensures var r := PadStart(s, width, fill);
      |r| >= |s| && r[|r| - |s|..] == s
  {
  }

  lemma {:induction false} ValueOfDecimal(n: nat)
    ensures Value(ToDecimal(n)) == n
  {
    if n >= 10 {
      var r := ToDecimal(n);
      assert r[..|r| - 1] == ToDecimal(n / 10);
      ValueOfDecimal(n / 10);
    }
  }

  /** Leading zeros do not change the value of a numeral. */
  lemma {:induction false} ValueIgnoresLeadingZeros(z: string, s: string)
    requires forall i :: 0 <= i < |z| ==> z[i] == '0'
    requires IsDigits(s)
    ensures IsDigits(z + s)
    ensures Value(z + s) == Value(s)
    decreases |s|
  {
    var zs := z + s;
    assert IsDigits(zs) by {
      forall i | 0 <= i < |zs|
        ensures IsDigit(zs[i])
      {
        if i < |z| { assert zs[i] == z[i]; } else { assert zs[i] == s[i - |z|]; }
      }
    }
    if |s| == 0 {
      ValueOfZeros(z);
      assert zs == z;
    } else {
      var t := s[..|s| - 1];
      assert zs[..|zs| - 1] == z + t;
      ValueIgnoresLeadingZeros(z, t);
    }
  }

  lemma {:induction false} ValueOfZeros(z: string)
    requires forall i :: 0 <= i < |z| ==> z[i] == '0'
    ensures IsDigits(z)
    ensures Value(z) == 0
    decreases |z|
  {
    if |z| > 0 {
      ValueOfZeros(z[..|z| - 1]);
    }
  }

  /** Padding a numeral with '0' keeps its value. */
  lemma ValueOfZeroPadded(s: string, width: nat)
    requires IsDigits(s)
    ensures IsDigits(PadStart(s, width, '0'))
    ensures Value(PadStart(s, width, '0')) == Value(s)
  {
    if |s| < width {
      ValueIgnoresLeadingZeros(Fill('0', width - |s|), s);
    }
  }
}
