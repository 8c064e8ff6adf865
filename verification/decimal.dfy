/** Decimal digit strings: JavaScript's integer `toString()`, `padStart(2, "0")`,
    and the numeric value of a digit string. */
module Decimal {

  predicate IsDigit(c: char) {
    '0' <= c <= '9'
  }

  function DigitValue(c: char): (d: nat)
    requires IsDigit(c)
    ensures d < 10
  {
    (c as int) - ('0' as int)
  }

  function DigitChar(d: nat): (c: char)
    requires d < 10
    ensures IsDigit(c) && DigitValue(c) == d
  {
    (('0' as int) + d) as char
  }

  predicate IsDigits(s: string) {
    forall i | 0 <= i < |s| :: IsDigit(s[i])
  }

  /** The value of a digit string read in base 10, most significant digit first. */
  function Value(s: string): nat
    requires IsDigits(s)
  {
    if |s| == 0 then 0 else 10 * Value(s[..|s| - 1]) + DigitValue(s[|s| - 1])
  }

  /** `n.toString()` for a non-negative integer: shortest decimal form, no leading zeros. */
  function NatToString(n: nat): (s: string)
    ensures IsDigits(s) && |s| >= 1
    ensures Value(s) == n
    ensures |s| > 1 ==> s[0] != '0'
  {
    if n < 10 then [DigitChar(n)]
    else
      var prefix := NatToString(n / 10);
      var s := prefix + [DigitChar(n % 10)];
      assert s[..|s| - 1] == prefix;
      s
  }

  /** `i.toString()` for any integer: a minus sign in front of the magnitude when negative. */
  function IntToString(i: int): (s: string)
    ensures i >= 0 ==> s == NatToString(i)
    ensures i < 0 ==> s == "-" + NatToString(-i)
  {
    if i < 0 then "-" + NatToString(-i) else NatToString(i)
  }

  /** `s.padStart(2, "0")`: zeros in front until the length is at least 2. */
  function PadStart2(s: string): (r: string)
    ensures |r| == if |s| < 2 then 2 else |s|
    ensures |s| >= 2 ==> r == s
  {
    if |s| == 0 then "00" else if |s| == 1 then "0" + s else s
  }

  /** The padded string ends with the original and everything in front of it is a zero. */
  lemma PadStart2Shape(s: string)
    ensures PadStart2(s)[|PadStart2(s)| - |s|..] == s
    ensures forall i | 0 <= i < |PadStart2(s)| - |s| :: PadStart2(s)[i] == '0'
  {
  }

  /** A zero in front does not change the value. */
  lemma {:induction false} ValueLeadingZero(s: string)
    requires IsDigits(s)
    ensures IsDigits("0" + s) && Value("0" + s) == Value(s)
  {
    var t := "0" + s;
    assert IsDigits(t) by {
      forall i | 0 <= i < |t| ensures IsDigit(t[i]) {
        if i > 0 { assert t[i] == s[i - 1]; }
      }
    }
    if |s| > 0 {
      var p := s[..|s| - 1];
      assert t[..|t| - 1] == "0" + p;
      ValueLeadingZero(p);
    }
  }

  /** Padding a digit string keeps it a digit string of the same value. */
  lemma PadStart2Value(s: string)
    requires IsDigits(s) && |s| >= 1
    ensures IsDigits(PadStart2(s)) && Value(PadStart2(s)) == Value(s)
  {
    if |s| == 1 {
      ValueLeadingZero(s);
    }
  }

  /** One digit below ten, two below a hundred. */
  lemma NatToStringLength(n: nat)
    ensures n < 10 ==> |NatToString(n)| == 1
    ensures 10 <= n < 100 ==> |NatToString(n)| == 2
  {
    if 10 <= n < 100 {
      assert NatToString(n) == NatToString(n / 10) + [DigitChar(n % 10)];
    }
  }
}
