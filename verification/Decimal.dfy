/** Unsigned decimal numbers, as printf and operator<< write them. */
module Decimal {
  predicate IsDigit(c: char) {
    '0' <= c <= '9'
  }

  predicate AllDigits(s: string) {
    forall i :: 0 <= i < |s| ==> IsDigit(s[i])
  }

  function DigitOf(n: nat): (c: char)
    requires n < 10
    ensures IsDigit(c)
  {
    '0' + n as char
  }

  function DigitValue(c: char): nat
    requires IsDigit(c)
  {
    (c - '0') as nat
  }

  function Print(n: nat): (s: string)
    ensures s != [] && AllDigits(s)
    ensures s[0] == '0' ==> n == 0 && |s| == 1
  {
    if n < 10 then [DigitOf(n)] else Print(n / 10) + [DigitOf(n % 10)]
  }

  function Value(s: string): nat
    requires AllDigits(s)
  {
    if s == [] then 0 else 10 * Value(s[..|s| - 1]) + DigitValue(s[|s| - 1])
  }

  lemma {:induction false} ValueOfPrint(n: nat)
    ensures Value(Print(n)) == n
  {
    if n >= 10 {
      ValueOfPrint(n / 10);
      assert Print(n)[..|Print(n)| - 1] == Print(n / 10);
    }
  }

  function Power10(k: nat): nat {
    if k == 0 then 1 else 10 * Power10(k - 1)
  }

  /** A number below 10^k takes at most k digits. */
  lemma {:induction false} PrintLength(n: nat, k: nat)
    requires k > 0 && n < Power10(k)
    ensures |Print(n)| <= k
    decreases k
  {
    if n >= 10 {
      PrintLength(n / 10, k - 1);
    }
  }

  /** The %0<width>lu conversion. */
  function Padded(n: nat, width: nat): (s: string)
    ensures |s| >= width && |s| >= |Print(n)| && AllDigits(s)
    ensures |s| == width || |s| == |Print(n)|
  {
    var digits := Print(n);
    if |digits| >= width then digits else seq(width - |digits|, _ => '0') + digits
  }

  lemma {:induction false} LeadingZeros(zeros: nat, digits: string)
    requires AllDigits(digits)
    ensures Value(seq(zeros, _ => '0') + digits) == Value(digits)
    decreases |digits|, zeros
  {
    var s := seq(zeros, _ => '0') + digits;
    if digits != [] {
      LeadingZeros(zeros, digits[..|digits| - 1]);
      assert s[..|s| - 1] == seq(zeros, _ => '0') + digits[..|digits| - 1];
    } else if zeros != 0 {
      LeadingZeros(zeros - 1, digits);
      assert s[..|s| - 1] == seq(zeros - 1, _ => '0') + digits;
    } else {
      assert s == digits;
    }
  }

  lemma ValueOfPadded(n: nat, width: nat)
    ensures Value(Padded(n, width)) == n
  {
    ValueOfPrint(n);
    if |Print(n)| < width {
      LeadingZeros(width - |Print(n)|, Print(n));
    }
  }

  /** How many digits a string starts with. */
  function DigitCount(s: string): (k: nat)
    ensures k <= |s| && AllDigits(s[..k])
    ensures k < |s| ==> !IsDigit(s[k])
  {
    if s == [] || !IsDigit(s[0]) then 0
    else
      var k := DigitCount(s[1..]);
      assert s[..k + 1] == [s[0]] + s[1..][..k];
      k + 1
  }

  lemma DigitCountOf(digits: string, rest: string)
    requires AllDigits(digits) && (rest != [] ==> !IsDigit(rest[0]))
    ensures DigitCount(digits + rest) == |digits|
  {
    var s := digits + rest;
    assert s[..|digits|] == digits && s[|digits|..] == rest;
  }
}
