/** Decimal printing and reading of naturals. */
module Digits {
  predicate IsDigit(c: char) { '0' <= c <= '9' }

  predicate AllDigits(s: string) {
    forall i :: 0 <= i < |s| ==> IsDigit(s[i])
  }

  function DigitOf(d: nat): (c: char)
    requires d < 10
    ensures IsDigit(c)
  {
    ['0', '1', '2', '3', '4', '5', '6', '7', '8', '9'][d]
  }

  function ValueOf(c: char): (d: nat)
    requires IsDigit(c)
    ensures d < 10 && DigitOf(d) == c
  {
    c as int - '0' as int
  }

  function ToDecimal(n: nat): (s: string)
    ensures s != "" && AllDigits(s)
  {
    if n < 10 then [DigitOf(n)] else ToDecimal(n / 10) + [DigitOf(n % 10)]
  }

  /** The number a string of digits denotes. */
  function Value(s: string): nat
    requires AllDigits(s)
  {
    if s == "" then 0 else 10 * Value(s[..|s| - 1]) + ValueOf(s[|s| - 1])
  }

  /** Pad on the left to at least `width` characters. */
  function PadLeft(s: string, width: nat): (r: string)
    ensures AllDigits(s) ==> AllDigits(r)
    ensures |r| == if |s| < width then width else |s|
    decreases width - |s|
  {
    if |s| >= width then s else PadLeft("0" + s, width)
  }

  lemma {:induction false} ReadBack(n: nat)
    ensures Value(ToDecimal(n)) == n
  {
    if n >= 10 {
      ReadBack(n / 10);
      assert (ToDecimal(n / 10) + [DigitOf(n % 10)])[..|ToDecimal(n / 10)|] == ToDecimal(n / 10);
    }
  }

  lemma {:induction false} LeadingZero(s: string)
    requires AllDigits(s)
    ensures AllDigits("0" + s) && Value("0" + s) == Value(s)
  {
    if s == "" {
      assert ("0" + s)[..0] == "";
    } else {
      LeadingZero(s[..|s| - 1]);
      assert ("0" + s)[..|s|] == "0" + s[..|s| - 1];
    }
  }

  /** Padding does not change the number, whatever the width. */
  lemma {:induction false} PadReadBack(s: string, width: nat)
    requires AllDigits(s)
    ensures Value(PadLeft(s, width)) == Value(s)
    decreases width - |s|
  {
    if |s| < width {
      LeadingZero(s);
      PadReadBack("0" + s, width);
    }
  }

  function Pow10(w: nat): nat { if w == 0 then 1 else 10 * Pow10(w - 1) }

  /** Numbers below a power of ten print in as many digits. */
  lemma {:induction false} DecimalLength(n: nat, w: nat)
    requires w >= 1 && n < Pow10(w)
    ensures |ToDecimal(n)| <= w
  {
    if n >= 10 && w > 1 {
      DecimalLength(n / 10, w - 1);
    }
  }

  /** Numbers from a power of ten on need more digits. */
  lemma {:induction false} DecimalIsLonger(n: nat, w: nat)
    requires n >= Pow10(w)
    ensures |ToDecimal(n)| > w
  {
    if w > 0 {
      assert n >= 10 * Pow10(w - 1) && Pow10(w - 1) >= 1 by {
        PowIsPositive(w - 1);
      }
      DecimalIsLonger(n / 10, w - 1);
    }
  }

  lemma {:induction false} PowIsPositive(w: nat)
    ensures Pow10(w) >= 1
  {
    if w > 0 {
      PowIsPositive(w - 1);
    }
  }

  /** Padding adds nothing but zeros. */
  lemma {:induction false} PadMembers(s: string, width: nat, c: char)
    requires c in PadLeft(s, width)
    ensures c in s || c == '0'
    decreases width - |s|
  {
    if |s| < width {
      PadMembers("0" + s, width, c);
    }
  }
}
