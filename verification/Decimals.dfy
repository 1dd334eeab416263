/**
 * Decimal numerals as text: printing a natural number and reading one back, with the padding and
 * trimming of fraction digits that exact amounts need. Printing and reading undo each other, a
 * numeral has no leading zero unless it is zero itself, and two numbers never share a numeral. The
 * exact BRL amounts, the confirmation payloads, the canonical JSON texts and the keys of the
 * engine's maps are all spelled with these.
 */
module Decimals {

  predicate IsDigit(c: char) {
    '0' <= c <= '9'
  }

  predicate AllDigits(s: string) {
    forall i :: 0 <= i < |s| ==> IsDigit(s[i])
  }

  function DigitValue(c: char): (d: nat)
    requires IsDigit(c)
    ensures d < 10
  {
    c as int - '0' as int
  }

  function DigitChar(d: nat): (c: char)
    requires d < 10
    ensures IsDigit(c) && DigitValue(c) == d
  {
    ('0' as int + d) as char
  }

  /** `String(n)` for a natural number. */
  function Decimal(n: nat): (s: string)
    ensures |s| > 0 && AllDigits(s)
  {
    if n < 10 then [DigitChar(n)] else Decimal(n / 10) + [DigitChar(n % 10)]
  }

  /** The number a digit string denotes; leading zeros are allowed. */
  function Value(s: string): nat
    requires AllDigits(s)
  {
    if |s| == 0 then 0 else Value(s[..|s| - 1]) * 10 + DigitValue(s[|s| - 1])
  }

  function Zeros(n: nat): (s: string)
    ensures |s| == n && AllDigits(s)
  {
    seq(n, _ => '0')
  }

  function PadStart(s: string, width: nat): string {
    if |s| < width then Zeros(width - |s|) + s else s
  }

  function PadEnd(s: string, width: nat): string {
    if |s| < width then s + Zeros(width - |s|) else s
  }

  function TrimTrailingZeros(s: string): string {
    if |s| > 0 && s[|s| - 1] == '0' then TrimTrailingZeros(s[..|s| - 1]) else s
  }

  function Pow10(n: nat): (p: nat)
    ensures p > 0
  {
    if n == 0 then 1 else 10 * Pow10(n - 1)
  }

  lemma {:induction false} ValueOfDecimal(n: nat)
    ensures Value(Decimal(n)) == n
  {
    if n >= 10 {
      ValueOfDecimal(n / 10);
      assert Decimal(n)[..|Decimal(n)| - 1] == Decimal(n / 10);
    }
  }

  lemma DecimalInjective(a: nat, b: nat)
    requires Decimal(a) == Decimal(b)
    ensures a == b
  {
    ValueOfDecimal(a);
    ValueOfDecimal(b);
  }

  /** A numeral without a superfluous leading zero. */
  predicate IsPlainNumeral(s: string) {
    |s| > 0 && AllDigits(s) && (|s| > 1 ==> s[0] != '0')
  }

  lemma {:induction false} DecimalIsPlain(n: nat)
    ensures IsPlainNumeral(Decimal(n))
    ensures n > 0 ==> Decimal(n)[0] != '0'
  {
    if n >= 10 {
      DecimalIsPlain(n / 10);
    }
  }

  lemma {:induction false} PlainPositive(s: string)
    requires |s| > 0 && AllDigits(s) && s[0] != '0'
    ensures Value(s) > 0
  {
    if |s| > 1 {
      PlainPositive(s[..|s| - 1]);
    }
  }

  /** Plain numerals are exactly the printed ones. */
  lemma {:induction false} DecimalOfValue(s: string)
    requires IsPlainNumeral(s)
    ensures Decimal(Value(s)) == s
  {
    if |s| == 1 {
      assert Value(s[..0]) == 0;
    } else {
      var front := s[..|s| - 1];
      DecimalOfValue(front);
      PlainPositive(front);
      assert s == front + [s[|s| - 1]];
    }
  }

  lemma {:induction false} ValueBelowPow10(s: string)
    requires AllDigits(s)
    ensures Value(s) < Pow10(|s|)
  {
    if |s| > 0 {
      ValueBelowPow10(s[..|s| - 1]);
    }
  }

  /** Numerals of one width denote different numbers. */
  lemma {:induction false} FixedWidthInjective(s: string, t: string)
    requires |s| == |t| && AllDigits(s) && AllDigits(t) && Value(s) == Value(t)
    ensures s == t
  {
    if |s| > 0 {
      var n := |s| - 1;
      FixedWidthInjective(s[..n], t[..n]);
      assert s == s[..n] + [s[n]] && t == t[..n] + [t[n]];
    }
  }

  lemma {:induction false} LeadingZeros(n: nat, s: string)
    requires AllDigits(s)
    ensures AllDigits(Zeros(n) + s) && Value(Zeros(n) + s) == Value(s)
  {
    var z := Zeros(n) + s;
    if |s| > 0 {
      LeadingZeros(n, s[..|s| - 1]);
      assert z[..|z| - 1] == Zeros(n) + s[..|s| - 1];
    } else if n > 0 {
      assert z[..|z| - 1] == Zeros(n - 1) + s;
      LeadingZeros(n - 1, s);
    }
  }

  lemma {:induction false} DecimalWidth(n: nat, width: nat)
    requires n < Pow10(width) && width > 0
    ensures |Decimal(n)| <= width
  {
    if n >= 10 {
      DecimalWidth(n / 10, width - 1);
    }
  }

  lemma {:induction false} TrimSplits(s: string)
    requires AllDigits(s)
    ensures |TrimTrailingZeros(s)| <= |s| && AllDigits(TrimTrailingZeros(s))
    ensures TrimTrailingZeros(s) + Zeros(|s| - |TrimTrailingZeros(s)|) == s
    ensures |TrimTrailingZeros(s)| > 0 ==> TrimTrailingZeros(s)[|TrimTrailingZeros(s)| - 1] != '0'
  {
    if |s| > 0 && s[|s| - 1] == '0' {
      TrimSplits(s[..|s| - 1]);
      var t := TrimTrailingZeros(s);
      assert Zeros(|s| - |t|) == Zeros(|s| - 1 - |t|) + "0";
      assert s == s[..|s| - 1] + "0";
    }
  }

}
