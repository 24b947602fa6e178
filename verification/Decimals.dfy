/**
 Decimal numerals: the digit strings behind BigInt(...) and toString(), padding,
 and trimming. Everything here is about strings of the characters '0'..'9'.
 */
module Decimals {

  function Pow10(n: nat): (p: nat)
    ensures p >= 1
  {
    if n == 0 then 1 else 10 * Pow10(n - 1)
  }

  /** BigInt division and remainder of non-negative numbers. */
  function Quotient(v: nat, n: nat): nat
    requires n > 0
  {
    v / n
  }

  function Remainder(v: nat, n: nat): (r: nat)
    requires n > 0
    ensures r < n
  {
    v % n
  }

  lemma QuotientRemainder(v: nat, n: nat)
    requires n > 0
    ensures v == Quotient(v, n) * n + Remainder(v, n)
  {
  }

  /** x * 10^n, by repeated multiplication: ScaleIsProduct ties it to the product. */
  function Scale(x: nat, n: nat): nat {
    if n == 0 then x else 10 * Scale(x, n - 1)
  }

  lemma {:induction false} ScaleIsProduct(x: nat, n: nat)
    ensures Scale(x, n) == x * Pow10(n)
  {
    if n > 0 {
      ScaleIsProduct(x, n - 1);
    }
  }

  lemma {:induction false} ScaleSum(x: nat, y: nat, n: nat)
    ensures Scale(x + y, n) == Scale(x, n) + Scale(y, n)
  {
    if n > 0 {
      ScaleSum(x, y, n - 1);
    }
  }

  lemma {:induction false} ScaleOrder(x: nat, y: nat, n: nat)
    requires x < y
    ensures Scale(x, n) + Pow10(n) <= Scale(y, n)
  {
    if n > 0 {
      ScaleOrder(x, y, n - 1);
    }
  }

  lemma {:induction false} ScalePow(m: nat, n: nat)
    ensures Scale(Pow10(m), n) == Pow10(m + n)
  {
    if n > 0 {
      ScalePow(m, n - 1);
    }
  }

  lemma {:induction false} ScaleZero(n: nat)
    ensures Scale(0, n) == 0
  {
    if n > 0 {
      ScaleZero(n - 1);
    }
  }

  lemma ScaleSplit(value: nat, n: nat)
    ensures value == Scale(Quotient(value, Pow10(n)), n) + Remainder(value, Pow10(n))
  {
    ScaleIsProduct(Quotient(value, Pow10(n)), n);
    QuotientRemainder(value, Pow10(n));
  }

  lemma ScaleUnique(q1: nat, r1: nat, q2: nat, r2: nat, n: nat)
    requires r1 < Pow10(n) && r2 < Pow10(n)
    requires Scale(q1, n) + r1 == Scale(q2, n) + r2
    ensures q1 == q2 && r1 == r2
  {
    if q1 < q2 {
      ScaleOrder(q1, q2, n);
    } else if q2 < q1 {
      ScaleOrder(q2, q1, n);
    }
  }

  predicate IsDigit(c: char) {
    '0' <= c <= '9'
  }

  predicate AllDigits(s: string) {
    forall i | 0 <= i < |s| :: IsDigit(s[i])
  }

  function DigitOf(d: nat): (c: char)
    requires d < 10
    ensures IsDigit(c)
  {
    ('0' as int + d) as char
  }

  function ValueOf(c: char): (d: nat)
    requires IsDigit(c)
    ensures d < 10 && DigitOf(d) == c
  {
    c as int - '0' as int
  }

  /** BigInt(s || '0') for a digit string. */
  function DigitsValue(s: string): nat
    requires AllDigits(s)
  {
    if s == "" then 0 else DigitsValue(s[..|s| - 1]) * 10 + ValueOf(s[|s| - 1])
  }

  /** v.toString() for v >= 0. */
  function ToDecimal(v: nat): (s: string)
    ensures AllDigits(s) && |s| >= 1
    ensures v > 0 ==> s[0] != '0'
    ensures v == 0 ==> s == "0"
  {
    if v < 10 then [DigitOf(v)] else ToDecimal(v / 10) + [DigitOf(v % 10)]
  }

  function Zeros(n: nat): (s: string)
    ensures |s| == n && AllDigits(s)
    ensures forall i | 0 <= i < n :: s[i] == '0'
  {
    seq(n, _ => '0')
  }

  /** s.padStart(n, '0') */
  function PadStart(s: string, n: nat): string {
    if |s| >= n then s else Zeros(n - |s|) + s
  }

  /** s.padEnd(n, '0') */
  function PadEnd(s: string, n: nat): string {
    if |s| >= n then s else s + Zeros(n - |s|)
  }

  /** s.replace(/0+$/, '') */
  function StripTrailingZeros(s: string): string {
    if s != "" && s[|s| - 1] == '0' then StripTrailingZeros(s[..|s| - 1]) else s
  }

  lemma {:induction false} StripSplits(s: string)
    ensures var r := StripTrailingZeros(s);
            && |r| <= |s| && s == r + Zeros(|s| - |r|)
            && (r == "" || r[|r| - 1] != '0')
  {
    if s != "" && s[|s| - 1] == '0' {
      var front := s[..|s| - 1];
      StripSplits(front);
      var r := StripTrailingZeros(front);
      assert Zeros(|s| - |r|) == Zeros(|front| - |r|) + ['0'];
      assert s == front + ['0'];
    } else {
      assert s + Zeros(0) == s;
    }
  }

  // ── Values of concatenations ────────────────────────────────

  lemma {:induction false} ValueOfConcat(a: string, b: string)
    requires AllDigits(a) && AllDigits(b)
    ensures AllDigits(a + b)
    ensures DigitsValue(a + b) == Scale(DigitsValue(a), |b|) + DigitsValue(b)
  {
    if b == "" {
      assert a + b == a;
    } else {
      var m := |b| - 1;
      ValueOfConcat(a, b[..m]);
      assert (a + b)[..|a + b| - 1] == a + b[..m];
      assert (a + b)[|a + b| - 1] == b[m];
    }
  }

  lemma {:induction false} ValueOfZeros(n: nat)
    ensures DigitsValue(Zeros(n)) == 0
  {
    if n > 0 {
      ValueOfZeros(n - 1);
      assert Zeros(n)[..n - 1] == Zeros(n - 1);
    }
  }

  lemma {:induction false} ValueBound(s: string)
    requires AllDigits(s)
    ensures DigitsValue(s) < Pow10(|s|)
  {
    if s != "" {
      ValueBound(s[..|s| - 1]);
    }
  }

  lemma PadStartValue(s: string, n: nat)
    requires AllDigits(s)
    ensures AllDigits(PadStart(s, n))
    ensures DigitsValue(PadStart(s, n)) == DigitsValue(s)
  {
    if |s| < n {
      ValueOfZeros(n - |s|);
      ValueOfConcat(Zeros(n - |s|), s);
      ScaleZero(|s|);
    }
  }

  lemma PadEndValue(s: string, n: nat)
    requires AllDigits(s) && |s| <= n
    ensures AllDigits(PadEnd(s, n))
    ensures DigitsValue(PadEnd(s, n)) == Scale(DigitsValue(s), n - |s|)
  {
    ValueOfConcat(s, Zeros(n - |s|));
    ValueOfZeros(n - |s|);
    assert s + Zeros(0) == s;
  }

  lemma StripValue(s: string)
    requires AllDigits(s)
    ensures var r := StripTrailingZeros(s);
            && AllDigits(r) && |r| <= |s|
            && DigitsValue(s) == Scale(DigitsValue(r), |s| - |r|)
  {
    StripSplits(s);
    var r := StripTrailingZeros(s);
    assert forall i | 0 <= i < |r| :: r[i] == s[i];
    ValueOfConcat(r, Zeros(|s| - |r|));
    ValueOfZeros(|s| - |r|);
  }

  // ── Printing and reading are inverse ────────────────────────

  lemma {:induction false} ReadPrinted(v: nat)
    ensures DigitsValue(ToDecimal(v)) == v
  {
    if v >= 10 {
      ReadPrinted(v / 10);
      var s := ToDecimal(v);
      assert s[..|s| - 1] == ToDecimal(v / 10);
    } else {
      assert ToDecimal(v)[..0] == "";
    }
  }

  /** A numeral without a superfluous leading zero is the one ToDecimal prints. */
  lemma {:induction false} PrintRead(s: string)
    requires AllDigits(s) && |s| >= 1
    requires |s| == 1 || s[0] != '0'
    ensures ToDecimal(DigitsValue(s)) == s
  {
    var front, last := s[..|s| - 1], s[|s| - 1];
    if |s| == 1 {
      assert front == "";
    } else {
      PrintRead(front);
      assert front != "0";
      ReadPrinted(0);
      assert DigitsValue(front) > 0;
      assert s == front + [last];
    }
  }

  lemma {:induction false} PrintedLength(v: nat, n: nat)
    requires n >= 1 && v < Pow10(n)
    ensures |ToDecimal(v)| <= n
  {
    if v >= 10 {
      PrintedLength(v / 10, n - 1);
    }
  }

  /** Digit strings of the same length with the same value are the same string. */
  lemma {:induction false} SameLengthSameValue(a: string, b: string)
    requires AllDigits(a) && AllDigits(b) && |a| == |b|
    requires DigitsValue(a) == DigitsValue(b)
    ensures a == b
  {
    if a != "" {
      var m := |a| - 1;
      var x, y := DigitsValue(a[..m]), DigitsValue(b[..m]);
      var c, d := ValueOf(a[m]), ValueOf(b[m]);
      assert x * 10 + c == y * 10 + d;
      assert x == y && c == d;
      SameLengthSameValue(a[..m], b[..m]);
      assert a == a[..m] + [a[m]];
      assert b == b[..m] + [b[m]];
    }
  }
}
