/** Decimal digit strings and the numbers they denote. */
module Decimals {

  // ------------------------------------------------------------ scaling by powers of ten

  /** x times ten to the e, one decimal place at a time. */
  function Scale10(x: real, e: int): real
    decreases if e >= 0 then e else -e
  {
    if e == 0 then x else if e > 0 then Scale10(10.0 * x, e - 1) else Scale10(0.1 * x, e + 1)
  }

  lemma {:induction false} ScaleIn(x: real, e: int)
    ensures Scale10(10.0 * x, e) == Scale10(x, e + 1)
  {
    assert 0.1 * (10.0 * x) == x;
  }

  lemma {:induction false} ScaleOut(x: real, e: int)
    ensures Scale10(x, e + 1) == 10.0 * Scale10(x, e)
    decreases if e >= 0 then e else -e
  {
    if e > 0 {
      ScaleOut(10.0 * x, e - 1);
    } else if e < 0 {
      ScaleOut(0.1 * x, e + 1);
      ScaleIn(0.1 * x, e + 1);
      ScaleIn(0.1 * x, e);
      assert 10.0 * (0.1 * x) == x;
    } else {
      assert Scale10(x, 1) == Scale10(10.0 * x, 0);
    }
  }

  lemma {:induction false} ScaleTwice(x: real, a: int, b: int)
    ensures Scale10(Scale10(x, a), b) == Scale10(x, a + b)
    decreases if a >= 0 then a else -a
  {
    if a > 0 {
      ScaleTwice(10.0 * x, a - 1, b);
      ScaleIn(x, a - 1 + b);
    } else if a < 0 {
      ScaleTwice(0.1 * x, a + 1, b);
      ScaleIn(0.1 * x, a + b);
      assert 10.0 * (0.1 * x) == x;
    }
  }

  lemma {:induction false} ScaleSum(x: real, y: real, e: int)
    ensures Scale10(x + y, e) == Scale10(x, e) + Scale10(y, e)
    decreases if e >= 0 then e else -e
  {
    if e > 0 {
      ScaleSum(10.0 * x, 10.0 * y, e - 1);
      assert 10.0 * (x + y) == 10.0 * x + 10.0 * y;
    } else if e < 0 {
      ScaleSum(0.1 * x, 0.1 * y, e + 1);
      assert 0.1 * (x + y) == 0.1 * x + 0.1 * y;
    }
  }

  lemma {:induction false} ScaleLess(x: real, y: real, e: int)
    requires x < y
    ensures Scale10(x, e) < Scale10(y, e)
    decreases if e >= 0 then e else -e
  {
    if e > 0 { ScaleLess(10.0 * x, 10.0 * y, e - 1); }
    if e < 0 { ScaleLess(0.1 * x, 0.1 * y, e + 1); }
  }

  lemma {:induction false} ScaleZero(e: int)
    ensures Scale10(0.0, e) == 0.0
    decreases if e >= 0 then e else -e
  {
    if e > 0 { ScaleZero(e - 1); }
    if e < 0 { ScaleZero(e + 1); }
  }

  lemma {:induction false} ScaleNonNegative(x: real, e: int)
    requires x >= 0.0
    ensures Scale10(x, e) >= 0.0
    decreases if e >= 0 then e else -e
  {
    if e > 0 { ScaleNonNegative(10.0 * x, e - 1); }
    if e < 0 { ScaleNonNegative(0.1 * x, e + 1); }
  }

  lemma {:induction false} ScaleGrows(a: int, b: int)
    requires a < b
    ensures 0.0 < Scale10(1.0, a) < Scale10(1.0, b)
    decreases b - a
  {
    ScaleZero(a);
    ScaleLess(0.0, 1.0, a);
    ScaleOut(1.0, a);
    if a + 1 < b { ScaleGrows(a + 1, b); }
  }

  lemma {:induction false} ScaleInjective(x: real, y: real, e: int)
    requires Scale10(x, e) == Scale10(y, e)
    ensures x == y
  {
    if x < y { ScaleLess(x, y, e); }
    if y < x { ScaleLess(y, x, e); }
  }

  // ----------------------------------------------------------------- digit strings

  predicate IsDigit(c: char) {
    '0' <= c <= '9'
  }

  predicate AllDigits(s: string) {
    forall i :: 0 <= i < |s| ==> IsDigit(s[i])
  }

  function DigitValue(c: char): nat
    requires IsDigit(c)
  {
    c as int - '0' as int
  }

  function NatOf(s: string): nat
    requires AllDigits(s)
  {
    if s == "" then 0 else 10 * NatOf(s[..|s|-1]) + DigitValue(s[|s|-1])
  }

  function Num(s: string): real
    requires AllDigits(s)
  {
    NatOf(s) as real
  }

  function Zeros(n: nat): (s: string)
    ensures |s| == n && AllDigits(s) && forall i :: 0 <= i < n ==> s[i] == '0'
  {
    seq(n, i => '0')
  }

  lemma {:induction false} NumSnoc(s: string, c: char)
    requires AllDigits(s) && IsDigit(c)
    ensures AllDigits(s + [c])
    ensures Num(s + [c]) == 10.0 * Num(s) + DigitValue(c) as real
  {
    assert (s + [c])[..|s|] == s;
  }

  lemma {:induction false} NumConcat(a: string, b: string)
    requires AllDigits(a) && AllDigits(b)
    ensures AllDigits(a + b)
    ensures Num(a + b) == Scale10(Num(a), |b|) + Num(b)
    decreases |b|
  {
    if b == "" {
      assert a + b == a;
    } else {
      var init, c := b[..|b|-1], b[|b|-1];
      NumConcat(a, init);
      NumSnoc(a + init, c);
      NumSnoc(init, c);
      ScaleOut(Num(a), |init|);
      assert init + [c] == b;
      assert (a + init) + [c] == a + b;
    }
  }

  lemma {:induction false} NumZeros(n: nat)
    ensures Num(Zeros(n)) == 0.0
  {
    if n > 0 {
      NumZeros(n - 1);
      NumSnoc(Zeros(n - 1), '0');
      assert Zeros(n - 1) + ['0'] == Zeros(n);
    }
  }

  lemma {:induction false} NumBounded(s: string)
    requires AllDigits(s)
    ensures 0.0 <= Num(s) <= Scale10(1.0, |s|) - 1.0
    decreases |s|
  {
    if s != "" {
      var init, c := s[..|s|-1], s[|s|-1];
      NumBounded(init);
      NumSnoc(init, c);
      ScaleOut(1.0, |init|);
      assert init + [c] == s;
    }
  }

  lemma {:induction false} NumOne(c: char)
    requires IsDigit(c)
    ensures AllDigits([c]) && Num([c]) == DigitValue(c) as real
  {
    NumSnoc("", c);
    assert "" + [c] == [c];
  }

  lemma {:induction false} NumHead(s: string)
    requires AllDigits(s) && s != ""
    ensures AllDigits(s[1..])
    ensures Num(s) == Scale10(DigitValue(s[0]) as real, |s| - 1) + Num(s[1..])
  {
    NumOne(s[0]);
    NumConcat([s[0]], s[1..]);
    assert [s[0]] + s[1..] == s;
  }

  lemma {:induction false} NumLeadingZeros(n: nat, s: string)
    requires AllDigits(s)
    ensures AllDigits(Zeros(n) + s) && Num(Zeros(n) + s) == Num(s)
  {
    NumConcat(Zeros(n), s);
    NumZeros(n);
    ScaleZero(|s|);
  }

  lemma {:induction false} SmallerHead(a: string, b: string)
    requires AllDigits(a) && AllDigits(b) && |a| == |b| && a != "" && DigitValue(a[0]) < DigitValue(b[0])
    ensures Num(a) < Num(b)
  {
    var n, x, y := |a| - 1, DigitValue(a[0]) as real, DigitValue(b[0]) as real;
    NumHead(a);
    NumHead(b);
    NumBounded(a[1..]);
    NumBounded(b[1..]);
    ScaleSum(x, 1.0, n);
    if x + 1.0 < y { ScaleLess(x + 1.0, y, n); }
  }

  /** Digit strings of one length are told apart by their value. */
  lemma {:induction false} SameLengthSameDigits(a: string, b: string)
    requires AllDigits(a) && AllDigits(b) && |a| == |b| && Num(a) == Num(b)
    ensures a == b
    decreases |a|
  {
    if a != "" {
      if DigitValue(a[0]) > DigitValue(b[0]) {
        SmallerHead(b, a);
      } else if DigitValue(a[0]) < DigitValue(b[0]) {
        SmallerHead(a, b);
      } else {
        NumHead(a);
        NumHead(b);
        SameLengthSameDigits(a[1..], b[1..]);
        assert a == [a[0]] + a[1..];
        assert b == [b[0]] + b[1..];
      }
    }
  }

  // ------------------------------------------------------- scaled digits, normal form

  /** 0.digits times ten to the point. */
  function Scaled(digits: string, point: int): real
    requires AllDigits(digits)
  {
    Scale10(Num(digits), point - |digits|)
  }

  /** No leading and no trailing zero. */
  predicate Normal(digits: string) {
    digits != "" && AllDigits(digits) && digits[0] != '0' && digits[|digits|-1] != '0'
  }

  lemma {:induction false} NumAtLeast(digits: string)
    requires AllDigits(digits) && digits != "" && digits[0] != '0'
    ensures Num(digits) >= Scale10(1.0, |digits| - 1)
  {
    NumHead(digits);
    NumBounded(digits[1..]);
    var d := DigitValue(digits[0]) as real;
    if 1.0 < d { ScaleLess(1.0, d, |digits| - 1); }
  }

  lemma {:induction false} ScaledBounds(digits: string, point: int)
    requires AllDigits(digits) && digits != "" && digits[0] != '0'
    ensures Scale10(1.0, point - 1) <= Scaled(digits, point) < Scale10(1.0, point)
  {
    var n, e := |digits|, point - |digits|;
    NumAtLeast(digits);
    NumBounded(digits);
    ScaleTwice(1.0, n - 1, e);
    ScaleTwice(1.0, n, e);
    ScaleLess(Num(digits), Scale10(1.0, n), e);
    if Scale10(1.0, n - 1) < Num(digits) { ScaleLess(Scale10(1.0, n - 1), Num(digits), e); }
  }

  lemma {:induction false} SamePoint(p: int, q: int, v: real)
    requires Scale10(1.0, p - 1) <= v < Scale10(1.0, p) && Scale10(1.0, q - 1) <= v < Scale10(1.0, q)
    ensures p == q
  {
    if p < q && p != q - 1 { ScaleGrows(p, q - 1); }
    if q < p && q != p - 1 { ScaleGrows(q, p - 1); }
  }

  lemma {:induction false} PowerBand(point: int, v: real, k: int)
    requires Scale10(1.0, point - 1) <= v < Scale10(1.0, point)
    ensures point > k <==> v >= Scale10(1.0, k)
  {
    if point > k && point - 1 != k { ScaleGrows(k, point - 1); }
    if point <= k && point != k { ScaleGrows(point, k); }
  }

  lemma {:induction false} SevenMore(x: real)
    ensures Scale10(x, 7) == 10000000.0 * x
  {
    assert Scale10(x, 7) == Scale10(10.0 * x, 6) == Scale10(100.0 * x, 5) == Scale10(1000.0 * x, 4);
    assert Scale10(1000.0 * x, 4) == Scale10(10000.0 * x, 3) == Scale10(100000.0 * x, 2);
    assert Scale10(100000.0 * x, 2) == Scale10(1000000.0 * x, 1) == Scale10(10000000.0 * x, 0);
  }

  /** The bounds of plain notation, written out. */
  lemma {:induction false} NotationBounds()
    ensures Scale10(1.0, 21) == 1000000000000000000000.0
    ensures Scale10(1.0, 0) == 1.0
    ensures Scale10(1.0, -6) == 0.000001
  {
    SevenMore(1.0);
    SevenMore(10000000.0);
    SevenMore(100000000000000.0);
    ScaleTwice(1.0, 7, 7);
    ScaleTwice(1.0, 14, 7);
    assert Scale10(1.0, -6) == Scale10(0.1, -5) == Scale10(0.01, -4) == Scale10(0.001, -3);
    assert Scale10(0.001, -3) == Scale10(0.0001, -2) == Scale10(0.00001, -1) == Scale10(0.000001, 0);
  }

  /** Appending zeros leaves the scaled value as it is. */
  lemma {:induction false} ScaledPad(digits: string, k: nat, point: int)
    requires AllDigits(digits)
    ensures AllDigits(digits + Zeros(k)) && Scaled(digits + Zeros(k), point) == Scaled(digits, point)
  {
    NumConcat(digits, Zeros(k));
    NumZeros(k);
    ScaleTwice(Num(digits), k, point - |digits| - k);
  }

  lemma {:induction false} LongerEndsInZero(a: string, b: string, point: int)
    requires Normal(a) && Normal(b) && |a| <= |b| && Scaled(a, point) == Scaled(b, point)
    ensures a == b
  {
    var k := |b| - |a|;
    ScaledPad(a, k, point);
    ScaleInjective(Num(a + Zeros(k)), Num(b), point - |b|);
    SameLengthSameDigits(a + Zeros(k), b);
    if k == 0 { assert a + Zeros(k) == a; }
  }

  /** A positive number has only one normal form. */
  lemma {:induction false} NormalFormUnique(a: string, p: int, b: string, q: int)
    requires Normal(a) && Normal(b) && Scaled(a, p) == Scaled(b, q)
    ensures a == b && p == q
  {
    ScaledBounds(a, p);
    ScaledBounds(b, q);
    SamePoint(p, q, Scaled(a, p));
    if |a| <= |b| { LongerEndsInZero(a, b, p); } else { LongerEndsInZero(b, a, p); }
  }

  // ------------------------------------------------------------- natural numbers in decimal

  /** Python's str(n). */
  function NatText(n: nat): (s: string)
    ensures s != "" && AllDigits(s)
  {
    if n < 10 then [(n + '0' as int) as char] else NatText(n / 10) + [(n % 10 + '0' as int) as char]
  }

  lemma {:induction false} NatTextHead(n: nat)
    ensures n > 0 ==> NatText(n)[0] != '0'
  {
    if n >= 10 { NatTextHead(n / 10); }
  }

  lemma {:induction false} NatTextReads(n: nat)
    ensures NatOf(NatText(n)) == n
  {
    if n >= 10 {
      NatTextReads(n / 10);
      var s, c := NatText(n / 10), (n % 10 + '0' as int) as char;
      assert (s + [c])[..|s|] == s;
    } else {
      assert NatText(n)[..0] == "";
    }
  }
}
