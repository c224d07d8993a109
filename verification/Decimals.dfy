/** Numbers in decimal notation, as the generated names contain them. */
module Decimals {
  function Digit(i: nat): char
    requires i < 10
  {
    ['0', '1', '2', '3', '4', '5', '6', '7', '8', '9'][i]
  }

  function Decimal(i: nat): string {
    if i < 10 then [Digit(i)] else Decimal(i / 10) + [Digit(i % 10)]
  }

  lemma DigitInjective(i: nat, j: nat)
    requires i < 10 && j < 10 && Digit(i) == Digit(j)
    ensures i == j
  {
  }

  lemma {:induction false} DecimalInjective(i: nat, j: nat)
    requires Decimal(i) == Decimal(j)
    ensures i == j
    decreases i
  {
    var s, t := Decimal(i), Decimal(j);
    assert s[|s| - 1] == Digit(i % 10) && t[|t| - 1] == Digit(j % 10);
    DigitInjective(i % 10, j % 10);
    if i >= 10 && j >= 10 {
      assert s[..|s| - 1] == Decimal(i / 10) && t[..|t| - 1] == Decimal(j / 10);
      DecimalInjective(i / 10, j / 10);
    } else if i >= 10 {
      DecimalSize(i / 10);
    } else if j >= 10 {
      DecimalSize(j / 10);
    }
  }

  lemma DecimalSize(i: nat)
    ensures |Decimal(i)| >= 1
  {
  }

  predicate IsDigit(c: char) {
    '0' <= c <= '9'
  }

  lemma {:induction false} DecimalDigits(i: nat)
    ensures Decimal(i) != [] && forall k :: 0 <= k < |Decimal(i)| ==> IsDigit(Decimal(i)[k])
    decreases i
  {
    if i >= 10 {
      DecimalDigits(i / 10);
    }
  }

  // Positions

  function Pow(b: nat, k: nat): (p: nat)
    requires b > 0
    ensures p > 0
  {
    if k == 0 then 1 else b * Pow(b, k - 1)
  }

  lemma PowStep(b: nat, k: nat)
    requires b > 0
    ensures Pow(b, 0) == 1 && (k > 0 ==> Pow(b, k) == b * Pow(b, k - 1))
  {
  }

  lemma TenTimes(n: nat, q: nat, r: nat, b: nat, p: nat, s: nat)
    requires n == 10 * q + r && r < 10 && q == b * p + s && s < b
    ensures n == (10 * b) * p + (10 * s + r) && 10 * s + r < 10 * b
  {
    assert (10 * b) * p == 10 * (b * p);
  }

  lemma SixteenTimes(n: nat, q: nat, r: nat, b: nat, p: nat, s: nat)
    requires n == 16 * q + r && r < 16 && q == b * p + s && s < b
    ensures n == (16 * b) * p + (16 * s + r) && 16 * s + r < 16 * b
  {
    assert (16 * b) * p == 16 * (b * p);
  }

  lemma Divided(n: nat, d: nat)
    requires d > 0
    ensures n == d * (n / d) + n % d && n % d < d
  {
  }

  lemma DivideByTen(n: nat, b: nat)
    requires b > 0
    ensures n / 10 / b == n / (10 * b)
  {
    Divided(n / 10, b);
    TenTimes(n, n / 10, n % 10, b, n / 10 / b, n / 10 % b);
    QuotientIs(n, 10 * b, n / 10 / b, 10 * (n / 10 % b) + n % 10);
  }

  lemma DivideBySixteen(n: nat, b: nat)
    requires b > 0
    ensures n / 16 / b == n / (16 * b)
  {
    Divided(n / 16, b);
    SixteenTimes(n, n / 16, n % 16, b, n / 16 / b, n / 16 % b);
    QuotientIs(n, 16 * b, n / 16 / b, 16 * (n / 16 % b) + n % 16);
  }

  lemma Distribute(a: int, x: int, y: int)
    ensures a * (x + y) == a * x + a * y
  {
  }

  lemma Monotone(a: nat, x: nat, y: nat)
    requires x <= y
    ensures a * x <= a * y
  {
  }

  lemma QuotientIs(n: nat, d: nat, q: nat, r: nat)
    requires d > 0 && n == d * q + r && r < d
    ensures n / d == q
  {
    var q1, r1 := n / d, n % d;
    assert n == d * q1 + r1;
    if q1 < q {
      Monotone(d, q1 + 1, q);
      Distribute(d, q1, 1);
    } else if q < q1 {
      Monotone(d, q + 1, q1);
      Distribute(d, q, 1);
    }
  }

  /** The digit with k digits after it counts the k-th powers of ten. */
  lemma {:induction false} DecimalAt(i: nat, k: nat)
    requires k < |Decimal(i)|
    ensures Decimal(i)[|Decimal(i)| - 1 - k] as int == '0' as int + i / Pow(10, k) % 10
    decreases k
  {
    hide Digit, Pow;
    DigitIs(i % 10);
    PowStep(10, k);
    if k > 0 {
      DecimalAt(i / 10, k - 1);
      DivideByTen(i, Pow(10, k - 1));
    }
  }

  lemma DigitIs(i: nat)
    requires i < 10
    ensures Digit(i) as int == '0' as int + i
  {
  }

  /** No digit in front is missing, and none is zero but that of zero. */
  lemma {:induction false} DecimalLength(i: nat)
    ensures |Decimal(i)| > 0 && i < Pow(10, |Decimal(i)|)
    ensures |Decimal(i)| > 1 ==> Pow(10, |Decimal(i)| - 1) <= i
    decreases i
  {
    if i >= 10 {
      DecimalLength(i / 10);
      assert |Decimal(i)| == |Decimal(i / 10)| + 1;
    } else {
      assert Pow(10, 1) == 10 * Pow(10, 0);
    }
  }
}
