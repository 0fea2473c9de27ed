/** Small nonlinear facts, each proved once and alone. */
module Arithmetic {

  lemma NonNegative(a: real, b: real)
    requires a >= 0.0 && b >= 0.0
    ensures a * b >= 0.0
  {
  }

  lemma Positive(a: real, b: real)
    requires a > 0.0 && b > 0.0
    ensures a * b > 0.0
  {
  }

  lemma Scale(m: real, a: real, b: real)
    requires 0.0 <= m && a <= b
    ensures a * m <= b * m && m * a <= m * b
  {
    NonNegative(b - a, m);
    assert (b - a) * m == b * m - a * m;
  }

  lemma Cancel(x: real, y: real, n: real)
    requires n > 0.0 && x * n <= y * n
    ensures x <= y
  {
    assert (x - y) * n == x * n - y * n;
    if x > y {
      Positive(x - y, n);
    }
  }

  /** A multiple, by repeated addition. */
  function Times(a: real, k: nat): real {
    if k == 0 then 0.0 else Times(a, k - 1) + a
  }

  lemma {:induction false} TimesIsProduct(a: real, k: nat)
    ensures Times(a, k) == a * k as real
  {
    if k > 0 {
      TimesIsProduct(a, k - 1);
      assert a * k as real == a * (k - 1) as real + a;
    }
  }

  lemma {:induction false} TimesAdds(a: real, b: real, k: nat)
    ensures Times(a + b, k) == Times(a, k) + Times(b, k)
  {
    if k > 0 {
      TimesAdds(a, b, k - 1);
    }
  }

  lemma AtLeastOnce(k: int, d: int)
    requires k >= 1 && d > 0
    ensures k * d >= d
  {
    assert (k - 1) * d >= 0;
  }

  lemma SmallMultiple(k: int, d: int)
    requires d > 0 && -d < k * d < d
    ensures k == 0
  {
    if k >= 1 {
      AtLeastOnce(k, d);
    } else if k <= -1 {
      assert (-k) * d == -(k * d);
      AtLeastOnce(-k, d);
    }
  }

  /** Quotient and remainder are the only ones there are. */
  lemma Quotient(n: int, d: int, q: int, m: int)
    requires d > 0 && n == q * d + m && 0 <= m < d
    ensures n / d == q && n % d == m
  {
    var p, r := n / d, n % d;
    assert n == p * d + r;
    assert (q - p) * d == q * d - p * d == r - m;
    SmallMultiple(q - p, d);
  }
}
