/** Small facts about real products and quotients used by the interpolation proofs. */
module RealArith {

  lemma ProductNonNegative(u: real, v: real)
    requires u >= 0.0 && v >= 0.0
    ensures u * v >= 0.0
  {
  }

  lemma ProductPositive(u: real, v: real)
    requires u > 0.0 && v > 0.0
    ensures u * v > 0.0
  {
  }

  lemma RatioInUnit(n: real, d: real)
    requires 0.0 < n <= d
    ensures 0.0 < n / d <= 1.0
  {
  }

  lemma ScaledWithin(q: real, w: real)
    requires 0.0 < q <= 1.0 && w >= 0.0
    ensures 0.0 <= q * w <= w
    ensures w > 0.0 ==> q * w > 0.0
  {
    ProductNonNegative(1.0 - q, w);
    ProductNonNegative(q, w);
  }

  lemma MulDiv(d: real, x: real, y: real)
    requires y != 0.0
    ensures d * x / y == d * (x / y)
  {
  }

  /** Scaling `d` by a fraction in (0, 1] stays between 0 and `d`. */
  lemma ScaleBetween(d: real, q: real)
    requires 0.0 <= q <= 1.0
    ensures d >= 0.0 ==> 0.0 <= d * q <= d
    ensures d < 0.0 ==> d <= d * q <= 0.0
  {
    if d >= 0.0 {
      ProductNonNegative(d, q);
      ProductNonNegative(d, 1.0 - q);
    } else {
      ProductNonNegative(-d, q);
      ProductNonNegative(-d, 1.0 - q);
    }
  }

  /** A total within `n` times the bounds gives a mean within the bounds. */
  lemma MeanBetween(total: real, n: real, lo: real, hi: real)
    requires n > 0.0
    requires n * lo <= total <= n * hi
    ensures lo <= total / n <= hi
  {
    assert total / n - lo == (total - n * lo) / n;
    assert hi - total / n == (n * hi - total) / n;
  }

  /** Against a positive divisor, comparing a quotient is comparing the dividend. */
  lemma QuotientAbove(a: real, n: real, c: real)
    requires n > 0.0
    ensures a / n > c <==> a > c * n
  {
    assert a / n - c == (a - c * n) / n;
  }
}
