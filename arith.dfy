/** Small facts of real arithmetic that the solver needs spelled out. */
module Arith {

  function Sq(r: real): real { r * r }

  lemma SqNonNegative(a: real)
    ensures Sq(a) >= 0.0
  {}

  lemma MulNonNegative(a: real, b: real)
    requires a >= 0.0 && b >= 0.0
    ensures a * b >= 0.0
  {}

  lemma MulPositive(a: real, b: real)
    requires a > 0.0 && b > 0.0
    ensures a * b > 0.0
  {}

  /** Multiplying both sides by a positive factor keeps a strict order. */
  lemma ScaleStrict(a: real, b: real, k: real)
    requires k > 0.0
    ensures a < b <==> a * k < b * k
  {
    assert b * k - a * k == (b - a) * k;
    if a < b { MulPositive(b - a, k); }
    if a * k < b * k && b <= a { MulNonNegative(a - b, k); }
  }

  /** For non-negative numbers, squaring keeps a strict order in both directions. */
  lemma SquareMonotone(a: real, p: real)
    requires a >= 0.0 && p >= 0.0
    ensures a > p <==> Sq(a) > Sq(p)
  {
    SquareGap(a, p);
    if a > p {
      MulPositive(a - p, a + p);
    } else {
      MulNonNegative(p - a, p + a);
    }
  }

  /** The difference of two squares, both ways round. */
  lemma SquareGap(a: real, p: real)
    ensures Sq(a) - Sq(p) == (a - p) * (a + p)
    ensures Sq(p) - Sq(a) == (p - a) * (p + a)
  {}

  /** sq(a) <= 1 exactly when -1 <= a <= 1. */
  lemma SqAtMostOne(a: real)
    ensures Sq(a) <= 1.0 <==> -1.0 <= a <= 1.0
  {
    if a > 1.0 { SquareMonotone(a, 1.0); }
    if a < -1.0 { SquareMonotone(-a, 1.0); }
    if 0.0 <= a <= 1.0 { SquareMonotone(a, 1.0); }
    if -1.0 <= a < 0.0 { SquareMonotone(-a, 1.0); }
  }

  /** Dividing by a positive number keeps the order with a scaled bound. */
  lemma DivCompare(u: real, v: real, h: real)
    requires h > 0.0
    ensures u < v * h <==> u / h < v
    ensures u > v * h <==> u / h > v
    ensures u <= v * h <==> u / h <= v
  {
    assert (u / h) * h == u;
    ScaleStrict(u / h, v, h);
    ScaleStrict(v, u / h, h);
  }

  /**
   * A product kept whole: the solver rewrites u * (hi - lo) into monomials,
   * and a fact about Scale(u, hi - lo) keeps its argument intact.
   */
  function Scale(u: real, d: real): real { u * d }

  /** 0 <= u < 1 and d > 0 give 0 <= u * d < d. */
  lemma ScaledUniform(u: real, d: real)
    requires 0.0 <= u < 1.0 && d > 0.0
    ensures 0.0 <= Scale(u, d) < d
  {
    MulNonNegative(u, d);
    var v := 1.0 - u;
    MulPositive(v, d);
    assert v * d == d - u * d;
  }

  /** A factor in [-1, 1] keeps a product within the other factor's bound. */
  lemma BoundedProduct(k: real, m: real, bound: real)
    requires -1.0 <= k <= 1.0 && -bound <= m <= bound
    ensures -bound <= k * m <= bound
  {
    var p, q := 1.0 - k, 1.0 + k;
    if m >= 0.0 {
      MulNonNegative(p, m);
      MulNonNegative(q, m);
      assert p * m == m - k * m && q * m == m + k * m;
    } else {
      var n := -m;
      MulNonNegative(p, n);
      MulNonNegative(q, n);
      assert p * n == n - n * k && q * n == n + n * k;
      assert k * m == -(n * k);
    }
  }

  lemma MulDivCancel(k: real, h: real)
    requires h != 0.0
    ensures (h * k) / h == k && (k * h) / h == k
  {}

  lemma SqNegate(a: real)
    ensures Sq(-a) == Sq(a)
  {}

  lemma SqProduct(a: real, b: real)
    ensures Sq(a * b) == Sq(a) * Sq(b)
  {}

  /** Adding one commutes with taking the remainder. */
  lemma ModSucc(a: int, n: int)
    requires n > 0
    ensures (a % n + 1) % n == (a + 1) % n
  {
    var r := a % n;
    var q := a / n;
    assert a == n * q + r;
    if r + 1 == n {
      assert a + 1 == n * (q + 1) + 0;
      DivModUnique(a + 1, n, q + 1, 0);
    } else {
      assert a + 1 == n * q + (r + 1);
      DivModUnique(a + 1, n, q, r + 1);
    }
  }
  lemma MulGap(n: int, big: int, small: int)
    requires n > 0 && big > small
    ensures n * big >= n * small + n
  {
    assert n * big == n * small + n * (big - small - 1) + n;
    assert n * (big - small - 1) >= 0;
  }
  /** The remainder is the unique r in [0, n) with a == n * q + r. */
  lemma DivModUnique(a: int, n: int, q: int, r: int)
    requires n > 0 && 0 <= r < n && a == n * q + r
    ensures a % n == r
  {
    var q', r' := a / n, a % n;
    assert a == n * q' + r';
    if q' > q {
      MulGap(n, q', q);
      assert false;
    } else if q' < q {
      MulGap(n, q, q');
      assert false;
    }
  }
}
