/** Products of reals under a name. The solver reasons well about sums and
    comparisons of such terms, and badly about bare products. */
module Reals {
  function Times(a: real, b: real): real { a * b }

  lemma Sign(a: real, b: real)
    ensures a > 0.0 && b > 0.0 ==> Times(a, b) > 0.0
    ensures a >= 0.0 && b >= 0.0 ==> Times(a, b) >= 0.0
  {
  }

  lemma Distribute(k: real, a: real, b: real)
    ensures Times(k, a + b) == Times(k, a) + Times(k, b) == Times(a + b, k)
    ensures Times(k, a - b) == Times(k, a) - Times(k, b) == Times(a - b, k)
    ensures Times(k, a) == Times(a, k) && Times(k, b) == Times(b, k)
  {
  }

  lemma Reorder(a: real, b: real, c: real)
    ensures Times(a, Times(b, c)) == Times(b, Times(a, c)) == Times(Times(a, b), c)
  {
  }

  lemma Units(a: real)
    ensures Times(a, 1.0) == a == Times(1.0, a) && Times(a, 0.0) == 0.0 && Times(0.0, a) == 0.0
  {
  }

  /** A square is positive, but for zero's. */
  lemma SquareSign(a: real)
    ensures Times(a, a) >= 0.0
    ensures Times(a, a) == 0.0 <==> a == 0.0
  {
    Sign(a, a);
    Sign(-a, -a);
    assert Times(-a, -a) == Times(a, a);
  }

  lemma SquareOrder(a: real, b: real)
    requires a >= 0.0 && b >= 0.0
    ensures Times(a, a) <= Times(b, b) <==> a <= b
  {
    assert Times(a, a) - Times(b, b) == Times(a - b, a + b);
    assert Times(b, b) - Times(a, a) == Times(b - a, b + a);
    Sign(a - b, a + b);
    Sign(b - a, b + a);
  }

  lemma Part(t: real, a: real)
    requires 0.0 <= t <= 1.0 && a >= 0.0
    ensures 0.0 <= Times(t, a) <= a
  {
    Sign(t, a);
    Sign(1.0 - t, a);
    Distribute(a, 1.0, t);
    Units(a);
  }

  lemma Scale(a: real, b: real, k: real)
    requires a <= b && k >= 0.0
    ensures Times(a, k) <= Times(b, k)
  {
    Sign(b - a, k);
    Distribute(k, b, a);
  }

  // ---- quotients

  lemma Quotient(a: real, n: real)
    requires n > 0.0
    ensures Times(a / n, n) == a
  {
  }

  lemma QuotientAtLeast(a: real, n: real, x: real)
    requires n > 0.0 && Times(x, n) <= a
    ensures x <= a / n
  {
    Quotient(a, n);
    Sign(x - a / n, n);
    Distribute(n, x, a / n);
  }

  lemma QuotientAtMost(a: real, n: real, x: real)
    requires n > 0.0 && a <= Times(x, n)
    ensures a / n <= x
  {
    Quotient(a, n);
    Sign(a / n - x, n);
    Distribute(n, a / n, x);
  }

  lemma QuotientBetween(a: real, n: real, lo: real, hi: real)
    requires n > 0.0 && Times(lo, n) <= a <= Times(hi, n)
    ensures lo <= a / n <= hi
  {
    QuotientAtLeast(a, n, lo);
    QuotientAtMost(a, n, hi);
  }

  lemma QuotientSign(a: real, n: real)
    requires a >= 0.0 && n > 0.0
    ensures a / n >= 0.0
  {
    Units(n);
    QuotientAtLeast(a, n, 0.0);
  }

  lemma QuotientOrders(a: real, b: real, n: real)
    requires n > 0.0
    ensures a / n < b / n <==> a < b
  {
    Quotient(a, n);
    Quotient(b, n);
    Distribute(n, b / n, a / n);
    Distribute(n, a / n, b / n);
    Sign(b / n - a / n, n);
    Sign(a / n - b / n, n);
  }

  lemma QuotientIs(q: real, a: real, n: real)
    requires n > 0.0 && Times(q, n) == a
    ensures q == a / n
  {
    QuotientBetween(a, n, q, q);
  }

  /** A quotient is linear in its numerator. */
  lemma QuotientLinear(a: real, b: real, k: real, n: real)
    requires n > 0.0
    ensures (a + Times(k, b)) / n == a / n + Times(k, b / n)
  {
    var q := a / n + Times(k, b / n);
    Quotient(a, n);
    Quotient(b, n);
    Distribute(n, a / n, Times(k, b / n));
    Reorder(k, b / n, n);
    Reorder(n, k, b / n);
    QuotientIs(q, a + Times(k, b), n);
  }

  lemma QuotientAdds(a: real, b: real, n: real)
    requires n > 0.0
    ensures (a + b) / n == a / n + b / n
  {
    Units(b);
    Units(b / n);
    QuotientLinear(a, b, 1.0, n);
  }
}
