/** Quotients of reals through the product that they solve. */
module Quotients {

  function Quotient(x: real, d: real): real
    requires d > 0.0
  {
    x / d
  }

  lemma QuotientMeans(x: real, d: real)
    requires d > 0.0
    ensures Quotient(x, d) * d == x
  {
  }

  lemma QuotientOrder(x: real, y: real, d: real)
    requires d > 0.0
    ensures Quotient(x, d) <= Quotient(y, d) <==> x <= y
    ensures Quotient(0.0, d) == 0.0 && Quotient(d, d) == 1.0
  {
  }

  lemma QuotientDoubles(x: real, d: real)
    requires d > 0.0
    ensures Quotient(2.0 * x, d) == 2.0 * Quotient(x, d)
    ensures Quotient(2.0 * x, 2.0 * d) == Quotient(x, d)
    ensures Quotient(-x, d) == -Quotient(x, d)
  {
  }

  /** A smaller divisor gives a larger quotient. */
  lemma QuotientByMore(x: real, d: real, e: real)
    requires x > 0.0 && 0.0 < d <= e
    ensures 0.0 < Quotient(x, e) <= Quotient(x, d)
    ensures d < e ==> Quotient(x, e) < Quotient(x, d)
  {
    var q, r := Quotient(x, d), Quotient(x, e);
    QuotientMeans(x, d);
    QuotientMeans(x, e);
    QuotientOrder(x, 0.0, d);
    QuotientOrder(x, 0.0, e);
    hide *;
    Smaller(q, d, r, e);
  }

  lemma Smaller(q: real, d: real, r: real, e: real)
    requires 0.0 < q && 0.0 < d <= e && q * d == r * e
    ensures r <= q && (d < e ==> r < q)
  {
    if d < e {
      ProductOrder(d, e, q);
    }
    if q < r {
      ProductOrder(q, r, e);
    }
  }

  lemma ProductOrder(a: real, b: real, d: real)
    requires d > 0.0 && a < b
    ensures a * d < b * d && d * a < d * b
  {
  }
}
