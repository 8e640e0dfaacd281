/**
  Order and division of reals: the facts about products and quotients that rates, means and
  scores share, each stated once so that no other proof has to multiply two variables.
 */
module Quotients {

  lemma ProductOrder(a: real, b: real, s: real)
    requires s > 0.0
    ensures a < b <==> a * s < b * s
  {
    assert (b - a) * s == b * s - a * s;
    ProductSign(b - a, s);
  }

  lemma ProductSign(d: real, s: real)
    requires s > 0.0
    ensures d > 0.0 <==> d * s > 0.0
  {
  }

  lemma Divided(x: real, s: real)
    requires s != 0.0
    ensures x / s * s == x
  {
  }

  lemma QuotientOrder(x: real, y: real, s: real)
    requires s > 0.0
    ensures x < y <==> x / s < y / s
    ensures x <= y <==> x / s <= y / s
    ensures x == y <==> x / s == y / s
  {
    Divided(x, s);
    Divided(y, s);
    ProductOrder(x / s, y / s, s);
    ProductOrder(y / s, x / s, s);
  }

  lemma WholeQuotient(s: real)
    requires s > 0.0
    ensures s / s == 1.0 && 0.0 / s == 0.0
  {
  }

  /** Against zero and against one. */
  lemma UnitQuotient(x: real, s: real)
    requires s > 0.0
    ensures x < s <==> x / s < 1.0
    ensures x == s <==> x / s == 1.0
    ensures x > 0.0 <==> x / s > 0.0
    ensures x == 0.0 <==> x / s == 0.0
  {
    WholeQuotient(s);
    QuotientOrder(x, s, s);
    QuotientOrder(0.0, x, s);
  }

  lemma Distribute(a: real, b: real, c: real)
    ensures a * (b + c) == a * b + a * c
  {
  }

  lemma SumQuotient(x: real, y: real, s: real)
    requires s != 0.0
    ensures (x + y) / s == x / s + y / s
  {
  }
}
