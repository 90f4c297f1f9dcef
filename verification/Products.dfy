/**
 Facts about products and quotients of reals, each small enough for the solver.
 */
module Products {

  lemma Scale(a: real, b: real, factor: real)
    requires a <= b && 0.0 <= factor
    ensures a * factor <= b * factor && factor * a <= factor * b
  {
  }

  lemma FactorBound(a: real, factor: real, most: real)
    requires 0.0 <= a && 0.0 <= factor <= most
    ensures 0.0 <= a * factor <= a * most
  {
  }

  lemma Distribute(a: real, b: real, factor: real)
    ensures a * factor + b * factor == factor * (a + b) == (a + b) * factor
  {
  }

  lemma Cancel(a: real, b: real, factor: real)
    requires factor > 0.0 && a * factor <= b * factor
    ensures a <= b
  {
  }

  lemma Undo(x: real, d: real)
    requires d > 0.0
    ensures x / d * d == x
    ensures x > 0.0 ==> x / d > 0.0
  {
  }

  lemma DivideBound(x: real, d: real, bound: real)
    requires d > 0.0 && x <= bound * d
    ensures x / d <= bound
  {
    Undo(x, d);
    Cancel(x / d, bound, d);
  }

  lemma ProductPositive(a: real, b: real)
    requires 0.0 < a && 0.0 < b
    ensures 0.0 < a * b
  {
  }

  lemma ProductOrdered(a: real, b: real, factor: real)
    requires 0.0 < factor
    ensures a < b <==> a * factor < b * factor
    ensures a == b <==> a * factor == b * factor
  {
  }

  lemma QuotientExceeds(x: real, d: real, bound: real)
    requires 0.0 < d
    ensures bound < x / d <==> bound * d < x
  {
    Undo(x, d);
    ProductOrdered(bound, x / d, d);
  }
}
