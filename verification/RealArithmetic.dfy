/** Facts about products and quotients of reals, each small enough for the solver. */
module RealArithmetic {

  lemma ProductNonNegative(x: real, y: real)
    requires x >= 0.0 && y >= 0.0
    ensures x * y >= 0.0
  {
  }

  lemma Distributes(x: real, y: real, k: real)
    ensures (x + y) * k == x * k + y * k
  {
  }

  lemma QuotientTimes(x: real, k: real)
    requires k > 0.0
    ensures (x / k) * k == x
  {
  }

  lemma QuotientPositive(x: real, k: real)
    requires x > 0.0 && k > 0.0
    ensures x / k > 0.0
  {
  }

  lemma LeQuotient(k: real, x: real, y: real)
    requires k > 0.0 && x * k <= y
    ensures x <= y / k
  {
  }

  lemma ProductPositive(x: real, y: real)
    requires x > 0.0 && y > 0.0
    ensures x * y > 0.0
  {
  }

  lemma QuotientBelow(x: real, y: real, k: real)
    requires k > 0.0
    ensures x < y * k <==> x / k < y
  {
    QuotientTimes(x, k);
    Distributes(y, -(x / k), k);
    if y > x / k {
      ProductPositive(y - x / k, k);
    } else {
      ProductNonNegative(x / k - y, k);
    }
  }
}
