// Facts about products and quotients that the other modules share.

module Arithmetic {

  lemma ProductsOrdered(p: int, q: int, b: int)
    requires p <= q && 0 < b
    ensures p * b <= q * b
  {
  }

  lemma QuotientBounds(a: int, b: int)
    requires 0 < b
    ensures a / b * b <= a < (a / b + 1) * b
  {
    assert a == a / b * b + a % b;
    assert (a / b + 1) * b == a / b * b + b;
  }

  /** The quotient is the only number with these bounds. */
  lemma QuotientIs(a: int, b: int, k: int)
    requires 0 < b && k * b <= a < (k + 1) * b
    ensures a / b == k
  {
    QuotientBounds(a, b);
    if a / b < k {
      ProductsOrdered(a / b + 1, k, b);
    } else if a / b > k {
      ProductsOrdered(k + 1, a / b, b);
    }
  }
}
