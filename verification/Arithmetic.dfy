/** Products and quotients of whole numbers, a step at a time. */
module Arithmetic {

  lemma Product(a: nat, b: nat)
    ensures a * b >= 0
  {
  }

  lemma Distribute(d: int, j: int, k: int)
    ensures d * (k - j) == d * k - d * j
    ensures d * (k - j - 1) == d * k - d * j - d
  {
  }

  lemma Order(d: int, j: int, k: int)
    requires d > 0
    ensures j < k ==> d * j + d <= d * k
    ensures j >= k ==> d * j >= d * k
  {
    if j < k {
      Product(d, k - j - 1);
      Distribute(d, j, k);
    } else {
      Product(d, j - k);
      Distribute(d, k, j);
    }
  }

  lemma Quotient(x: int, d: int)
    requires d > 0
    ensures d * (x / d) <= x < d * (x / d) + d
    ensures x >= 0 ==> x / d >= 0
  {
  }

  /** x / d is the only number that fits. */
  lemma QuotientIs(x: int, d: int, q: int)
    requires d > 0 && d * q <= x < d * q + d
    ensures x / d == q
  {
    Quotient(x, d);
    Order(d, q, x / d);
    Order(d, x / d, q);
  }

  lemma AddProducts(a: int, b: int, d: int)
    ensures (a + b) * d == a * d + b * d
  {
  }
}
