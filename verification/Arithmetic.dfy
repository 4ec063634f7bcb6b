/** Powers of two and division, as several modules use them. */
module Arithmetic {
  function Pow2(n: nat): (p: nat)
    ensures p > 0
  {
    if n == 0 then 1 else 2 * Pow2(n - 1)
  }

  /** Quotient and remainder are unique. */
  lemma Quotient(x: int, d: int, q: int, r: int)
    requires d > 0 && x == d * q + r && 0 <= r < d
    ensures x / d == q && x % d == r
  {
    assert d * (x / d - q) == r - x % d;
    if x / d > q {
      MulAtLeast(x / d - q, d);
    } else if x / d < q {
      MulAtLeast(q - x / d, d);
    }
  }

  lemma MulAtLeast(a: int, d: int)
    requires a > 0 && d > 0
    ensures d * a >= d
  {
  }
}
