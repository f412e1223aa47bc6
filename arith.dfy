/**
 * Integer division facts used by the mesh index arithmetic.
 */
module Arith {

  /** Euclidean division is unique: a quotient/remainder pair that adds up to n is n / d and n % d. */
  lemma DivModOf(n: int, d: int, q: int, r: int)
    requires 0 < d && 0 <= r < d && n == q * d + r
    ensures n / d == q && n % d == r
  {
    var q0, r0 := n / d, n % d;
    assert (q - q0) * d == r0 - r;
    if q > q0 {
      MulAtLeast(q - q0, d);
    } else if q < q0 {
      MulAtLeast(q0 - q, d);
    }
  }

  /** n is its quotient times d plus its remainder. */
  lemma DivModSplit(n: int, d: int)
    requires d > 0
    ensures n == (n / d) * d + n % d && 0 <= n % d < d
  {
  }

  /** A positive multiple of d is at least d. */
  lemma MulAtLeast(k: int, d: int)
    requires k >= 1 && d > 0
    ensures k * d >= d
  {
    assert k * d == (k - 1) * d + d;
  }

  /** Multiplication by a positive factor is strictly monotone. */
  lemma MulStrict(a: int, b: int, d: int)
    requires a < b && d > 0
    ensures a * d < b * d
  {
    MulAtLeast(b - a, d);
    assert b * d - a * d == (b - a) * d;
  }

  /** Multiplication by a non-negative factor is monotone. */
  lemma MulMono(a: int, b: int, d: int)
    requires a <= b && d >= 0
    ensures a * d <= b * d
  {
    if a < b && d > 0 {
      MulStrict(a, b, d);
    }
  }
}
