/** Facts about Euclidean division used to turn counter runs into quotients and remainders. */
module Arith {

  lemma MulAtLeastFactor(a: int, p: int)
    requires a >= 1 && p > 0
    ensures a * p >= p
  {}

  /** Quotient and remainder are determined by `x == q * p + r` with `0 <= r < p`. */
  lemma DivModUnique(x: int, p: int, q: int, r: int)
    requires p > 0 && 0 <= r < p && x == q * p + r
    ensures x / p == q && x % p == r
  {
    var q0, r0 := x / p, x % p;
    assert x == q0 * p + r0;
    if q > q0 {
      assert (q - q0) * p == q * p - q0 * p;
      MulAtLeastFactor(q - q0, p);
      assert false;
    } else if q < q0 {
      assert (q0 - q) * p == q0 * p - q * p;
      MulAtLeastFactor(q0 - q, p);
      assert false;
    }
  }

  /** Division by a positive number is monotone. */
  lemma DivMonotone(a: int, b: int, p: int)
    requires 0 <= a <= b && p > 0
    ensures a / p <= b / p
  {
    var qa, qb := a / p, b / p;
    assert a == qa * p + a % p;
    assert b == qb * p + b % p;
    if qa > qb {
      assert (qa - qb) * p == qa * p - qb * p;
      MulAtLeastFactor(qa - qb, p);
      assert false;
    }
  }
}
