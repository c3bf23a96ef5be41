/** Integer facts shared by the modules that reason about division. */
module Arith {

  lemma MulAtLeast(d: int, m: int)
    requires d >= 1 && m > 0
    ensures d * m >= m
  {
  }

  /** Quotient and remainder are unique: the decomposition k = q*m + r with
      0 <= r < m is the one Dafny's Euclidean `/` and `%` compute. */
  lemma DivModUnique(k: int, m: int, q: int, r: int)
    requires m > 0 && 0 <= r < m && k == q * m + r
    ensures k / m == q && k % m == r
  {
    var q', r' := k / m, k % m;
    assert (q - q') * m == r' - r;
    if q > q' { MulAtLeast(q - q', m); }
    else if q < q' { MulAtLeast(q' - q, m); }
  }

  function Min(a: int, b: int): int
  {
    if a <= b then a else b
  }
}
