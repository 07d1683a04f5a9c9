/** Facts about Dafny's Euclidean `/` and `%` that the solver does not find on its own
    (all operands here are non-negative, where Python's `//` and `%` agree with them). */
module Arith {

  /** `a` copies of `m`, for `a >= 1`, are at least `m`. */
  lemma {:induction false} MulAtLeast(a: int, m: nat)
    requires a >= 1
    ensures a * m >= m
  {
    if a > 1 {
      MulAtLeast(a - 1, m);
      assert a * m == (a - 1) * m + m;
    }
  }

  /** Writing `y = q * m + b` with `0 <= b < m` determines the quotient and the remainder. */
  lemma DivModUnique(q: int, m: nat, b: nat)
    requires b < m
    ensures (q * m + b) / m == q && (q * m + b) % m == b
  {
    var y := q * m + b;
    var d, r := y / m, y % m;
    assert y == d * m + r && 0 <= r < m;
    assert (d - q) * m == b - r;
    if d > q {
      MulAtLeast(d - q, m);
    } else if d < q {
      MulAtLeast(q - d, m);
    }
  }
}
