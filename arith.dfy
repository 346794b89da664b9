/** Integer division facts the puzzle models share. Dafny's `/` and `%` are
    Euclidean; for the positive divisors used here they coincide with the
    source's floor division `//` and modulo `%`. */
module Arith {

  /** Quotient and remainder are determined by the division equation. */
  lemma DivModUnique(x: int, m: int, q: int, r: int)
    requires m > 0 && 0 <= r < m && x == m * q + r
    ensures x / m == q && x % m == r
  {
    var k := x / m - q;
    assert m * k == r - x % m;
  }

  /** Reducing one summand modulo m first does not change the sum modulo m. */
  lemma ModOfSum(a: int, b: int, m: int)
    requires m > 0
    ensures (a % m + b) % m == (a + b) % m
  {
    var x := a % m + b;
    var q, r := x / m, x % m;
    assert a + b == m * (a / m + q) + r;
    DivModUnique(a + b, m, a / m + q, r);
  }

  /** Going from x - 1 to x, the floor quotient grows by one exactly when x
      is a multiple of m. */
  lemma FloorStep(x: int, m: int)
    requires m > 0
    ensures x / m == (x - 1) / m + (if x % m == 0 then 1 else 0)
  {
    var q, r := (x - 1) / m, (x - 1) % m;
    if r == m - 1 {
      DivModUnique(x, m, q + 1, 0);
    } else {
      DivModUnique(x, m, q, r + 1);
    }
  }

  /** `math.ceil(a / m)` for a positive m, in exact integer arithmetic. */
  function CeilDiv(a: int, m: int): (r: int)
    requires m > 0
    ensures m * (r - 1) < a <= m * r
  {
    -((-a) / m)
  }
}
