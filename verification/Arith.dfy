/** Integer division facts that the solver does not find on its own. */
module Arith {

  lemma MulAtLeast(k: int, d: int)
    requires k >= 1 && d > 0
    ensures k * d >= d
  {
  }

  /** The quotient and remainder are the only q, r with a == q * d + r and 0 <= r < d. */
  lemma DivUnique(a: int, d: int, q: int, r: int)
    requires d > 0 && 0 <= r < d && a == q * d + r
    ensures a / d == q && a % d == r
  {
    var q', r' := a / d, a % d;
    assert (q - q') * d == r' - r;
    if q > q' {
      MulAtLeast(q - q', d);
    } else if q < q' {
      MulAtLeast(q' - q, d);
    }
  }

  /** Adding one period does not change the remainder. */
  lemma ModShift(a: int, d: int)
    requires d > 0
    ensures (a + d) % d == a % d
  {
    DivUnique(a + d, d, a / d + 1, a % d);
  }

  /** A number in 0 .. d - 1 is its own remainder. */
  lemma ModSmall(a: int, d: int)
    requires 0 <= a < d
    ensures a % d == a
  {
    DivUnique(a, d, 0, a);
  }
}
