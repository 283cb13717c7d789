/** Facts about integer division that the solver does not find on its own. */
module Arith {

  lemma {:induction false} MulAtLeast(k: int, n: int)
    requires k >= 1 && n > 0
    ensures k * n >= n
  {
    if k > 1 {
      MulAtLeast(k - 1, n);
      assert k * n == (k - 1) * n + n;
    }
  }

  /** A quotient and remainder in range are the ones `/` and `%` compute. */
  lemma DivModUnique(a: int, n: int, q: int, r: int)
    requires n > 0 && a == q * n + r && 0 <= r < n
    ensures a / n == q && a % n == r
  {
    var q', r' := a / n, a % n;
    assert a == q' * n + r';
    if q' > q {
      assert (q' - q) * n == r - r' by { assert (q' - q) * n == q' * n - q * n; }
      MulAtLeast(q' - q, n);
    } else if q' < q {
      assert (q - q') * n == r' - r by { assert (q - q') * n == q * n - q' * n; }
      MulAtLeast(q - q', n);
    }
  }
}
