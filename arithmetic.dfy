/** Facts about multiplication and division of naturals that the solver
    does not find on its own. */
module Arithmetic {

  /** `a * n <= b * n` with `n` positive gives `a <= b`. */
  lemma MulCancel(a: int, b: int, n: int)
    requires n > 0 && a * n <= b * n
    ensures a <= b
  {
    assert (b - a) * n == b * n - a * n;
  }

  /** `a * n < b * n` with `n` positive gives `a < b`. */
  lemma MulStrictCancel(a: int, b: int, n: int)
    requires n > 0 && a * n < b * n
    ensures a < b
  {
    assert (b - a) * n == b * n - a * n;
  }

  /** Dividing by a larger number never gives a larger quotient. */
  lemma DivisorMonotone(x: nat, a: nat, b: nat)
    requires 0 < a <= b
    ensures x / b <= x / a
  {
    var q, p := x / b, x / a;
    assert q * b <= x;
    assert q * a <= q * b by {
      assert q * b - q * a == q * (b - a);
    }
    assert x < (p + 1) * a;
    MulStrictCancel(q, p + 1, a);
  }

  /** `q * d + r` with `0 <= r < d` determines the quotient and remainder. */
  lemma DivModUnique(n: nat, q: nat, r: nat, d: nat)
    requires 0 <= r < d && n == q * d + r
    ensures q == n / d && r == n % d
  {
    var q', r' := n / d, n % d;
    assert n == q' * d + r';
    assert (q - q') * d == r' - r;
    assert (q' - q) * d == r - r';
    MulStrictCancel(q - q', 1, d);
    MulStrictCancel(q' - q, 1, d);
  }
}
