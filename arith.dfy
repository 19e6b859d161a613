/** Facts about Euclidean division that the index arithmetic of keys and
    key ranges relies on. */
module Arith {

  lemma MulAtLeast(k: int, n: int)
    requires k >= 1 && n > 0
    ensures k * n >= n
  {
    assert k * n == (k - 1) * n + n;
    assert (k - 1) * n >= 0;
  }

  /** Quotient and remainder are the only ones: `a == d * n + s` with `s` in
      range fixes both. */
  lemma DivModUnique(a: int, d: int, s: int, n: int)
    requires n > 0 && 0 <= s < n && a == d * n + s
    ensures a % n == s && a / n == d
  {
    var d' := a / n;
    var s' := a % n;
    assert d' * n + s' == d * n + s;
    if d' < d {
      assert (d - d') * n == s' - s;
      MulAtLeast(d - d', n);
    } else if d' > d {
      assert (d' - d) * n == s - s';
      MulAtLeast(d' - d, n);
    }
  }

  lemma ModAddMod(x: int, c: int, n: int)
    requires n > 0
    ensures (x % n + c) % n == (x + c) % n
  {
    var a := x % n + c;
    DivModUnique(a, a / n, a % n, n);
    DivModUnique(x + c, x / n + a / n, a % n, n);
  }

  lemma QuotientBelow(j: int, n: nat, L: int)
    requires L > 0 && 0 <= j < n * L
    ensures 0 <= j / L < n && j == j / L * L + j % L
  {
    var q := j / L;
    assert (n - q) * L == n * L - q * L;
    assert (n - q) * L > 0;
    PositiveFactor(n - q, L);
  }

  lemma PositiveFactor(a: int, L: int)
    requires L > 0 && a * L > 0
    ensures a > 0
  {
  }

  /** Adding what is missing to the next multiple of `n` lands on a multiple. */
  lemma UpToMultiple(a: int, n: int)
    requires n > 0
    ensures 0 < n - a % n <= n
    ensures (a + (n - a % n)) % n == 0
    ensures 0 <= (n - a % n) % n < n && (a + (n - a % n) % n) % n == 0
  {
    var q := a / n;
    assert a + (n - a % n) == (q + 1) * n;
    DivModUnique(a + (n - a % n), q + 1, 0, n);
    if a % n == 0 {
      DivModUnique(n - a % n, 1, 0, n);
      assert a == q * n;
      DivModUnique(a, q, 0, n);
    } else {
      DivModUnique(n - a % n, 0, n - a % n, n);
    }
  }
}
