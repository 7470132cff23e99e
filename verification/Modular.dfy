/** Remainders of counts modulo a capacity. */
module Modular {

  lemma SmallMultiple(d: int, n: nat)
    ensures d > 0 ==> d * n >= n
    ensures d < 0 ==> d * n <= -(n as int)
  {}

  lemma DivMod(k: nat, q: nat, r: nat, n: nat)
    requires r < n && k == q * n + r
    ensures k / n == q && k % n == r
  {
    SmallMultiple(k / n - q, n);
    assert (k / n - q) * n == r - k % n;
  }

  lemma NextResidue(k: nat, n: nat)
    requires n > 0
    ensures (k % n + 1) % n == (k + 1) % n
  {
    var r, q := k % n, k / n;
    assert k == q * n + r && (q + 1) * n == q * n + n;
    if r + 1 < n {
      DivMod(k + 1, q, r + 1, n);
      DivMod(r + 1, 0, r + 1, n);
    } else {
      DivMod(k + 1, q + 1, 0, n);
      DivMod(r + 1, 1, 0, n);
    }
  }

  /** Counts less than n apart have distinct remainders. */
  lemma DistinctResidues(a: nat, b: nat, n: nat)
    requires n > 0 && a < b < a + n
    ensures a % n != b % n
  {
    SmallMultiple(b / n - a / n, n);
    assert b - a == (b / n - a / n) * n + (b % n - a % n);
  }
}
