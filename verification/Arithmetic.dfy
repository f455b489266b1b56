/** The few facts about division with remainder by a variable divisor that the models need. */
module Arithmetic {

  /** A multiple of n that lies strictly between -n and n is zero. */
  lemma SmallMultiple(d: int, n: int)
    requires -n < d * n < n
    ensures d == 0
  {
  }

  lemma DivModUnique(x: int, n: int, q: int, r: int)
    requires 0 <= r < n
    requires x == q * n + r
    ensures x / n == q && x % n == r
  {
    assert (q - x / n) * n == x % n - r;
    SmallMultiple(q - x / n, n);
  }

  /** The remainder counts up and starts again at the divisor. */
  lemma ModSucc(k: nat, n: int)
    requires n > 0
    ensures (k + 1) % n == if k % n + 1 == n then 0 else k % n + 1
  {
    var q, r := k / n, k % n;
    if r + 1 == n {
      assert k + 1 == (q + 1) * n;
      DivModUnique(k + 1, n, q + 1, 0);
    } else {
      DivModUnique(k + 1, n, q, r + 1);
    }
  }

  /** Different numbers less than a divisor apart have different remainders. */
  lemma ModApart(i: nat, j: nat, n: int)
    requires n > 0 && i <= j < i + n && i % n == j % n
    ensures i == j
  {
    assert (j / n - i / n) * n == j - i;
    SmallMultiple(j / n - i / n, n);
  }
}
