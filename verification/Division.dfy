/** Quotients and remainders are unique. */
module Division {
  lemma RemainderIs(m: nat, q: nat, r: nat, n: nat)
    requires r < n && m == n * q + r
    ensures m % n == r
  {
    DivisionIsUnique(m / n, m % n, q, r, n);
  }

  lemma DivisionIsUnique(q: int, r: int, q': int, r': int, n: nat)
    requires 0 <= r < n && 0 <= r' < n && n * q + r == n * q' + r'
    ensures q == q' && r == r'
  {
    Spread(n, q, q');
    Spread(n, q', q);
  }

  lemma Spread(n: nat, a: int, b: int)
    ensures a < b ==> n * a + n <= n * b
  {
    if a < b {
      assert n * b == n * (a + 1) + n * (b - a - 1);
    }
  }
}
