/** Products, and division with remainder. */
module Arithmetic {
  lemma DivMod(x: int, n: int, q: int, r: int)
    requires 0 < n && 0 <= r < n && x == q * n + r
    ensures x / n == q && x % n == r
  {
    var d := x / n - q;
    assert d * n == r - x % n by {
      assert x == x / n * n + x % n;
      assert d * n == x / n * n - q * n;
    }
    Multiple(d, n);
  }

  lemma Multiple(d: int, n: int)
    requires 0 < n
    ensures d >= 1 ==> d * n >= n
    ensures d <= -1 ==> d * n <= -n
  {}

  /** n times d, as a sum: the solver need not multiply. */
  function Times(n: nat, d: int): (t: int)
    ensures 0 <= d ==> 0 <= t
  {
    if n == 0 then 0 else Times(n - 1, d) + d
  }

  lemma {:induction false} TimesIsProduct(n: nat, d: int)
    ensures Times(n, d) == n * d
  {
    if n > 0 {
      TimesIsProduct(n - 1, d);
      OneMoreTime(n - 1, d);
    }
  }

  lemma OneMoreTime(n: int, d: int)
    ensures (n + 1) * d == n * d + d
  {}
}
