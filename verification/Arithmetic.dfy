/** Facts about the remainder that the round-robin counter and the cyclic probing need. */
module Arithmetic {
  lemma DivMod(q: int, r: int, n: int)
    requires 0 <= r < n
    ensures (q * n + r) % n == r
  {
    var x := q * n + r;
    var d := x / n - q;
    assert d * n == r - x % n;
    NonzeroMultiple(d, n);
  }

  lemma NonzeroMultiple(d: int, n: int)
    requires 0 < n
    ensures d >= 1 ==> d * n >= n
    ensures d <= -1 ==> d * n <= -n
  {
  }

  lemma ModSucc(k: nat, n: nat)
    requires 0 < n
    ensures (k + 1) % n == (k % n + 1) % n
    ensures (k + 1) % n == if k % n + 1 == n then 0 else k % n + 1
  {
    var q, r := k / n, k % n;
    assert k == q * n + r;
    if r + 1 == n {
      assert k + 1 == (q + 1) * n + 0;
      DivMod(q + 1, 0, n);
    } else {
      DivMod(q, r + 1, n);
      DivMod(0, r + 1, n);
    }
  }
}
