/** Division facts that the solver does not find reliably by itself. */
module Arith {

  lemma {:induction false} SmallMultiple(d: int, k: int)
    requires -k < d * k < k
    ensures d == 0
  {
  }

  lemma {:induction false} DividedParts(a: int, k: int)
    requires k > 0
    ensures a == (a / k) * k + a % k && 0 <= a % k < k
  {
  }

  lemma {:induction false} QuotientOf(x: int, q: int, r: int, k: int)
    requires 0 <= r < k && x == q * k + r
    ensures x / k == q && x % k == r
  {
    DividedParts(x, k);
    assert (x / k - q) * k == r - x % k;
    SmallMultiple(x / k - q, k);
  }

  lemma {:induction false} SumOfQuotients(p: int, t: int, q: int, r: int, k: int)
    requires 0 <= t < k && 0 <= r < k
    ensures ((p * k + t) + (q * k + r)) / k == p + q + (if t + r < k then 0 else 1)
  {
    var x := (p * k + t) + (q * k + r);
    if t + r < k {
      assert x == (p + q) * k + (t + r);
      QuotientOf(x, p + q, t + r, k);
    } else {
      assert x == (p + q + 1) * k + (t + r - k);
      QuotientOf(x, p + q + 1, t + r - k, k);
    }
  }

  lemma {:induction false} CeilingOf(n: nat, k: nat)
    requires k > 0
    ensures (n + k - 1) / k == n / k + (if n % k == 0 then 0 else 1)
  {
    var q, r := n / k, n % k;
    DividedParts(n, k);
    if r == 0 {
      QuotientOf(n + k - 1, q, k - 1, k);
    } else {
      assert (q + 1) * k == q * k + k;
      QuotientOf(n + k - 1, q + 1, r - 1, k);
    }
  }

  // Shifting a dividend by n moves the quotient by floor(n/k) or ceil(n/k).
  lemma {:induction false} QuotientSpread(a: nat, n: nat, k: nat)
    requires k > 0
    ensures n / k <= (a + n) / k - a / k <= (n + k - 1) / k
  {
    var p, t, q, r := a / k, a % k, n / k, n % k;
    DividedParts(a, k);
    DividedParts(n, k);
    SumOfQuotients(p, t, q, r, k);
    assert (a + n) / k == p + q + (if t + r < k then 0 else 1);
    CeilingOf(n, k);
  }

  lemma {:induction false} ModShift(z: int, k: int, m: int)
    requires m > 0
    ensures (z + k * m) % m == z % m
  {
    DividedParts(z, m);
    assert z + k * m == (z / m + k) * m + z % m;
    QuotientOf(z + k * m, z / m + k, z % m, m);
  }
}
