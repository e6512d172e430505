/** Division and remainder in a circle of n places. */
module Cyclic {

  lemma Times(n: nat, d: int)
    ensures (d >= 1 ==> n * d >= n) && (d <= 0 ==> n * d <= 0) && (d <= -1 ==> n * d + n <= 0)
  {}

  lemma DivUnique(a: nat, n: nat, q: int, r: nat)
    requires n > 0 && a == n * q + r && r < n
    ensures a / n == q && a % n == r
  {
    var d := a / n - q;
    assert n * d == r - a % n by { assert a == n * (a / n) + a % n; }
    Times(n, d);
  }

  /** Whole turns do not change a remainder. */
  lemma AddMultiple(r: nat, n: nat, k: nat)
    requires n > 0
    ensures (r + n * k) % n == r % n
  {
    assert r + n * k == n * (r / n + k) + r % n;
    DivUnique(r + n * k, n, r / n + k, r % n);
  }

  /** Fewer than n steps never return to the same place. */
  lemma Apart(k: nat, p: nat, n: nat)
    requires n > 0 && k < p < k + n
    ensures k % n != p % n
  {
    var d := p / n - k / n;
    assert p - k == n * d + (p % n - k % n) by { assert p == n * (p / n) + p % n && k == n * (k / n) + k % n; }
    Times(n, d);
  }

  lemma Step(p: nat, n: nat)
    requires n > 0
    ensures if p % n + 1 == n then (p + 1) % n == 0 && (p + 1) / n == p / n + 1
            else (p + 1) % n == p % n + 1 && (p + 1) / n == p / n
  {
    var q := p / n;
    assert p == n * q + p % n;
    if p % n + 1 == n {
      assert p + 1 == n * (q + 1) + 0;
      DivUnique(p + 1, n, q + 1, 0);
    } else {
      DivUnique(p + 1, n, q, p % n + 1);
    }
  }

  lemma Back(p: nat, n: nat)
    requires 0 < n <= p
    ensures (p - n) % n == p % n && (p - n) / n == p / n - 1
  {
    var q := p / n;
    assert p == n * q + p % n;
    assert p - n == n * (q - 1) + p % n;
    DivUnique(p - n, n, q - 1, p % n);
  }
}
