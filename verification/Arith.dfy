/** The few nonlinear facts the models need, each proved once. */
module Arith {

  lemma MulMono(a: int, b: int, k: nat)
    requires a <= b
    ensures a * k <= b * k
  {
    assert (b - a) * k >= 0;
  }

  lemma MulDistrib(a: int, b: int, k: int)
    ensures (a + b) * k == a * k + b * k
    ensures (a - b) * k == a * k - b * k
  {
  }

  lemma EuclidUnique(q: int, r: int, q': int, r': int, d: nat)
    requires 0 <= r < d && 0 <= r' < d
    requires q * d + r == q' * d + r'
    ensures q == q' && r == r'
  {
    if q < q' {
      MulMono(q + 1, q', d);
      MulDistrib(q, 1, d);
    } else if q' < q {
      MulMono(q' + 1, q, d);
      MulDistrib(q', 1, d);
    }
  }

  lemma DivModIs(n: int, d: nat, q: int, r: int)
    requires 0 <= r < d && n == q * d + r
    ensures n / d == q && n % d == r
  {
    EuclidUnique(n / d, n % d, q, r, d);
  }

  lemma SubMultiple(n: int, d: nat, k: int)
    requires d > 0
    ensures (n - k * d) % d == n % d && (n - k * d) / d == n / d - k
  {
    MulDistrib(n / d, k, d);
    DivModIs(n - k * d, d, n / d - k, n % d);
  }

  lemma AddMultiple(n: int, d: nat, k: int)
    requires d > 0
    ensures (n + k * d) % d == n % d && (n + k * d) / d == n / d + k
  {
    SubMultiple(n, d, -k);
    assert n - (-k) * d == n + k * d;
  }

  lemma ModStep(n: int, d: nat)
    requires 0 < d
    ensures (n - d) % d == n % d && (n - d) / d == n / d - 1
    ensures (n + d) % d == n % d && (n + d) / d == n / d + 1
  {
    SubMultiple(n, d, 1);
    AddMultiple(n, d, 1);
  }

  lemma SmallMod(n: nat, d: nat)
    requires n < d
    ensures n % d == n && n / d == 0
  {
  }

  lemma DivLeMul(n: nat, d: nat)
    requires d > 0
    ensures n / d * d + n % d == n
    ensures 0 <= n / d * d <= n
  {
  }

  function Pow2(k: nat): (p: nat)
    ensures p >= 1
  {
    if k == 0 then 1 else 2 * Pow2(k - 1)
  }

  lemma {:induction false} Pow2Grows(a: nat, b: nat)
    requires a <= b
    ensures Pow2(a) <= Pow2(b)
    decreases b - a
  {
    if a < b {
      Pow2Grows(a, b - 1);
    }
  }
}
