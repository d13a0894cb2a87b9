/** Integer helpers: powers of two and the uniqueness of Euclidean division,
    used to reason about bit fields and about wrap-around arithmetic. */
module Arith {

  function Pow2(n: nat): (r: nat)
    ensures r >= 1
  {
    if n == 0 then 1 else 2 * Pow2(n - 1)
  }

  lemma {:induction false} Pow2Add(a: nat, b: nat)
    ensures Pow2(a + b) == Pow2(a) * Pow2(b)
  {
    if a > 0 {
      Pow2Add(a - 1, b);
      assert Pow2(a + b) == 2 * Pow2(a - 1 + b);
    }
  }

  lemma {:induction false} Pow2Monotone(a: nat, b: nat)
    requires a <= b
    ensures Pow2(a) <= Pow2(b)
  {
    if a < b {
      Pow2Monotone(a, b - 1);
    }
  }

  /** Quotient and remainder are determined by any decomposition n == q * k + r with 0 <= r < k. */
  lemma DivModUnique(n: int, k: int, q: int, r: int)
    requires k > 0 && 0 <= r < k && n == q * k + r
    ensures n / k == q && n % k == r
  {
    var q', r' := n / k, n % k;
    assert n == q' * k + r';
    if q' < q {
      assert (q - q') * k == r' - r;
      MulAtLeast(q - q', k);
      assert false;
    } else if q' > q {
      assert (q' - q) * k == r - r';
      MulAtLeast(q' - q, k);
      assert false;
    }
  }

  lemma MulAtLeast(a: int, k: int)
    requires a >= 1 && k > 0
    ensures a * k >= k
  {
    assert a * k == (a - 1) * k + k;
    assert (a - 1) * k >= 0;
  }

  /** Taking the remainder before a multiply-add does not change the final remainder. */
  lemma ModMulAdd(a: int, c: int, b: int, m: int)
    requires m > 0
    ensures ((a % m) * c + b) % m == (a * c + b) % m
  {
    var q := a / m;
    assert a == q * m + a % m;
    assert a * c + b == (a % m) * c + b + (q * c) * m;
    ModAddMultiple((a % m) * c + b, q * c, m);
  }

  lemma ModAddMultiple(x: int, t: int, m: int)
    requires m > 0
    ensures (x + t * m) % m == x % m
  {
    var q := x / m;
    assert x == q * m + x % m;
    assert x + t * m == (q + t) * m + x % m;
    DivModUnique(x + t * m, m, q + t, x % m);
  }
}
