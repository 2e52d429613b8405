/** Division, remainders and powers of two. */
module Arithmetic {

  function Pow2(n: nat): (r: nat)
    ensures r >= 1
  {
    if n == 0 then 1 else 2 * Pow2(n - 1)
  }

  lemma ModBelow(x: nat, p: nat)
    requires p > 0
    ensures x % p <= x && x % p < p
  {
    assert x == p * (x / p) + x % p;
  }

  /** The value with its low `h` bits cleared. */
  function Masked(x: nat, h: nat): (r: nat)
    ensures r <= x
  {
    ModBelow(x, Pow2(h));
    x - x % Pow2(h)
  }

  lemma DivModStep(n: nat, m: nat)
    requires m > 0
    ensures n % m == m - 1 ==> (n + 1) / m == n / m + 1 && (n + 1) % m == 0
    ensures n % m != m - 1 ==> (n + 1) / m == n / m && (n + 1) % m == n % m + 1
  {
    var q, r := n / m, n % m;
    if r == m - 1 {
      DivModUnique(n + 1, m, q + 1, 0);
    } else {
      DivModUnique(n + 1, m, q, r + 1);
    }
  }

  lemma DivModUnique(n: nat, m: nat, q: nat, r: nat)
    requires r < m && n == q * m + r
    ensures n / m == q && n % m == r
  {
    var d := q - n / m;
    assert n == m * (n / m) + n % m;
    assert d * m == q * m - m * (n / m);
    MulSpread(d, m);
  }

  lemma MulSpread(d: int, m: int)
    requires m > 0
    ensures d >= 1 ==> d * m >= m
    ensures d <= -1 ==> d * m <= -m
  {
    if d >= 1 {
      assert (d - 1) * m >= 0;
    } else if d <= -1 {
      assert (-d - 1) * m >= 0;
    }
  }

  lemma ModAddMultiple(a: nat, n: nat, k: int)
    requires n > 0 && a + n * k >= 0
    ensures (a + n * k) % n == a % n
  {
    var b := a + n * k;
    var x := b / n - (a / n + k);
    assert b == n * (b / n) + b % n && a == n * (a / n) + a % n;
    assert x * n == a % n - b % n;
    MulSpread(x, n);
  }

  /** Stepping `i` places on a ring of `n` from the place of `c`. */
  lemma ModOffset(c: nat, i: nat, n: nat)
    requires i < n
    ensures (c + i) % n == if c % n + i < n then c % n + i else c % n + i - n
  {
    var q, r := c / n, c % n;
    assert c == q * n + r;
    if r + i < n {
      DivModUnique(c + i, n, q, r + i);
    } else {
      assert (q + 1) * n == q * n + n;
      DivModUnique(c + i, n, q + 1, r + i - n);
    }
  }
}
