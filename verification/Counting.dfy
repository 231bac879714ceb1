/** Counting around a circle. */
module Counting {

  lemma {:induction false} Multiples(a: nat, b: nat, m: nat)
    requires a < b
    ensures a * m + m <= b * m
  {
    assert b * m == (b - 1) * m + m;
    if a + 1 < b { Multiples(a, b - 1, m); }
  }

  lemma Remainder(n: nat, q: nat, r: nat, m: nat)
    requires r < m && n == q * m + r
    ensures n % m == r
  {
    var q', r' := n / m, n % m;
    assert q' * m + r' == q * m + r;
    if q < q' {
      Multiples(q, q', m);
    } else if q' < q {
      Multiples(q', q, m);
    }
  }

  /** One further. */
  lemma CountsAround(n: nat, m: nat)
    requires n >= 1 && m >= 1
    ensures n % m == if (n - 1) % m == m - 1 then 0 else (n - 1) % m + 1
  {
    var q, r := (n - 1) / m, (n - 1) % m;
    assert n == q * m + (r + 1);
    if r == m - 1 {
      assert n == (q + 1) * m;
      Remainder(n, q + 1, 0, m);
    } else {
      Remainder(n, q, r + 1, m);
    }
  }

  /** A whole turn further. */
  lemma WholeTurn(n: nat, m: nat)
    requires m >= 1
    ensures (n + m) % m == n % m
  {
    assert n + m == (n / m + 1) * m + n % m;
    Remainder(n + m, n / m + 1, n % m, m);
  }
}
