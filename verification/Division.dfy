/** Division with remainder. */
module Division {
  lemma ProductMonotone(a: nat, b: nat, c: nat)
    requires a <= b
    ensures a * c <= b * c
  {
    assert (b - a) * c >= 0;
  }

  lemma SameQuotient(d: nat, q: nat, r: nat, p: nat, s: nat)
    requires r < d && s < d && q * d + r == p * d + s
    ensures q == p && r == s
  {
    assert (q + 1) * d == q * d + d && (p + 1) * d == p * d + d;
    if q < p {
      ProductMonotone(q + 1, p, d);
    } else if p < q {
      ProductMonotone(p + 1, q, d);
    }
  }

  lemma DivisionUnique(n: nat, d: nat, q: nat, r: nat)
    requires d > 0 && r < d && n == q * d + r
    ensures n / d == q && n % d == r
  {
    SameQuotient(d, q, r, n / d, n % d);
  }
}
