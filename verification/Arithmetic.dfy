/** Facts about products, quotients and multiples that the solver needs one at a time. */
module Arithmetic {

  lemma Distribute(a: int, b: int, d: int)
    ensures (a + b) * d == a * d + b * d
    ensures (a - b) * d == a * d - b * d
  {
  }

  lemma Reassociate(a: int, b: int, c: int)
    ensures a * b * c == a * (b * c)
  {
  }

  lemma MultipleAtLeast(k: int, d: int)
    requires 0 < d
    ensures 1 <= k ==> d <= k * d
    ensures k <= -1 ==> k * d <= -d
  {
  }

  lemma DivModUnique(n: int, d: int, q: int, r: int)
    requires 0 <= r < d && n == q * d + r
    ensures n / d == q && n % d == r
  {
    var q', r' := n / d, n % d;
    assert n == q' * d + r' && 0 <= r' < d;
    Distribute(q, q', d);
    MultipleAtLeast(q - q', d);
  }

  lemma MultiplesApart(a: int, b: int, d: int)
    requires 0 < d && a % d == 0 && b % d == 0 && a < b
    ensures a + d <= b
  {
    var p, q := a / d, b / d;
    assert a == p * d && b == q * d;
    Distribute(q, p, d);
    MultipleAtLeast(q - p, d);
  }

  lemma MultipleOfMultiple(n: int, f: int, g: int)
    requires 0 < f && 0 < g && n % f == 0 && f % g == 0
    ensures n % g == 0
  {
    assert n == n / f * f && f == f / g * g;
    Reassociate(n / f, f / g, g);
    DivModUnique(n, g, n / f * (f / g), 0);
  }
}
