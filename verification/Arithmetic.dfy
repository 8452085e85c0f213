/** Products and quotients of naturals. */
module Arithmetic {
  lemma Times(x: nat, y: nat, d: nat)
    requires x <= y
    ensures x * d <= y * d && (x + 1) * d == x * d + d
  {
  }

  lemma QuotientIs(n: nat, d: nat, q: nat)
    requires d > 0 && q * d <= n < q * d + d
    ensures n / d == q
  {
    var r := n / d;
    assert r * d <= n < r * d + d;
    if r < q { Times(r + 1, q, d); }
    if r > q { Times(q + 1, r, d); }
  }

  lemma FloorBelow(n: nat, d: nat, e: nat)
    requires d > 0
    ensures n / d < e <==> n < e * d
  {
    var q := n / d;
    assert q * d <= n < q * d + d;
    if q < e { Times(q + 1, e, d); Times(q, q, d); } else { Times(e, q, d); }
  }

  lemma DivGrows(a: nat, b: nat, d: nat)
    requires a <= b && d > 0
    ensures a / d <= b / d
  {
    var q, r := a / d, b / d;
    assert q * d <= a && b < r * d + d;
    if r < q { Times(r + 1, q, d); }
  }
}
