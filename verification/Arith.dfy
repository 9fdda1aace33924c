/** Facts about division by a symbolic positive number, proved once. */
module Arith {

  lemma Remainder(n: nat, m: nat, q: int, r: nat)
    requires 0 < m && r < m && n == q * m + r
    ensures n / m == q && n % m == r
  {
    var d := n / m - q;
    assert n == (n / m) * m + n % m;
    assert d * m == r - n % m;
    if d >= 1 { Scale(d, m); }
    if d <= -1 { Scale(-d, m); }
  }

  lemma Scale(d: int, m: nat)
    requires d >= 1
    ensures d * m >= m && (-d) * m == -(d * m)
  {
  }

  lemma LapFacts(cap: nat, p: nat, q: nat)
    requires cap > 0
    ensures p % cap < cap && (p + cap) % cap == p % cap
    ensures p < q < p + cap ==> p % cap != q % cap
  {
    var a, b := p / cap, q / cap;
    assert p == a * cap + p % cap;
    assert (a + 1) * cap == a * cap + cap;
    Remainder(p + cap, cap, a + 1, p % cap);
    if p < q < p + cap && p % cap == q % cap {
      assert q == b * cap + q % cap;
      assert (b - a) * cap == q - p;
      if b - a >= 1 { Scale(b - a, cap); }
      if b - a <= -1 { Scale(a - b, cap); }
      assert false;
    }
  }
}
