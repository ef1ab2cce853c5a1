/** The few facts about products and quotients the solver needs spelled out. */
module Arithmetic {

  lemma Distribute(x: int, y: int, z: int)
    ensures (x + y) * z == x * z + y * z
  {
  }

  lemma {:induction false} ProductNonnegative(x: int, y: int)
    requires x >= 0 && y >= 0
    ensures x * y >= 0
  {
    if x > 0 {
      ProductNonnegative(x - 1, y);
      Distribute(x - 1, 1, y);
    }
  }

  lemma QuotientOf(x: int, q: int, r: int, n: int)
    requires n > 0 && 0 <= r < n && x == q * n + r
    ensures x / n == q && x % n == r
  {
    var d := x / n - q;
    Distribute(x / n, -q, n);
    assert d * n == r - x % n;
    if d >= 1 {
      ProductNonnegative(d - 1, n);
      Distribute(d - 1, 1, n);
    } else if d <= -1 {
      Distribute(d, -d, n);
      Distribute(-d - 1, 1, n);
      ProductNonnegative(-d - 1, n);
    }
  }
}
