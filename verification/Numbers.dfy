/** The smaller and the larger of two numbers, and what a remainder is. */
module Numbers {
  function Min(a: int, b: int): int {
    if a <= b then a else b
  }

  function Max(a: int, b: int): int {
    if a >= b then a else b
  }

  /** Quotient and remainder are unique. */
  lemma RemainderIs(x: nat, q: nat, r: nat, m: nat)
    requires x == q * m + r && r < m
    ensures x % m == r
  {
    var d := q - x / m;
    assert d * m == q * m - (x / m) * m;
    if d != 0 {
      NonZeroIsLarge(d, m);
    }
  }

  lemma NonZeroIsLarge(d: int, m: int)
    requires d != 0 && m > 0
    ensures d * m >= m || d * m <= -m
  {
    if d >= 1 {
      assert d * m >= m;
    } else {
      assert d * m <= -m;
    }
  }
}
