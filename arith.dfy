/** Facts about division and remainder by a positive number that the solver does not find alone. */
module Arith {
  /** A positive multiple is at least the multiplicand. */
  lemma {:induction false} MulAtLeast(d: nat, c: nat)
    requires d >= 1
    ensures d * c >= c
  {
    if d > 1 {
      MulAtLeast(d - 1, c);
      assert d * c == (d - 1) * c + c;
    }
  }

  /** Quotient and remainder are the unique q and r with a == q * c + r and 0 <= r < c. */
  lemma DivModUnique(a: int, c: int, q: int, r: int)
    requires c > 0 && 0 <= r < c && a == q * c + r
    ensures a / c == q && a % c == r
  {
    var q2, r2 := a / c, a % c;
    var d := q - q2;
    assert d * c == r2 - r by {
      assert d * c == q * c - q2 * c;
    }
    if d > 0 {
      MulAtLeast(d, c);
    }
  }

  /** Adding one after taking the remainder is adding one before. */
  lemma ModSucc(a: nat, c: nat)
    requires c > 0
    ensures (a % c + 1) % c == (a + 1) % c
  {
    var q, r := a / c, a % c;
    if r + 1 < c {
      DivModUnique(r + 1, c, 0, r + 1);
      DivModUnique(a + 1, c, q, r + 1);
    } else {
      DivModUnique(r + 1, c, 1, 0);
      assert a + 1 == (q + 1) * c + 0 by {
        assert (q + 1) * c == q * c + c;
      }
      DivModUnique(a + 1, c, q + 1, 0);
    }
  }
}
