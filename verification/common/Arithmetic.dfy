/** Facts about quotients and remainders that the solver does not find by itself. */
module Arithmetic {

  lemma {:induction false} NextMultiple(x: nat, y: nat, m: nat)
    requires x < y
    ensures x * m + m <= y * m
    decreases y
  {
    assert (y - 1) * m + m == y * m;
    if x < y - 1 {
      NextMultiple(x, y - 1, m);
    }
  }

  /** Digits are unique. */
  lemma DigitsAgree(x: nat, y: nat, x': nat, y': nat, m: nat)
    requires y < m && y' < m && x * m + y == x' * m + y'
    ensures x == x' && y == y'
  {
    assert x' <= x by {
      if x < x' { NextMultiple(x, x', m); }
    }
    assert x <= x' by {
      if x' < x { NextMultiple(x', x, m); }
    }
  }

  lemma DivisionIsUnique(x: nat, d: nat, q: nat, r: nat)
    requires x == q * d + r && r < d
    ensures x % d == r
  {
    assert x == (x / d) * d + x % d;
    DigitsAgree(x / d, x % d, q, r, d);
  }

  lemma QuotientOfProduct(q: nat, b: nat)
    requires b > 0
    ensures (q * b) / b == q
  {
    var x := q * b;
    assert x == (x / b) * b + x % b;
    DigitsAgree(x / b, x % b, q, 0, b);
  }
}
