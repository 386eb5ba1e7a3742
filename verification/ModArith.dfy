/**
 The few facts about multiplication and remainders the audio rings need.
 */
module ModArith {

  lemma {:induction false} AtLeastOnce(a: nat, m: nat)
    requires a >= 1
    ensures a * m >= m
    decreases a
  {
    if a > 1 {
      AtLeastOnce(a - 1, m);
      assert a * m == (a - 1) * m + m;
    }
  }

  /** Quotient and remainder are unique. */
  lemma DivModUnique(x: int, q: int, r: int, m: int)
    requires 0 <= r < m && x == q * m + r
    ensures x / m == q && x % m == r
  {
    var q', r' := x / m, x % m;
    assert x == q' * m + r';
    if q > q' {
      assert (q - q') * m == q * m - q' * m;
      AtLeastOnce(q - q', m);
    } else if q < q' {
      assert (q' - q) * m == q' * m - q * m;
      AtLeastOnce(q' - q, m);
    }
  }

  lemma MultipleOf(q: int, m: int)
    requires m > 0
    ensures (q * m) % m == 0
  {
    DivModUnique(q * m, q, 0, m);
  }

  lemma SumOfMultiples(x: int, y: int, m: int)
    requires m > 0 && x % m == 0 && y % m == 0
    ensures (x + y) % m == 0 && (x - y) % m == 0
  {
    var p, q := x / m, y / m;
    assert x == p * m && y == q * m;
    assert x + y == (p + q) * m && x - y == (p - q) * m;
    MultipleOf(p + q, m);
    MultipleOf(p - q, m);
  }

  /** Adding to a remainder is adding to the whole. */
  lemma ModAdd(y: int, z: int, m: int)
    requires m > 0
    ensures (y % m + z) % m == (y + z) % m
  {
    var s := y % m + z;
    var q, p := y / m, s / m;
    assert y == q * m + y % m;
    assert s == p * m + s % m;
    assert y + z == (q + p) * m + s % m by {
      assert (q + p) * m == q * m + p * m;
    }
    DivModUnique(y + z, q + p, s % m, m);
  }

  lemma Distribute(x: int, y: int, m: int)
    ensures (x + y) * m == x * m + y * m
  {
  }

  /** A quotient is at least every number of times the divisor goes into it. */
  lemma AtMostQuotient(x: nat, q: nat, m: nat)
    requires m > 0 && q * m <= x
    ensures q <= x / m
  {
    var d := x - q * m;
    Distribute(q, d / m, m);
    assert d == d / m * m + d % m;
    DivModUnique(x, q + d / m, d % m, m);
  }

  lemma ProductIsNat(x: nat, y: nat)
    ensures x * y >= 0
  {
  }

  /** A smaller divisor gives a larger quotient. */
  lemma QuotientGrows(x: nat, small: nat, large: nat)
    requires 0 < small <= large
    ensures x / small >= x / large
  {
    var q := x / large;
    assert x == q * large + x % large;
    ProductIsNat(q, large - small);
    assert q * large == q * small + q * (large - small);
    AtMostQuotient(x, q, small);
  }
}
