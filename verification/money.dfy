/**
 * Money is held in whole cents. Python's `round(x, 2)` of a quotient
 * `amount / n` becomes `RoundHalfEven(amountCents, n)`: the nearest whole
 * number of cents, ties going to the even neighbour (Python's rounding rule,
 * applied to the exact rational rather than to its binary float).
 */
module Money {

  function Abs(x: int): (r: nat)
    ensures r == x || r == -x
  {
    if x < 0 then -x else x
  }

  /** The integer nearest to a / d; a tie goes to the even integer. */
  function RoundHalfEven(a: int, d: int): (r: int)
    requires d > 0
    ensures 2 * Abs(r * d - a) <= d
    ensures 2 * Abs(r * d - a) == d ==> r % 2 == 0
  {
    var q, m := a / d, a % d;
    assert a == q * d + m;
    assert (q + 1) * d - a == d - m;
    if 2 * m < d then q
    else if 2 * m > d then q + 1
    else if q % 2 == 0 then q
    else q + 1
  }

  /** The two properties above determine the rounded value uniquely. */
  lemma RoundHalfEvenUnique(a: int, d: int, x: int)
    requires d > 0
    requires 2 * Abs(x * d - a) <= d
    requires 2 * Abs(x * d - a) == d ==> x % 2 == 0
    ensures x == RoundHalfEven(a, d)
  {
    var r := RoundHalfEven(a, d);
    MultiplesApart(a, d, x, r);
    MultiplesApart(a, d, r, x);
  }

  /** Multiples lo * d and hi * d of d lie at least (hi - lo) * d apart, so at least d when lo < hi. */
  lemma MultiplesApart(a: int, d: int, lo: int, hi: int)
    requires d > 0
    ensures lo < hi ==> Abs(lo * d - a) + Abs(hi * d - a) >= d
    ensures lo + 1 < hi ==> Abs(lo * d - a) + Abs(hi * d - a) >= 2 * d
  {
    if lo < hi {
      var k := hi - lo;
      assert hi * d - lo * d == k * d;
      assert k * d == (k - 1) * d + d;
      assert (k - 1) * d >= 0;
      if lo + 1 < hi {
        assert (k - 1) * d == (k - 2) * d + d;
        assert (k - 2) * d >= 0;
      }
    }
  }
}
