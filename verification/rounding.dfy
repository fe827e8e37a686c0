/** Decimal rounding as done by Python's `round(Decimal, ndigits)`: the
    default decimal context rounds half to even. Amounts are exact reals. */
module Rounding {

  /** 10 to the power n. */
  function Pow10(n: nat): (r: int)
    ensures r >= 1
  {
    if n == 0 then 1 else 10 * Pow10(n - 1)
  }

  /** The integer nearest to x; a tie goes to the even neighbour. */
  function RoundHalfEven(x: real): (k: int)
    ensures -0.5 <= k as real - x <= 0.5
    ensures k as real - x == 0.5 || k as real - x == -0.5 ==> k % 2 == 0
  {
    var f := x.Floor;
    var frac := x - f as real;
    if frac < 0.5 then f
    else if frac > 0.5 then f + 1
    else if f % 2 == 0 then f
    else f + 1
  }

  /** x is a multiple of 10^-ndigits, i.e. it has at most ndigits decimals. */
  predicate OnGrid(x: real, ndigits: nat) {
    Scale(x, ndigits).Floor as real == Scale(x, ndigits)
  }

  /** x expressed in units of 10^-ndigits. */
  function Scale(x: real, ndigits: nat): real {
    x * Pow10(ndigits) as real
  }

  /** `round(x, ndigits)`: the multiple of 10^-ndigits nearest to x, ties to even. */
  function Round(x: real, ndigits: nat): (r: real)
    ensures OnGrid(r, ndigits)
    ensures -0.5 / Pow10(ndigits) as real <= r - x <= 0.5 / Pow10(ndigits) as real
    // A tie goes to the neighbour whose last kept digit is even.
    ensures r - x == 0.5 / Pow10(ndigits) as real || r - x == -0.5 / Pow10(ndigits) as real ==>
      Scale(r, ndigits).Floor % 2 == 0
  {
    var p := Pow10(ndigits) as real;
    var k := RoundHalfEven(Scale(x, ndigits));
    assert Scale(x, ndigits) == x * p;
    ScaleBack(k, x, p);
    assert Scale(k as real / p, ndigits) == k as real;
    assert (k as real).Floor == k;
    TieScales(k, x, p);
    k as real / p
  }

  /** A distance of half a unit after scaling back is a distance of one half
      before. */
  lemma TieScales(k: int, x: real, p: real)
    requires p >= 1.0
    ensures k as real / p - x == 0.5 / p ==> k as real - x * p == 0.5
    ensures k as real / p - x == -0.5 / p ==> k as real - x * p == -0.5
  {
    var d := k as real / p - x;
    assert d * p == k as real - x * p by {
      assert (k as real / p) * p == k as real;
    }
    assert (0.5 / p) * p == 0.5;
    assert (-0.5 / p) * p == -0.5;
  }

  /** Dividing the rounded, scaled value back by the scale keeps the error
      within half a unit of the last kept decimal. */
  lemma ScaleBack(k: int, x: real, p: real)
    requires p >= 1.0
    requires -0.5 <= k as real - x * p <= 0.5
    ensures (k as real / p) * p == k as real
    ensures -0.5 / p <= k as real / p - x <= 0.5 / p
  {
    assert (k as real / p) * p == k as real;
    assert (k as real).Floor == k;
    var d := k as real - x * p;
    assert k as real / p - x == d / p;
    assert -0.5 / p <= d / p <= 0.5 / p by {
      assert d / p * p == d;
      assert (-0.5 / p) * p == -0.5;
      assert (0.5 / p) * p == 0.5;
    }
  }

  /** An integer rounds to itself. */
  lemma RoundHalfEvenOfInteger(k: int)
    ensures RoundHalfEven(k as real) == k
  {
    assert (k as real).Floor == k;
  }

  /** A value that already has at most ndigits decimals is left unchanged. */
  lemma RoundFixesGrid(x: real, ndigits: nat)
    requires OnGrid(x, ndigits)
    ensures Round(x, ndigits) == x
  {
    var k := Scale(x, ndigits).Floor;
    RoundHalfEvenOfInteger(k);
    assert RoundHalfEven(Scale(x, ndigits)) == k;
    assert k as real / Pow10(ndigits) as real == x;
  }

  /** Rounding is stable: re-rounding an already rounded figure gives the same
      figure, so re-deriving from rounded intermediates cannot drift. */
  lemma RoundIdempotent(x: real, ndigits: nat)
    ensures Round(Round(x, ndigits), ndigits) == Round(x, ndigits)
  {
    RoundFixesGrid(Round(x, ndigits), ndigits);
  }
}
