/** The two numeric roundings of the progression engine, on exact reals. */
module Rounding {

  /**
   * `x` is a whole number of increments of 0.5, the quantum weights are rounded down
   * to. The increment is written as a literal throughout so that the arithmetic stays
   * linear.
   */
  predicate IsIncrementMultiple(x: real) {
    (x / 0.5).Floor as real == x / 0.5
  }

  /** `x` is a whole number of tenths. */
  predicate IsTenths(x: real) {
    (x * 10.0).Floor as real == x * 10.0
  }

  /**
   * `Number(x.toFixed(1))`: `x` rounded to the nearest tenth. `toFixed` rounds the
   * magnitude and puts the sign back, so a value halfway between two tenths moves
   * away from zero. Binary floating-point representation error is not modelled.
   */
  function Round1(x: real): (r: real)
    decreases if x < 0.0 then 1 else 0
    ensures IsTenths(r)
    ensures x - 0.05 <= r <= x + 0.05
    ensures 0.0 <= x ==> 0.0 <= r && x - 0.05 < r
    ensures x <= 0.0 ==> r <= 0.0 && r < x + 0.05
  {
    if x < 0.0 then
      var m := Round1(-x);
      assert (-m) * 10.0 == -(m * 10.0);
      assert ((-m) * 10.0).Floor == -((m * 10.0).Floor);
      -m
    else
      var n := (x * 10.0 + 0.5).Floor;
      assert n as real <= x * 10.0 + 0.5 < n as real + 1.0;
      assert ((n as real) / 10.0) * 10.0 == n as real;
      (n as real) / 10.0
  }

  /** Rounding is symmetric about zero: only the magnitude is rounded. */
  lemma Round1Negate(x: real)
    ensures Round1(-x) == -Round1(x)
  {
    if x < 0.0 {
      assert Round1(x) == -Round1(-x);
    }
  }

  /** A half tenth below zero rounds down, where rounding half up would give -1.2. */
  lemma Round1NegativeTie()
    ensures Round1(-1.25) == -1.3
    ensures Round1(1.25) == 1.3
  {
    assert (1.25 * 10.0 + 0.5).Floor == 13;
  }

  /** A value with at most one decimal place survives `toFixed(1)` unchanged. */
  lemma Round1OfTenths(k: int)
    decreases if k < 0 then 1 else 0
    ensures Round1(k as real / 10.0) == k as real / 10.0
  {
    if k < 0 {
      Round1OfTenths(-k);
      assert (-k) as real / 10.0 == -(k as real / 10.0);
    } else {
      var y := (k as real / 10.0) * 10.0 + 0.5;
      assert y == k as real + 0.5;
      assert y.Floor == k;
    }
  }

  /**
   * `roundDownToIncrement(value)`: the largest whole number of increments not above
   * `value`, passed through `toFixed(1)` (which leaves such a multiple unchanged).
   */
  function RoundDownToIncrement(value: real): (r: real)
    ensures IsIncrementMultiple(r)
    ensures r <= value
    ensures value - 0.5 < r
    ensures IsIncrementMultiple(value) ==> r == value
  {
    var factor := (value / 0.5).Floor;
    Round1OfTenths(5 * factor);
    assert factor as real * 0.5 == (5 * factor) as real / 10.0;
    assert (factor as real * 0.5) / 0.5 == factor as real;
    Round1(factor as real * 0.5)
  }

  /** Rounding down never reverses the order of two weights. */
  lemma RoundDownMonotone(v: real, w: real)
    requires v <= w
    ensures RoundDownToIncrement(v) <= RoundDownToIncrement(w)
  {
    var a := RoundDownToIncrement(v) / 0.5;
    var b := RoundDownToIncrement(w) / 0.5;
    assert a.Floor as real == a && b.Floor as real == b;
    assert RoundDownToIncrement(v) <= w;
    assert a <= w / 0.5;
    assert w / 0.5 < b + 1.0;
    assert a.Floor < b.Floor + 1;
  }
}
