/**
 * Python 2's built-in `round(x, n)` on exact reals: the nearest multiple of
 * 10^-n, a tie going away from zero (Python 2 rounds 0.5 to 1.0 and -0.5 to
 * -1.0). Every numeric descriptor of the table builder passes its value
 * through it, with n = 4 or with no n (a whole number).
 */
module Rounding {

  /** `x` times 10^d, one factor of ten at a time. */
  function Scale(x: real, d: nat): real {
    if d == 0 then x else 10.0 * Scale(x, d - 1)
  }

  /** `y` divided by 10^d, one factor of ten at a time. */
  function Unscale(y: real, d: nat): real {
    if d == 0 then y else Unscale(y, d - 1) / 10.0
  }

  /** The integer `m` times 10^d. */
  function ScaleInt(m: int, d: nat): int {
    if d == 0 then m else 10 * ScaleInt(m, d - 1)
  }

  /**
   * `round(x)`: the integer nearest to `x`, a tie going away from zero. The
   * clauses pin the result down: it is within one half of `x`, and on a tie
   * it lies on the far side of `x` from zero.
   */
  function RoundHalfAway(x: real): (n: int)
    ensures n as real - x <= 0.5 && x - n as real <= 0.5
    ensures x >= 0.0 ==> n >= 0 && x - n as real < 0.5
    ensures x < 0.0 ==> n <= 0 && n as real - x < 0.5
  {
    if x >= 0.0 then (x + 0.5).Floor else -((0.5 - x).Floor)
  }

  /** `round(x, digits)`. */
  function Round(x: real, digits: nat): real {
    Unscale(RoundHalfAway(Scale(x, digits)) as real, digits)
  }

  // ---------------------------------------------------------------------------
  // Scaling by powers of ten
  // ---------------------------------------------------------------------------

  /** Dividing by ten first or last comes to the same. */
  lemma {:induction false} UnscaleShift(y: real, d: nat)
    requires d > 0
    ensures Unscale(y, d) == Unscale(y / 10.0, d - 1)
  {
    if d > 1 {
      UnscaleShift(y, d - 1);
    }
  }

  /** Multiplying by ten first or last comes to the same. */
  lemma {:induction false} ScaleShift(x: real, d: nat)
    requires d > 0
    ensures Scale(x, d) == Scale(10.0 * x, d - 1)
  {
    if d > 1 {
      ScaleShift(x, d - 1);
    }
  }

  lemma {:induction false} ScaleUnscale(y: real, d: nat)
    decreases d
    ensures Scale(Unscale(y, d), d) == y
  {
    if d > 0 {
      UnscaleShift(y, d);
      ScaleUnscale(y / 10.0, d - 1);
      ScaleShift(Unscale(y / 10.0, d - 1), d);
      ScaleLinear(Unscale(y / 10.0, d - 1), d - 1);
    }
  }

  /** Scaling commutes with multiplying by ten. */
  lemma {:induction false} ScaleLinear(x: real, d: nat)
    ensures Scale(10.0 * x, d) == 10.0 * Scale(x, d)
  {
    if d > 0 {
      ScaleLinear(x, d - 1);
    }
  }

  lemma {:induction false} UnscaleScale(x: real, d: nat)
    decreases d
    ensures Unscale(Scale(x, d), d) == x
  {
    if d > 0 {
      ScaleShift(x, d);
      UnscaleShift(Scale(x, d), d);
      UnscaleScale(10.0 * x, d - 1);
      UnscaleLinear(Scale(10.0 * x, d - 1), d - 1);
      UnscaleLinear10(Scale(x, d), d - 1);
    }
  }

  /** Unscaling commutes with dividing by ten. */
  lemma {:induction false} UnscaleLinear10(y: real, d: nat)
    ensures Unscale(y / 10.0, d) == Unscale(y, d) / 10.0
  {
    if d > 0 {
      UnscaleLinear10(y, d - 1);
    }
  }

  /** Unscaling commutes with multiplying by ten. */
  lemma {:induction false} UnscaleLinear(y: real, d: nat)
    ensures Unscale(10.0 * y, d) == 10.0 * Unscale(y, d)
  {
    if d > 0 {
      UnscaleLinear(y, d - 1);
    }
  }

  lemma {:induction false} ScaleMonotone(x: real, y: real, d: nat)
    requires x <= y
    ensures Scale(x, d) <= Scale(y, d)
  {
    if d > 0 {
      ScaleMonotone(x, y, d - 1);
    }
  }

  lemma {:induction false} UnscaleMonotone(x: real, y: real, d: nat)
    requires x <= y
    ensures Unscale(x, d) <= Unscale(y, d)
  {
    if d > 0 {
      UnscaleMonotone(x, y, d - 1);
    }
  }

  lemma {:induction false} ScaleDifference(x: real, y: real, d: nat)
    ensures Scale(x - y, d) == Scale(x, d) - Scale(y, d)
  {
    if d > 0 {
      ScaleDifference(x, y, d - 1);
    }
  }

  lemma {:induction false} ScaleOfInt(m: int, d: nat)
    ensures Scale(m as real, d) == ScaleInt(m, d) as real
  {
    if d > 0 {
      ScaleOfInt(m, d - 1);
    }
  }

  // ---------------------------------------------------------------------------
  // What rounding promises
  // ---------------------------------------------------------------------------

  /** An integer is its own rounding. */
  lemma RoundHalfAwayInteger(m: int)
    ensures RoundHalfAway(m as real) == m
  {
    var n := RoundHalfAway(m as real);
    assert -1 < n - m < 1;
  }

  /** The rounded value is within half a unit of the last kept place. */
  lemma RoundError(x: real, digits: nat)
    ensures -0.5 <= Scale(Round(x, digits) - x, digits) <= 0.5
  {
    var n := RoundHalfAway(Scale(x, digits));
    ScaleUnscale(n as real, digits);
    ScaleDifference(Round(x, digits), x, digits);
  }

  /** Rounding a rounded value changes nothing. */
  lemma RoundIdempotent(x: real, digits: nat)
    ensures Round(Round(x, digits), digits) == Round(x, digits)
  {
    var n := RoundHalfAway(Scale(x, digits));
    ScaleUnscale(n as real, digits);
    RoundHalfAwayInteger(n);
  }

  /** Rounding keeps a value of [lo, hi] inside it when both ends are whole numbers. */
  lemma RoundWithin(x: real, digits: nat, lo: int, hi: int)
    requires lo as real <= x <= hi as real
    ensures lo as real <= Round(x, digits) <= hi as real
  {
    var n := RoundHalfAway(Scale(x, digits));
    ScaleMonotone(lo as real, x, digits);
    ScaleMonotone(x, hi as real, digits);
    ScaleOfInt(lo, digits);
    ScaleOfInt(hi, digits);
    assert ScaleInt(lo, digits) <= n <= ScaleInt(hi, digits);
    UnscaleMonotone(ScaleInt(lo, digits) as real, n as real, digits);
    UnscaleMonotone(n as real, ScaleInt(hi, digits) as real, digits);
    UnscaleScale(lo as real, digits);
    UnscaleScale(hi as real, digits);
  }

  /** A value of [0, 1] rounded to a whole number is 0 or 1, and 1 exactly from one half up. */
  lemma RoundUnitToWhole(x: real)
    requires 0.0 <= x <= 1.0
    ensures Round(x, 0) == 0.0 || Round(x, 0) == 1.0
    ensures Round(x, 0) == 1.0 <==> x >= 0.5
  {
    assert Round(x, 0) == RoundHalfAway(x) as real;
  }
}
