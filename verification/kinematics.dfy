/** Constant-deceleration kinematics used by the momentum animator:
    v(t) = |v0| - a*t and s(t) = |v0*t| - a*t*t/2, with `a` the deceleration
    magnitude and `t` the time elapsed since the run started. */
module Kinematics {
  import opened Reals

  /** The unsigned speed left after `t` seconds. */
  function UnsignedVelocity(v0: real, a: real, t: real): (r: real)
    ensures t == 0.0 ==> r == Abs(v0)
    ensures a >= 0.0 && t >= 0.0 ==> r <= Abs(v0)
    ensures a > 0.0 && t > 0.0 ==> r < Abs(v0)
  {
    Abs(v0) - a * t
  }

  /** The unsigned distance travelled after `t` seconds; `linkTicked`
      squares `t` with `pow(t, 2.0)`. */
  function UnsignedDisplacement(v0: real, a: real, t: real): (r: real)
    ensures t >= 0.0 ==> r == Abs(v0) * t - 0.5 * a * (t * t)
    ensures t == 0.0 ==> r == 0.0
  {
    Abs(v0 * t) - 0.5 * a * (t * t)
  }

  lemma AbsOfScaled(v: real, t: real)
    requires t >= 0.0
    ensures Abs(v * t) == Abs(v) * t
  {
    if v < 0.0 {
      assert v * t <= 0.0;
      assert -(v * t) == (-v) * t;
    } else {
      assert v * t >= 0.0;
    }
  }

  lemma MulNonNegative(x: real, y: real)
    requires x >= 0.0 && y >= 0.0
    ensures x * y >= 0.0
  {
  }

  lemma NonPositiveFactor(t: real, h: real)
    requires t > 0.0 && t * h <= 0.0
    ensures h <= 0.0
  {
    var p := t * h;
    assert h == p / t;
    assert p / t <= 0.0;
  }

  /** The speed never grows: v(t) is non-increasing when a >= 0. */
  lemma VelocityNonIncreasing(v0: real, a: real, t1: real, t2: real)
    requires a >= 0.0 && t1 <= t2
    ensures UnsignedVelocity(v0, a, t2) <= UnsignedVelocity(v0, a, t1)
  {
    MulNonNegative(a, t2 - t1);
    assert a * t2 - a * t1 == a * (t2 - t1);
  }

  /** The distance gained between two instants is the elapsed time times the
      mean of the two speeds (the trapezoid rule is exact for linear v). */
  lemma DisplacementIncrement(v0: real, a: real, t1: real, t2: real)
    requires t1 >= 0.0 && t2 >= 0.0
    ensures UnsignedDisplacement(v0, a, t2) - UnsignedDisplacement(v0, a, t1)
         == (t2 - t1) * (UnsignedVelocity(v0, a, t1) + UnsignedVelocity(v0, a, t2)) / 2.0
  {
    AbsOfScaled(v0, t1);
    AbsOfScaled(v0, t2);
    var u := Abs(v0);
    calc {
      (t2 - t1) * ((u - a * t1) + (u - a * t2)) / 2.0;
      (t2 - t1) * u - a * ((t2 - t1) * (t1 + t2)) / 2.0;
      { assert (t2 - t1) * (t1 + t2) == t2 * t2 - t1 * t1; }
      u * t2 - 0.5 * a * (t2 * t2) - (u * t1 - 0.5 * a * (t1 * t1));
    }
  }

  /** While the speed is still non-negative, the distance travelled grows. */
  lemma DisplacementGrowsWhileMoving(v0: real, a: real, t1: real, t2: real)
    requires 0.0 <= t1 <= t2 && a >= 0.0
    requires UnsignedVelocity(v0, a, t2) >= 0.0
    ensures UnsignedDisplacement(v0, a, t1) <= UnsignedDisplacement(v0, a, t2)
  {
    DisplacementIncrement(v0, a, t1, t2);
    VelocityNonIncreasing(v0, a, t1, t2);
    MulNonNegative(t2 - t1, UnsignedVelocity(v0, a, t1) + UnsignedVelocity(v0, a, t2));
  }

  /** The whole run never travels further than v0^2 / (2a), the distance at
      which the speed reaches zero. */
  lemma DisplacementBounded(v0: real, a: real, t: real)
    requires a > 0.0 && t >= 0.0
    ensures 2.0 * a * UnsignedDisplacement(v0, a, t) <= v0 * v0
  {
    AbsOfScaled(v0, t);
    var u := Abs(v0);
    assert u * u == v0 * v0;
    var w := u - a * t;
    MulNonNegative(if w >= 0.0 then w else -w, if w >= 0.0 then w else -w);
    assert w * w >= 0.0;
    calc {
      v0 * v0 - 2.0 * a * UnsignedDisplacement(v0, a, t);
      u * u - 2.0 * a * (u * t - 0.5 * a * (t * t));
      w * w;
    }
  }

  /** For a positive elapsed time the displacement test of a tick can only
      fire once the velocity test fires too. */
  lemma DisplacementStopImpliesVelocityStop(v0: real, a: real, t: real)
    requires a >= 0.0 && t > 0.0
    requires UnsignedDisplacement(v0, a, t) <= 0.0
    ensures UnsignedVelocity(v0, a, t) <= 0.0
  {
    AbsOfScaled(v0, t);
    var u := Abs(v0);
    var h := u - 0.5 * a * t;
    assert t * h == UnsignedDisplacement(v0, a, t);
    NonPositiveFactor(t, h);
    MulNonNegative(a, t);
  }

  /** Once `t` reaches |v0| / a the speed is used up. */
  lemma RestTimeReached(v0: real, a: real, t: real)
    requires a > 0.0 && t >= Abs(v0) / a
    ensures UnsignedVelocity(v0, a, t) <= 0.0
  {
    MulNonNegative(a, t - Abs(v0) / a);
    assert a * (Abs(v0) / a) == Abs(v0);
  }
}
