/** The velocity ramp of the operator clients, which exists twice: clients/gamepad/gamepad_input.h
    and clients/web/teleop.js. */
module Ramp {
  import opened Curves
  import opened RobotBase

  /** Move from one value towards another, but no further than `reach`. */
  function Toward(value: real, target: real, reach: real): real
    requires reach >= 0.0
  {
    value + Clamp(target - value, -reach, reach)
  }

  function Rate(value: real, target: real, accel: real, decel: real): real {
    if Abs(target) > Abs(value) then accel else decel
  }

  function Signed(magnitude: real, sign: real): real { if sign < 0.0 then -magnitude else magnitude }

  predicate Rates(accel: real, decel: real, dt: real) { accel > 0.0 && decel > 0.0 && dt >= 0.0 }

  /** Towards a value of the same sign. */
  function Straight(value: real, target: real, accel: real, decel: real, dt: real): real
    requires Rates(accel, decel, dt)
  {
    Nonnegative(Rate(value, target, accel, decel), dt);
    Toward(value, target, Times(Rate(value, target, accel, decel), dt))
  }

  /** The gamepad client's ramp: a reversal brakes to zero before it speeds up again. */
  function Advance(value: real, target: real, accel: real, decel: real, dt: real): real
    requires Rates(accel, decel, dt)
  {
    if Times(value, target) < 0.0 then
      var braking := Abs(value) / decel;
      if dt <= braking then value - Signed(Times(decel, dt), value) else Straight(0.0, target, accel, decel, dt - braking)
    else Straight(value, target, accel, decel, dt)
  }

  function Sign(x: real): real { if x > 0.0 then 1.0 else if x < 0.0 then -1.0 else 0.0 }

  function WebStraight(value: real, target: real, accel: real, decel: real, dt: real): real {
    var step := Times(Rate(value, target, accel, decel), dt);
    if Abs(target - value) <= step then target else value + Times(Sign(target - value), step)
  }

  /** The web client's ramp. */
  function WebAdvance(value: real, target: real, accel: real, decel: real, dt: real): real
    requires decel != 0.0
  {
    if Times(value, target) < 0.0 then
      var braking := Abs(value) / decel;
      if dt <= braking then value - Times(Sign(value), Times(decel, dt)) else WebStraight(0.0, target, accel, decel, dt - braking)
    else WebStraight(value, target, accel, decel, dt)
  }

  // ---------------------------------------------------------------- both are one

  lemma SignTimes(x: real, magnitude: real)
    ensures x > 0.0 ==> Times(Sign(x), magnitude) == magnitude
    ensures x < 0.0 ==> Times(Sign(x), magnitude) == -magnitude
  {}

  /** Opposite signs, without a product. */
  lemma Opposite(x: real, y: real)
    ensures Times(x, y) < 0.0 <==> (x > 0.0 && y < 0.0) || (x < 0.0 && y > 0.0)
  {
    if x >= 0.0 && y >= 0.0 {
      Nonnegative(x, y);
    } else if x <= 0.0 && y <= 0.0 {
      assert Times(x, y) == Times(-x, -y);
      Nonnegative(-x, -y);
    }
  }

  lemma StraightsAgree(value: real, target: real, accel: real, decel: real, dt: real)
    requires Rates(accel, decel, dt)
    ensures WebStraight(value, target, accel, decel, dt) == Straight(value, target, accel, decel, dt)
  {
    var step := Times(Rate(value, target, accel, decel), dt);
    Nonnegative(Rate(value, target, accel, decel), dt);
    SignTimes(target - value, step);
    hide Times, Rate, Sign;
  }

  /** On all values, targets, positive rates and periods both clients ramp alike. */
  lemma ClientsAgree(value: real, target: real, accel: real, decel: real, dt: real)
    requires Rates(accel, decel, dt)
    ensures WebAdvance(value, target, accel, decel, dt) == Advance(value, target, accel, decel, dt)
  {
    Opposite(value, target);
    SignTimes(value, Times(decel, dt));
    StraightsAgree(value, target, accel, decel, dt);
    if dt > Abs(value) / decel {
      StraightsAgree(0.0, target, accel, decel, dt - Abs(value) / decel);
    }
    hide Times, Straight, WebStraight, Sign;
  }

  // ---------------------------------------------------------------- split periods

  lemma TowardTwice(value: real, target: real, first: real, second: real)
    requires first >= 0.0 && second >= 0.0
    ensures Toward(Toward(value, target, first), target, second) == Toward(value, target, first + second)
  {}

  lemma Adds(rate: real, x: real, y: real)
    ensures Times(rate, x + y) == Times(rate, x) + Times(rate, y)
  {}

  /** Without a reversal a split period moves just as far. */
  lemma StraightTwice(value: real, target: real, accel: real, decel: real, x: real, y: real)
    requires Rates(accel, decel, x) && Rates(accel, decel, y) && !(Times(value, target) < 0.0)
    ensures var middle := Straight(value, target, accel, decel, x);
            && !(Times(middle, target) < 0.0)
            && Straight(middle, target, accel, decel, y) == Straight(value, target, accel, decel, x + y)
  {
    var rate := Rate(value, target, accel, decel);
    Nonnegative(rate, x);
    Nonnegative(rate, y);
    var middle := Toward(value, target, Times(rate, x));
    Opposite(value, target);
    Opposite(middle, target);
    Adds(rate, x, y);
    TowardTwice(value, target, Times(rate, x), Times(rate, y));
    Nonnegative(Rate(middle, target, accel, decel), y);
    hide Times;
    assert middle == target || Rate(middle, target, accel, decel) == rate;
  }

  /** The part of a reversal before the value has come to zero. */
  lemma Braking(value: real, decel: real, x: real)
    requires decel > 0.0 && 0.0 <= x
    ensures Abs(value) / decel >= 0.0
    ensures x <= Abs(value) / decel <==> Times(decel, x) <= Abs(value)
    ensures x == Abs(value) / decel <==> Times(decel, x) == Abs(value)
  {
    var b := Abs(value) / decel;
    assert Times(decel, b) == Abs(value);
    assert b >= 0.0;
    Ordering(decel, x, b);
  }

  lemma Ordering(z: real, x: real, y: real)
    requires z > 0.0
    ensures x <= y <==> Times(z, x) <= Times(z, y)
    ensures x == y <==> Times(z, x) == Times(z, y)
  {}

  lemma BrakesLater(value: real, decel: real, x: real)
    requires decel > 0.0 && x >= 0.0 && Times(decel, x) < Abs(value)
    ensures var slower := value - Signed(Times(decel, x), value);
            && Abs(slower) == Abs(value) - Times(decel, x) && (slower > 0.0 <==> value > 0.0) && slower != 0.0
            && Abs(slower) / decel == Abs(value) / decel - x
  {
    var slower := value - Signed(Times(decel, x), value);
    Nonnegative(decel, x);
    QuotientSplit(Abs(value), Times(decel, x), x, decel);
  }

  lemma QuotientSplit(a: real, b: real, x: real, d: real)
    requires d > 0.0 && b == Times(d, x)
    ensures (a - b) / d == a / d - x
  {}

  /** The ramp does not depend on how time is cut into periods, through reversals as well. */
  lemma AdvanceTwice(value: real, target: real, accel: real, decel: real, x: real, y: real)
    requires Rates(accel, decel, x) && Rates(accel, decel, y)
    ensures Advance(Advance(value, target, accel, decel, x), target, accel, decel, y)
         == Advance(value, target, accel, decel, x + y)
  {
    if Times(value, target) < 0.0 {
      ReversalTwice(value, target, accel, decel, x, y);
    } else {
      StraightTwice(value, target, accel, decel, x, y);
    }
  }

  lemma ReversalTwice(value: real, target: real, accel: real, decel: real, x: real, y: real)
    requires Rates(accel, decel, x) && Rates(accel, decel, y) && Times(value, target) < 0.0
    ensures Advance(Advance(value, target, accel, decel, x), target, accel, decel, y)
         == Advance(value, target, accel, decel, x + y)
  {
    var braking := Abs(value) / decel;
    Opposite(value, target);
    Opposite(0.0, target);
    Braking(value, decel, x);
    if x < braking {
      BrakingGoesOn(value, target, accel, decel, x, y);
    } else if x == braking {
      BrakingEnds(value, target, accel, decel, y);
    } else {
      hide Times;
      StraightTwice(0.0, target, accel, decel, x - braking, y);
      assert x + y - braking == x - braking + y;
    }
  }

  lemma BrakingGoesOn(value: real, target: real, accel: real, decel: real, x: real, y: real)
    requires Rates(accel, decel, x) && Rates(accel, decel, y) && Times(value, target) < 0.0 && x < Abs(value) / decel
    ensures Advance(Advance(value, target, accel, decel, x), target, accel, decel, y)
         == Advance(value, target, accel, decel, x + y)
  {
    var slower := value - Signed(Times(decel, x), value);
    Opposite(value, target);
    Braking(value, decel, x);
    BrakesLater(value, decel, x);
    Opposite(slower, target);
    Adds(decel, x, y);
    hide Times, Straight;
    assert Abs(value) / decel - x - y == Abs(slower) / decel - y;
    assert x + y - Abs(value) / decel == y - Abs(slower) / decel;
  }

  lemma BrakingEnds(value: real, target: real, accel: real, decel: real, y: real)
    requires decel > 0.0 && Rates(accel, decel, y) && Times(value, target) < 0.0
    ensures Abs(value) / decel >= 0.0
    ensures var x := Abs(value) / decel;
            Advance(Advance(value, target, accel, decel, x), target, accel, decel, y) == Advance(value, target, accel, decel, x + y)
  {
    var x := Abs(value) / decel;
    Braking(value, decel, 0.0);
    Braking(value, decel, x);
    Opposite(value, target);
    Opposite(0.0, target);
    assert Advance(value, target, accel, decel, x) == 0.0;
    if y == 0.0 {
      assert Times(accel, 0.0) == 0.0;
      hide Times;
      assert Straight(0.0, target, accel, decel, 0.0) == 0.0;
    } else {
      hide Times, Straight;
      assert x + y - x == y;
    }
  }

  // ---------------------------------------------------------------- bounds

  /** The ramp never overshoots, and never changes faster than the larger rate. */
  lemma NeverOvershoots(value: real, target: real, accel: real, decel: real, dt: real)
    requires Rates(accel, decel, dt)
    ensures var next := Advance(value, target, accel, decel, dt);
            && Min(value, target) <= next <= Max(value, target)
            && Abs(next - value) <= Times(Max(accel, decel), dt)
  {
    Opposite(value, target);
    Braking(value, decel, dt);
    StraightBounds(value, target, accel, decel, dt);
    Nonnegative(decel, dt);
    Ordered(decel, Max(accel, decel), dt);
    if Times(value, target) < 0.0 && dt > Abs(value) / decel {
      var braking := Abs(value) / decel;
      StraightBounds(0.0, target, accel, decel, dt - braking);
      Adds(Max(accel, decel), braking, dt - braking);
      Ordered(decel, Max(accel, decel), braking);
      Braking(value, decel, braking);
      assert braking + (dt - braking) == dt;
    }
    hide Times, Straight;
  }

  lemma Ordered(x: real, y: real, z: real)
    requires x <= y && z >= 0.0
    ensures Times(x, z) <= Times(y, z)
  {
    Scale(x, y, z);
  }

  lemma StraightBounds(value: real, target: real, accel: real, decel: real, dt: real)
    requires Rates(accel, decel, dt)
    ensures var next := Straight(value, target, accel, decel, dt);
            && Min(value, target) <= next <= Max(value, target)
            && Abs(next - value) <= Times(Max(accel, decel), dt)
  {
    Nonnegative(Rate(value, target, accel, decel), dt);
    Ordered(Rate(value, target, accel, decel), Max(accel, decel), dt);
    hide Times;
  }

  /** How long the ramp takes to its target. */
  function Duration(value: real, target: real, accel: real, decel: real): real
    requires accel > 0.0 && decel > 0.0
  {
    if Times(value, target) < 0.0 then Abs(value) / decel + Abs(target) / accel
    else Abs(target - value) / Rate(value, target, accel, decel)
  }

  /** The target is reached exactly when that time has passed. */
  lemma ReachesInTime(value: real, target: real, accel: real, decel: real, dt: real)
    requires Rates(accel, decel, dt)
    ensures Advance(value, target, accel, decel, dt) == target <==> dt >= Duration(value, target, accel, decel)
  {
    Opposite(value, target);
    if Times(value, target) < 0.0 {
      var braking := Abs(value) / decel;
      Braking(value, decel, dt);
      Braking(target, accel, 0.0);
      if dt > braking {
        StraightReaches(0.0, target, accel, decel, dt - braking);
      }
      hide Times, Straight;
      assert Abs(target - 0.0) == Abs(target);
    } else {
      StraightReaches(value, target, accel, decel, dt);
    }
  }

  lemma StraightReaches(value: real, target: real, accel: real, decel: real, dt: real)
    requires Rates(accel, decel, dt)
    ensures Straight(value, target, accel, decel, dt) == target <==>
            dt >= Abs(target - value) / Rate(value, target, accel, decel)
  {
    var rate := Rate(value, target, accel, decel);
    Nonnegative(rate, dt);
    Braking(target - value, rate, dt);
    hide Times, Rate;
  }
}
