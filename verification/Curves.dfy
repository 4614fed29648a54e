/** The two easing polynomials of the trajectory code, and the peak slope of the quintic. */
module Curves {
  import opened RobotBase

  function Quintic(s: real): real { s * s * s * (10.0 + s * (-15.0 + 6.0 * s)) }

  function Cubic(x: real): real { x * x * (3.0 - 2.0 * x) }

  function UnitClamp(x: real): (r: real)
    ensures 0.0 <= r <= 1.0
    ensures x >= 1.0 ==> r == 1.0
    ensures x <= 0.0 ==> r == 0.0
  {
    Clamp(x, 0.0, 1.0)
  }

  /** SmoothStep of joint_trajectory.cpp. */
  function SmoothStep(x: real): real { Cubic(UnitClamp(x)) }

  /** SmoothStep of state_home.cpp. */
  function SmootherStep(x: real): real { Quintic(UnitClamp(x)) }

  /** Multiplication under a name, so that the solver keeps each product as one term. */
  function Times(x: real, y: real): real { x * y }

  function Mix(a: real, b: real, weight: real): real { (1.0 - weight) * a + weight * b }

  /** Average slope of the quintic over [1/2 + u - h, 1/2 + u + h], from the squares of u and h. */
  function MeanSlope(uu: real, hh: real): real {
    1.875 - 30.0 * ((uu + hh / 3.0) / 2.0 - (Times(uu, uu) + 2.0 * Times(uu, hh) + Times(hh, hh) / 5.0))
  }

  function Cube(x: real): real { x * x * x }

  function Fifth(x: real): real { x * x * x * x * x }

  /** The quintic written around its midpoint. */
  lemma QuinticCentred(x: real)
    ensures Quintic(0.5 + x) == 0.5 + 1.875 * x - 5.0 * Cube(x) + 6.0 * Fifth(x)
  {
    var s := 0.5 + x;
    var p2, p3 := x * x, x * x * x;
    assert s * s == 0.25 + x + p2;
    assert s * s * s == 0.125 + 0.75 * x + 1.5 * p2 + p3;
    var c := 10.0 + s * (-15.0 + 6.0 * s);
    assert c == 10.0 - 15.0 * s + 6.0 * (s * s);
    assert c == 4.0 - 9.0 * x + 6.0 * p2;
    Product(x, p2, p3);
  }

  lemma Product(x: real, p2: real, p3: real)
    requires p2 == x * x && p3 == x * x * x
    ensures (0.125 + 0.75 * x + 1.5 * p2 + p3) * (4.0 - 9.0 * x + 6.0 * p2)
         == 0.5 + 1.875 * x - 5.0 * p3 + 6.0 * (x * x * x * x * x)
  {
    assert p3 * x == p2 * p2 && p2 * x == p3 && p3 * p2 == x * x * x * x * x;
  }

  lemma CubeGap(u: real, h: real)
    ensures Cube(u + h) - Cube(u - h) == Times(2.0 * h, 3.0 * (u * u) + h * h)
  {}

  lemma FifthGap(u: real, h: real)
    ensures Fifth(u + h) - Fifth(u - h)
         == Times(2.0 * h, 5.0 * Times(u * u, u * u) + 10.0 * Times(u * u, h * h) + Times(h * h, h * h))
  {
    var a, b := u + h, u - h;
    var a2, b2 := u * u + 2.0 * u * h + h * h, u * u - 2.0 * u * h + h * h;
    assert a * a == a2 && b * b == b2;
    FifthFromSquare(a, a2);
    FifthFromSquare(b, b2);
  }

  lemma FifthFromSquare(a: real, a2: real)
    requires a * a == a2
    ensures Fifth(a) == a2 * a2 * a
  {}

  lemma DividedDifference(a: real, b: real, u: real, h: real)
    requires a == 0.5 + (u - h) && b == 0.5 + (u + h)
    ensures Quintic(b) - Quintic(a) == Times(b - a, MeanSlope(u * u, h * h))
  {
    var uu, hh, d := u * u, h * h, b - a;
    var cube, fifth := 3.0 * uu + hh, 5.0 * Times(uu, uu) + 10.0 * Times(uu, hh) + Times(hh, hh);
    QuinticCentred(u - h);
    QuinticCentred(u + h);
    CubeGap(u, h);
    FifthGap(u, h);
    Collect(d, cube, fifth);
    AddUp(Quintic(a), Quintic(b), u - h, u + h, Cube(u - h), Cube(u + h), Fifth(u - h), Fifth(u + h),
      Times(2.0 * h, cube), Times(2.0 * h, fifth));
  }

  /** The linear step of DividedDifference. */
  lemma AddUp(qa: real, qb: real, x: real, y: real, x3: real, y3: real, x5: real, y5: real, dc: real, df: real)
    requires qa == 0.5 + 1.875 * x - 5.0 * x3 + 6.0 * x5
    requires qb == 0.5 + 1.875 * y - 5.0 * y3 + 6.0 * y5
    requires y3 - x3 == dc && y5 - x5 == df
    ensures qb - qa == 1.875 * (y - x) - 5.0 * dc + 6.0 * df
  {}

  lemma Collect(d: real, k: real, l: real)
    ensures Times(d, 1.875 - 5.0 * k + 6.0 * l) == 1.875 * d - 5.0 * Times(d, k) + 6.0 * Times(d, l)
  {}

  lemma Scale(x: real, y: real, z: real)
    requires x <= y && z >= 0.0
    ensures x * z <= y * z && z * x <= z * y
  {}

  /** Squares of two lengths that add up to at most one half. */
  lemma Squares(v: real, h: real)
    requires v >= 0.0 && h >= 0.0 && v + h <= 0.5
    ensures 0.0 <= v * v && 0.0 <= h * h && v * v + h * h <= 0.25
  {
    var sum, vv, vh, hh := v + h, Times(v, v), Times(v, h), Times(h, h);
    Squared(v);
    Squared(h);
    Nonnegative(v, h);
    assert Times(sum, sum) == vv + 2.0 * vh + hh;
    assert Times(sum, 0.5 - sum) == 0.5 * sum - Times(sum, sum);
    Nonnegative(sum, 0.5 - sum);
  }

  lemma MeanSlopeBounds(uu: real, hh: real)
    requires 0.0 <= uu && 0.0 <= hh && uu + hh <= 0.25
    ensures 0.0 <= MeanSlope(uu, hh) <= 1.875
  {
    Quarter(uu, hh);
    var gap := 0.25 - uu - hh / 3.0;
    GapSquare(uu, hh, gap);
    Squared(gap);
    SlopeFromProducts(uu, hh, Times(uu, uu), Times(uu, hh), Times(hh, hh), Times(gap, gap));
  }

  /** The linear step: bounds on the products give bounds on the slope. */
  lemma SlopeFromProducts(uu: real, hh: real, uuuu: real, uuhh: real, hhhh: real, square: real)
    requires 0.0 <= uu && 0.0 <= hh && 0.0 <= uuhh && 0.0 <= hhhh && 0.0 <= square
    requires uuuu + uuhh <= uu / 4.0 && uuhh <= uu / 4.0 && hhhh <= hh / 4.0
    requires square == 1.0 / 16.0 + uuuu + hhhh / 9.0 - uu / 2.0 - hh / 6.0 + 2.0 * uuhh / 3.0
    ensures 0.0 <= 1.875 - 30.0 * ((uu + hh / 3.0) / 2.0 - (uuuu + 2.0 * uuhh + hhhh / 5.0)) <= 1.875
  {}

  lemma Squared(x: real)
    ensures Times(x, x) >= 0.0
  {}

  lemma Positive(x: real, y: real)
    ensures x > 0.0 && y > 0.0 ==> Times(x, y) > 0.0
  {}

  lemma Nonnegative(x: real, y: real)
    requires x >= 0.0 && y >= 0.0
    ensures Times(x, y) >= 0.0
  {}

  lemma Quarter(uu: real, hh: real)
    requires 0.0 <= uu && 0.0 <= hh && uu + hh <= 0.25
    ensures Times(uu, uu) + Times(uu, hh) <= uu / 4.0
    ensures 0.0 <= Times(uu, hh) <= uu / 4.0 && 0.0 <= Times(hh, hh) <= hh / 4.0
  {
    var uuuu, uuhh, hhhh := Times(uu, uu), Times(uu, hh), Times(hh, hh);
    Nonnegative(uu, hh);
    Nonnegative(hh, hh);
    Nonnegative(uu, 0.25 - uu - hh);
    assert Times(uu, 0.25 - uu - hh) == uu / 4.0 - uuuu - uuhh;
    Nonnegative(uu, 0.25 - hh);
    assert Times(uu, 0.25 - hh) == uu / 4.0 - uuhh;
    Nonnegative(hh, 0.25 - hh);
    assert Times(hh, 0.25 - hh) == hh / 4.0 - hhhh;
  }

  lemma GapSquare(uu: real, hh: real, gap: real)
    requires gap == 0.25 - uu - hh / 3.0
    ensures Times(gap, gap) ==
            1.0 / 16.0 + Times(uu, uu) + Times(hh, hh) / 9.0 - uu / 2.0 - hh / 6.0 + 2.0 * Times(uu, hh) / 3.0
  {}

  lemma SlopeTimes(width: real, slope: real)
    requires width >= 0.0 && 0.0 <= slope <= 1.875
    ensures 0.0 <= Times(width, slope) <= 1.875 * width
  {}

  /** The quintic never falls on [0, 1] and never climbs faster than 15/8. */
  lemma QuinticSlope(a: real, b: real)
    requires 0.0 <= a <= b <= 1.0
    ensures 0.0 <= Quintic(b) - Quintic(a) <= 1.875 * (b - a)
  {
    var u, h := (a + b) / 2.0 - 0.5, (b - a) / 2.0;
    HalfWidths(a, b, u, h);
    MeanSlopeBounds(u * u, h * h);
    DividedDifference(a, b, u, h);
    SlopeTimes(b - a, MeanSlope(u * u, h * h));
  }

  lemma HalfWidths(a: real, b: real, u: real, h: real)
    requires 0.0 <= a <= b <= 1.0 && u == (a + b) / 2.0 - 0.5 && h == (b - a) / 2.0
    ensures 0.0 <= u * u && 0.0 <= h * h && u * u + h * h <= 0.25
  {
    Squares(Abs(u), h);
    assert u * u == Abs(u) * Abs(u);
  }

  lemma QuinticUnit(s: real)
    requires 0.0 <= s <= 1.0
    ensures 0.0 <= Quintic(s) <= 1.0
    ensures Quintic(0.0) == 0.0 && Quintic(1.0) == 1.0
  {
    QuinticSlope(0.0, s);
    QuinticSlope(s, 1.0);
  }

  lemma CubicRises(a: real, b: real)
    requires 0.0 <= a <= b <= 1.0
    ensures Cubic(a) <= Cubic(b)
    ensures a < b ==> Cubic(a) < Cubic(b)
  {
    // Cubic(b) - Cubic(a) is (b - a) times this factor.
    var factor := 3.0 * (a + b) - 2.0 * (a * a + a * b + b * b);
    assert Cubic(b) - Cubic(a) == (b - a) * factor;
    assert factor >= 0.0 by {
      var aa, ab, bb := Times(a, a), Times(a, b), Times(b, b);
      Nonnegative(a, 1.0 - a);
      assert Times(a, 1.0 - a) == a - aa;
      Nonnegative(b, 1.0 - b);
      assert Times(b, 1.0 - b) == b - bb;
      Nonnegative(a, 1.0 - b);
      assert Times(a, 1.0 - b) == a - ab;
      Nonnegative(b, 1.0 - a);
      assert Times(b, 1.0 - a) == b - ab;
      assert factor == 3.0 * a + 3.0 * b - 2.0 * aa - 2.0 * ab - 2.0 * bb;
    }
    Scale(0.0, factor, b - a);
    if a < b {
      CubicFactor(a, b);
      Positive(b - a, factor);
    }
  }

  lemma CubicFactor(a: real, b: real)
    requires 0.0 <= a < b <= 1.0
    ensures 3.0 * (a + b) - 2.0 * (a * a + a * b + b * b) > 0.0
  {
    var aa, ab, bb := Times(a, a), Times(a, b), Times(b, b);
    Nonnegative(a, 1.0 - a);
    assert Times(a, 1.0 - a) == a - aa;
    Nonnegative(b, 1.0 - b);
    assert Times(b, 1.0 - b) == b - bb;
    Nonnegative(a, 1.0 - b);
    assert Times(a, 1.0 - b) == a - ab;
    Positive(b, 1.0 - a);
    assert Times(b, 1.0 - a) == b - ab;
  }

  lemma CubicUnit(x: real)
    requires 0.0 <= x <= 1.0
    ensures 0.0 <= Cubic(x) <= 1.0
    ensures Cubic(0.0) == 0.0 && Cubic(1.0) == 1.0
  {
    CubicRises(0.0, x);
    CubicRises(x, 1.0);
  }

  /** A mixture lies in every interval that holds both ends. */
  lemma MixWithin(a: real, b: real, weight: real, low: real, high: real)
    requires 0.0 <= weight <= 1.0
    requires low <= a <= high && low <= b <= high
    ensures low <= Mix(a, b, weight) <= high
  {
    hide Mix, Times;
    MixShifted(a, b, weight, low);
    MixShifted(a, b, weight, high);
    Nonnegative(1.0 - weight, a - low);
    Nonnegative(weight, b - low);
    Nonnegative(1.0 - weight, high - a);
    Nonnegative(weight, high - b);
  }

  lemma MixShifted(a: real, b: real, weight: real, c: real)
    ensures Mix(a, b, weight) - c == Times(1.0 - weight, a - c) + Times(weight, b - c)
    ensures c - Mix(a, b, weight) == Times(1.0 - weight, c - a) + Times(weight, c - b)
  {}

  /** Two mixtures of the same ends differ by the distance of the ends times the weights' gap. */
  lemma MixGap(a: real, b: real, w1: real, w2: real)
    ensures Mix(a, b, w2) - Mix(a, b, w1) == Times(b - a, w2 - w1)
  {
  }

  /** Every entry times the same factor. */
  function Scaled(values: seq<real>, factor: real): (r: seq<real>)
    ensures |r| == |values| && forall i | 0 <= i < |r| :: r[i] == factor * values[i]
  {
    seq(|values|, i requires 0 <= i < |values| => factor * values[i])
  }

  /** Joint by joint mixture of two poses. */
  function MixPose(a: seq<real>, b: seq<real>, weight: real): (r: seq<real>)
    requires |a| == |b|
    ensures |r| == |a| && forall i | 0 <= i < |r| :: r[i] == Mix(a[i], b[i], weight)
  {
    seq(|a|, i requires 0 <= i < |a| => Mix(a[i], b[i], weight))
  }

  function Zeros(n: nat): (r: seq<real>)
    ensures |r| == n && forall i | 0 <= i < n :: r[i] == 0.0
  {
    seq(n, _ => 0.0)
  }

  lemma QuotientOrder(x: real, y: real, d: real)
    requires x <= y && d > 0.0
    ensures x / d <= y / d
    ensures x >= 0.0 ==> x / d >= 0.0
    ensures y < d ==> y / d < 1.0
  {}

  // ---------------------------------------------------------------- the slope of the quintic

  function QuinticRate(s: real): real { 30.0 * s * s - 60.0 * s * s * s + 30.0 * s * s * s * s }

  /** The slope of SmootherStep, which is level once it has arrived. */
  function SmootherRate(s: real): real { if s >= 1.0 then 0.0 else QuinticRate(s) }

  /** What a step of the quintic comes to besides its slope, per square of the step. */
  function QuinticRest(s: real, h: real): real {
    30.0 * s - 90.0 * s * s + 60.0 * s * s * s + h * (10.0 - 60.0 * s + 60.0 * s * s) + h * h * (-15.0 + 30.0 * s)
    + 6.0 * h * h * h
  }

  lemma Expanded(s: real, h: real)
    ensures Quintic(s + h) - Quintic(s) == h * QuinticRate(s) + h * h * QuinticRest(s, h)
  {}

  lemma QuinticStep(s: real, h: real)
    ensures Quintic(s + h) - Quintic(s) == Times(h, QuinticRate(s)) + Times(Times(h, h), QuinticRest(s, h))
  {
    hide Quintic, QuinticRate, QuinticRest;
    Expanded(s, h);
  }

  lemma Smaller(x: real, y: real, bound: real)
    requires 0.0 <= x <= 1.0 && -bound <= y <= bound
    ensures -bound <= Times(x, y) <= bound
  {
    if y >= 0.0 {
      Nonnegative(x, y);
      Nonnegative(1.0 - x, y);
      assert Times(x, y) + Times(1.0 - x, y) == y;
    } else {
      Nonnegative(x, -y);
      Nonnegative(1.0 - x, -y);
      assert Times(x, -y) + Times(1.0 - x, -y) == -y && Times(x, -y) == -Times(x, y);
    }
  }

  lemma QuarterAtMost(s: real)
    requires 0.0 <= s <= 1.0
    ensures 0.0 <= Times(s, 1.0 - s) <= 0.25
  {
    Nonnegative(s, 1.0 - s);
    Squared(s - 0.5);
    assert Times(s - 0.5, s - 0.5) == 0.25 - Times(s, 1.0 - s);
  }

  lemma RestParts(s: real, h: real)
    ensures var u := Times(s, 1.0 - s);
            QuinticRest(s, h) == 30.0 * Times(1.0 - s, u) - 30.0 * Times(s, u) + Times(h, 10.0 - 60.0 * u)
              + Times(h, Times(h, -15.0 + 30.0 * s)) + 6.0 * Times(h, Times(h, h))
  {}

  lemma QuinticRestBounded(s: real, h: real)
    requires 0.0 <= s <= 1.0 && 0.0 <= h <= 1.0
    ensures -46.0 <= QuinticRest(s, h) <= 46.0
  {
    hide Times, QuinticRest;
    var u := Times(s, 1.0 - s);
    QuarterAtMost(s);
    Smaller(1.0 - s, u, 0.25);
    Smaller(s, u, 0.25);
    Smaller(h, 10.0 - 60.0 * u, 10.0);
    Smaller(h, -15.0 + 30.0 * s, 15.0);
    Smaller(h, Times(h, -15.0 + 30.0 * s), 15.0);
    Smaller(h, h, 1.0);
    Smaller(h, Times(h, h), 1.0);
    RestParts(s, h);
  }

  /** Scaling keeps a symmetric bound. */
  lemma WithinBound(square: real, rest: real, bound: real)
    requires square >= 0.0 && -bound <= rest <= bound
    ensures -bound * square <= Times(square, rest) <= bound * square
  {
    Nonnegative(square, bound - rest);
    Nonnegative(square, bound + rest);
    assert Times(square, bound - rest) == bound * square - Times(square, rest);
    assert Times(square, bound + rest) == bound * square + Times(square, rest);
  }

  /** Close to its end the quintic is as flat as the square of the distance. */
  lemma RateNearEnd(s: real, h: real)
    requires 0.0 <= s < 1.0 && h >= 1.0 - s
    ensures 0.0 <= Times(h - (1.0 - s), QuinticRate(s)) <= 30.0 * Times(h, h)
  {
    var r := 1.0 - s;
    assert QuinticRate(s) == 30.0 * Times(Times(s, r), Times(s, r));
    QuarterAtMost(s);
    Smaller(s, r, r);
    var q := Times(s, r);
    Nonnegative(s, r);
    Smaller(q, q, r);
    Nonnegative(q, q);
    Nonnegative(h - r, Times(q, q));
    Nonnegative(h - r, r - Times(q, q));
    Nonnegative(h - r, h - r);
    Nonnegative(r, h - r);
    Nonnegative(r, r);
    RateSplit(h, r, Times(q, q));
  }

  lemma RateSplit(h: real, r: real, qq: real)
    ensures Times(h - r, 30.0 * qq) == 30.0 * Times(h - r, qq)
    ensures Times(h - r, r - qq) == Times(h - r, r) - Times(h - r, qq)
    ensures Times(h, h) == Times(h - r, h - r) + 2.0 * Times(r, h - r) + Times(r, r)
    ensures Times(h - r, r) == Times(r, h - r)
  {}

  /** A step of SmootherStep is its slope times the step, up to a multiple of the step's square. */
  lemma SmootherSlope(s: real, h: real)
    requires s >= 0.0 && h >= 0.0
    ensures Abs(SmootherStep(s + h) - SmootherStep(s) - Times(h, SmootherRate(s))) <= 76.0 * Times(h, h)
  {
    hide Quintic, QuinticRate, Times;
    Squared(h);
    if s >= 1.0 {
      FlatStep(h);
    } else if s + h <= 1.0 {
      QuinticStep(s, h);
      QuinticRestBounded(s, h);
      WithinBound(Times(h, h), QuinticRest(s, h), 46.0);
    } else {
      var r := 1.0 - s;
      QuinticStep(s, r);
      QuinticRestBounded(s, r);
      Squared(r);
      WithinBound(Times(r, r), QuinticRest(s, r), 46.0);
      RateNearEnd(s, h);
      Nonnegative(h - r, h - r);
      Nonnegative(r, h - r);
      RateSplit(h, r, 0.0);
      assert Times(h, QuinticRate(s)) == Times(r, QuinticRate(s)) + Times(h - r, QuinticRate(s)) by { Parted(h, r, QuinticRate(s)); }
    }
  }

  lemma FlatStep(h: real)
    ensures Times(h, 0.0) == 0.0
  {}

  lemma Parted(h: real, r: real, rate: real)
    ensures Times(h, rate) == Times(r, rate) + Times(h - r, rate)
  {}
}
