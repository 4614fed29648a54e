/** HOME: ramp the stiffness up at the present pose, then move to the default pose. */
module HomePose {
  import opened Curves
  import opened RobotBase

  /** Limits are either absent or one interval per joint that holds the default pose. */
  datatype HomeConfig = HomeConfig(
    pose: seq<real>, gainRamp: real, move: real, kp: seq<real>, lower: seq<real>, upper: seq<real>)

  predicate ValidConfig(cfg: HomeConfig) {
    && cfg.gainRamp > 0.0 && cfg.move > 0.0
    && |cfg.kp| == |cfg.pose| && (forall i | 0 <= i < |cfg.kp| :: cfg.kp[i] >= 0.0)
    && |cfg.lower| == |cfg.upper|
    && (cfg.lower != [] ==> |cfg.lower| == |cfg.pose|)
    && (forall i | 0 <= i < |cfg.lower| :: cfg.lower[i] < cfg.upper[i])
    && (forall i | 0 <= i < |cfg.lower| :: cfg.lower[i] <= cfg.pose[i] <= cfg.upper[i])
  }

  datatype HomeClock = HomeClock(timer: real, finished: bool)

  const FRESH := HomeClock(0.0, false)

  function RunHome(gainRamp: real, move: real, c: HomeClock, dt: real): HomeClock {
    HomeClock(c.timer + dt, c.finished || (c.timer >= gainRamp && c.timer - gainRamp >= move))
  }

  /** The pose a visit starts from: the measured one, pulled into the limits if there are any. */
  function StartPose(cfg: HomeConfig, measured: seq<real>): (start: seq<real>)
    requires ValidConfig(cfg) && |measured| == |cfg.pose|
    ensures |start| == |measured|
  {
    seq(|measured|, i requires 0 <= i < |measured| =>
      if cfg.lower == [] then measured[i] else Clamp(measured[i], cfg.lower[i], cfg.upper[i]))
  }

  function Target(cfg: HomeConfig, start: seq<real>, c: HomeClock): (target: seq<real>)
    requires ValidConfig(cfg) && |start| == |cfg.pose|
    ensures |target| == |cfg.pose|
  {
    if c.timer < cfg.gainRamp then start
    else if c.finished then cfg.pose
    else
      var alpha := SmootherStep((c.timer - cfg.gainRamp) / cfg.move);
      MixPose(start, cfg.pose, alpha)
  }

  function Stiffness(cfg: HomeConfig, c: HomeClock): (kp: seq<real>)
    requires ValidConfig(cfg)
    ensures |kp| == |cfg.kp|
  {
    Scaled(cfg.kp, Factor(cfg, c))
  }

  /** Whatever was measured and however the clock moved, each target lies between the start of
      the visit and the default pose, so it keeps every configured limit. */
  lemma TargetInLimits(cfg: HomeConfig, measured: seq<real>, c: HomeClock, i: nat)
    requires ValidConfig(cfg) && |measured| == |cfg.pose| && i < |cfg.pose|
    ensures var start, target := StartPose(cfg, measured), Target(cfg, StartPose(cfg, measured), c);
            && Min(start[i], cfg.pose[i]) <= target[i] <= Max(start[i], cfg.pose[i])
            && (cfg.lower != [] ==> cfg.lower[i] <= target[i] <= cfg.upper[i])
  {
    var start := StartPose(cfg, measured);
    if c.timer >= cfg.gainRamp && !c.finished {
      var s := UnitClamp((c.timer - cfg.gainRamp) / cfg.move);
      QuinticUnit(s);
      MixWithin(start[i], cfg.pose[i], Quintic(s), Min(start[i], cfg.pose[i]), Max(start[i], cfg.pose[i]));
    }
  }

  /** The stiffness starts at zero, never exceeds the configured one and never falls in a ramp. */
  lemma StiffnessRises(cfg: HomeConfig, c: HomeClock, d: HomeClock, i: nat)
    requires ValidConfig(cfg) && i < |cfg.kp| && c.timer <= d.timer
    ensures 0.0 <= Stiffness(cfg, c)[i] <= Stiffness(cfg, d)[i] <= cfg.kp[i]
  {
    FactorRises(cfg, c, d);
    ScaledOrder(cfg.kp, Factor(cfg, c), Factor(cfg, d), i);
  }

  lemma FactorRises(cfg: HomeConfig, c: HomeClock, d: HomeClock)
    requires ValidConfig(cfg) && c.timer <= d.timer
    ensures 0.0 <= Factor(cfg, c) <= Factor(cfg, d) <= 1.0
    ensures Factor(cfg, FRESH) == 0.0
  {
    QuotientOrder(c.timer, d.timer, cfg.gainRamp);
    SmootherRises(c.timer / cfg.gainRamp, d.timer / cfg.gainRamp);
    assert 0.0 / cfg.gainRamp == 0.0;
  }

  function Factor(cfg: HomeConfig, c: HomeClock): real
    requires ValidConfig(cfg)
  {
    if c.timer < cfg.gainRamp then SmootherStep(c.timer / cfg.gainRamp) else 1.0
  }

  lemma SmootherRises(x: real, y: real)
    requires x <= y
    ensures 0.0 <= SmootherStep(x) <= SmootherStep(y) <= 1.0
    ensures SmootherStep(0.0) == 0.0
  {
    QuinticUnit(UnitClamp(x));
    QuinticUnit(UnitClamp(y));
    QuinticSlope(UnitClamp(x), UnitClamp(y));
  }

  lemma ScaledOrder(gains: seq<real>, x: real, y: real, i: nat)
    requires i < |gains| && gains[i] >= 0.0 && 0.0 <= x <= y <= 1.0
    ensures 0.0 <= Scaled(gains, x)[i] <= Scaled(gains, y)[i] <= gains[i]
    ensures x == 0.0 ==> Scaled(gains, x)[i] == 0.0
  {
    Scale(0.0, x, gains[i]);
    Scale(x, y, gains[i]);
    Scale(y, 1.0, gains[i]);
  }

  class StateHome {
    const cfg: HomeConfig
    var timer: real
    var finished: bool
    var initPos: seq<real>
    var target: seq<real>
    var kp: seq<real>
    var enable: bool

    constructor (cfg: HomeConfig)
      requires ValidConfig(cfg)
      ensures this.cfg == cfg && Snapshot() == FRESH && initPos == []
    {
      this.cfg := cfg;
      timer, finished := 0.0, false;
      initPos, target, kp, enable := [], [], [], false;
    }

    ghost function Snapshot(): HomeClock
      reads this
    {
      HomeClock(timer, finished)
    }

    method OnEnter(measured: seq<real>)
      requires ValidConfig(cfg)
      modifies this
      ensures Snapshot() == FRESH
      ensures |measured| != |cfg.pose| ==> initPos == measured && target == old(target) && kp == old(kp) && enable == old(enable)
      ensures |measured| == |cfg.pose| ==>
                && initPos == StartPose(cfg, measured) && target == initPos && enable
                && kp == Zeros(|cfg.pose|)
    {
      timer, finished := 0.0, false;
      initPos := measured;
      if |measured| != |cfg.pose| {
        return;
      }
      for i := 0 to |cfg.lower|
        modifies this`initPos
        invariant |initPos| == |measured|
        invariant forall k | 0 <= k < i :: initPos[k] == StartPose(cfg, measured)[k]
        invariant forall k | i <= k < |measured| :: initPos[k] == measured[k]
      {
        initPos := initPos[i := Clamp(initPos[i], cfg.lower[i], cfg.upper[i])];
      }
      assert initPos == StartPose(cfg, measured);
      enable, target, kp := true, initPos, Zeros(|cfg.pose|);
    }

    /** Nothing is commanded when the measured pose never had the right number of joints. */
    method Run(dt: real)
      requires ValidConfig(cfg)
      modifies this
      ensures initPos == old(initPos)
      ensures |initPos| != |cfg.pose| ==>
                Snapshot() == old(Snapshot()) && target == old(target) && kp == old(kp) && enable == old(enable)
      ensures |initPos| == |cfg.pose| ==>
                && Snapshot() == RunHome(cfg.gainRamp, cfg.move, old(Snapshot()), dt)
                && target == Target(cfg, initPos, old(Snapshot()))
                && kp == Stiffness(cfg, old(Snapshot()))
                && enable
    {
      if |initPos| != |cfg.pose| {
        return;
      }
      enable := true;
      if timer < cfg.gainRamp {
        var alpha := SmootherStep(timer / cfg.gainRamp);
        target := initPos;
        kp := Scaled(cfg.kp, alpha);
      } else if !finished {
        var elapsed := timer - cfg.gainRamp;
        var alpha := SmootherStep(elapsed / cfg.move);
        kp := cfg.kp;
        assert kp == Stiffness(cfg, old(Snapshot()));
        target := MixPose(initPos, cfg.pose, alpha);
        if elapsed >= cfg.move {
          finished := true;
        }
      } else {
        target, kp := cfg.pose, cfg.kp;
        assert kp == Stiffness(cfg, old(Snapshot()));
      }
      timer := timer + dt;
    }
  }
}
