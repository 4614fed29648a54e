/** Where the timed moves of HOME, SAFETY and RL are at a given time, and when they are over. */
module PoseOutcome {
  import opened Curves
  import opened RobotBase
  import Home = HomePose
  import Safety_ = SafetyRelease
  import Rl_ = RlOutput

  function Sum(dts: seq<real>): real { if dts == [] then 0.0 else Sum(dts[..|dts| - 1]) + dts[|dts| - 1] }

  // ---------------------------------------------------------------- HOME

  /** The clock of a visit after these runs. */
  function HomeAfter(gainRamp: real, move: real, dts: seq<real>): Home.HomeClock {
    if dts == [] then Home.FRESH else Home.RunHome(gainRamp, move, HomeAfter(gainRamp, move, dts[..|dts| - 1]), dts[|dts| - 1])
  }

  /** HOME is finished exactly by a run that begins after ramp and move have passed. */
  lemma {:induction false} HomeFinishesExactly(gainRamp: real, move: real, dts: seq<real>)
    requires gainRamp > 0.0 && move > 0.0
    ensures var c := HomeAfter(gainRamp, move, dts);
            && c.timer == Sum(dts)
            && (c.finished <==> exists i :: 0 <= i < |dts| && Sum(dts[..i]) >= gainRamp + move)
  {
    if dts != [] {
      var n := |dts| - 1;
      var before := dts[..n];
      HomeFinishesExactly(gainRamp, move, before);
      assert forall i | 0 <= i <= n :: before[..i] == dts[..i];
      assert forall i | 0 <= i < |dts| :: i < n || dts[..i] == before;
      if Sum(before) >= gainRamp + move {
        assert dts[..n] == before;
      }
    }
  }

  /** The commanded joint rests while the stiffness rises along the quintic, then moves along it. */
  lemma HomeMovesExactly(cfg: Home.HomeConfig, measured: seq<real>, c: Home.HomeClock, i: nat)
    requires Home.ValidConfig(cfg) && |measured| == |cfg.pose| && i < |cfg.pose| && c.timer >= 0.0
    ensures var start, t := Home.StartPose(cfg, measured), c.timer;
            && (cfg.lower == [] || cfg.lower[i] <= measured[i] <= cfg.upper[i] ==> start[i] == measured[i])
            && Home.Target(cfg, start, c)[i] ==
               (if t < cfg.gainRamp then start[i]
                else if c.finished || t >= cfg.gainRamp + cfg.move then cfg.pose[i]
                else start[i] + Times(Quintic((t - cfg.gainRamp) / cfg.move), cfg.pose[i] - start[i]))
            && Home.Stiffness(cfg, c)[i] == (if t < cfg.gainRamp then Times(Quintic(t / cfg.gainRamp), cfg.kp[i]) else cfg.kp[i])
  {
    hide Quintic, Times, Mix;
    var start, x, y := Home.StartPose(cfg, measured), (c.timer - cfg.gainRamp) / cfg.move, c.timer / cfg.gainRamp;
    QuinticUnit(1.0);
    Mixed(start[i], cfg.pose[i], Quintic(UnitClamp(x)));
    Scaling(Quintic(UnitClamp(y)), cfg.kp[i]);
    Passed(c.timer - cfg.gainRamp, cfg.move);
    Passed(c.timer, cfg.gainRamp);
    assert Home.Factor(cfg, c) == if c.timer < cfg.gainRamp then Quintic(UnitClamp(y)) else 1.0;
  }

  /** A quotient says whether its time has passed. */
  lemma Passed(t: real, duration: real)
    requires duration > 0.0
    ensures t >= duration <==> t / duration >= 1.0
    ensures t >= 0.0 ==> t / duration >= 0.0
  {
    var x := t / duration;
    assert x * duration == t;
  }

  lemma Mixed(a: real, b: real, weight: real)
    ensures Mix(a, b, weight) == a + Times(weight, b - a)
    ensures Mix(a, b, 1.0) == b
  {}

  lemma Scaling(factor: real, x: real)
    ensures factor * x == Times(factor, x) && 1.0 * x == x
  {}

  // ---------------------------------------------------------------- SAFETY

  function SafetyAfter(duration: real, canRamp: bool, dts: seq<real>): Safety_.Release {
    if dts == [] then Safety_.EnterSafety(canRamp)
    else Safety_.RunSafety(duration, SafetyAfter(duration, canRamp, dts[..|dts| - 1]), dts[|dts| - 1])
  }

  /** A release is finished by its first run, if it must not be gradual, and otherwise exactly by a run
      that reaches the release time; until then the gains fall in a straight line. */
  lemma {:induction false} SafetyFinishesExactly(duration: real, canRamp: bool, dts: seq<real>)
    requires duration >= 0.0
    ensures var r := SafetyAfter(duration, canRamp, dts);
            && r.timer == Sum(dts) && r.canRamp == canRamp
            && (r.finished <==> exists i :: 0 < i <= |dts| && (!canRamp || Sum(dts[..i]) >= duration))
            && (canRamp && 0.0 <= Sum(dts) < duration ==> Safety_.Share(duration, r) * duration == duration - Sum(dts))
  {
    if dts != [] {
      var n := |dts| - 1;
      var before := dts[..n];
      SafetyFinishesExactly(duration, canRamp, before);
      assert dts[..|dts|] == dts;
      assert forall i | 0 <= i <= n :: before[..i] == dts[..i];
    }
  }

  // ---------------------------------------------------------------- RL

  /** The entry transition of RL weighs the raw target with the square of the time that has passed. */
  lemma EntryBlendsExactly(cfg: Rl_.Config, live: bool, entry: seq<real>, raw: seq<real>, elapsed: real, i: nat)
    requires |entry| == |raw| && i < |raw|
    ensures var duration := if live then cfg.switchDuration else cfg.entryDuration;
            var out := Rl_.Blended(cfg, live, entry, raw, elapsed);
            && |out| == |raw|
            && (if duration <= 0.0 then out == raw
                else Times(duration * duration, out[i] - entry[i]) == Times(elapsed * elapsed, raw[i] - entry[i]))
  {
    var duration := if live then cfg.switchDuration else cfg.entryDuration;
    if duration > 0.0 {
      var x := elapsed / duration;
      assert x * duration == elapsed;
      var out := Rl_.Blended(cfg, live, entry, raw, elapsed);
      assert out[i] == Mix(entry[i], raw[i], Times(x, x));
      SquaredShare(duration, x, entry[i], raw[i]);
    }
  }

  lemma SquaredShare(duration: real, x: real, a: real, b: real)
    ensures Times(duration * duration, Mix(a, b, Times(x, x)) - a) == Times((x * duration) * (x * duration), b - a)
  {
    var w := Times(x, x);
    assert Mix(a, b, w) - a == w * (b - a);
    assert (x * duration) * (x * duration) == (duration * duration) * w;
  }

  /** Without a live handoff the configured gains apply at once; with one they do when its time has
      passed, and before that the entry gains weigh as for the targets. */
  lemma GainsBlendExactly(cfg: Rl_.Config, live: bool, kpEntry: seq<real>, kdEntry: seq<real>, kp: seq<real>, kd: seq<real>,
      elapsed: real, i: nat)
    requires |kpEntry| == |kp| && |kdEntry| == |kd| && i < |kp| && elapsed >= 0.0
    ensures var duration := cfg.switchDuration;
            var (p, d) := Rl_.HandoffGains(cfg, live, kpEntry, kdEntry, kp, kd, elapsed);
            && |p| == |kp|
            && (if !live || duration <= 0.0 then p == kp && d == kd
                else if elapsed >= duration then p[i] == kp[i]
                else Times(duration * duration, p[i] - kpEntry[i]) == Times(elapsed * elapsed, kp[i] - kpEntry[i]))
  {
    if live && cfg.switchDuration > 0.0 {
      var x := elapsed / cfg.switchDuration;
      assert x * cfg.switchDuration == elapsed;
      Passed(elapsed, cfg.switchDuration);
      SquaredShare(cfg.switchDuration, x, kpEntry[i], kp[i]);
      Mixed(kpEntry[i], kp[i], 1.0);
    }
  }
}
