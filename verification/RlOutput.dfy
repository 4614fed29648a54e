/** How the RL mode shapes what it puts out: entry transition, handoff gains, position limits. */
module RlOutput {
  import opened Curves
  import opened RobotBase
  import Pipeline = RlPipeline

  /** Limits are either absent or leave room inside the margin at every joint. */
  datatype Config = Config(
    entryDuration: real, switchDuration: real, lower: seq<real>, upper: seq<real>, margin: real)

  predicate ValidConfig(cfg: Config) {
    && cfg.entryDuration >= 0.0 && cfg.switchDuration >= 0.0 && cfg.margin >= 0.0 && |cfg.lower| == |cfg.upper|
    && (forall i | 0 <= i < |cfg.lower| :: cfg.lower[i] + cfg.margin < cfg.upper[i] - cfg.margin)
  }

  function TransitionTime(cfg: Config, live: bool): real { if live then cfg.switchDuration else cfg.entryDuration }

  /** The transition's clock after some more actions; it stands still where nothing is blended. */
  function Elapsed(cfg: Config, live: bool, matches: bool, elapsed: real, rlDt: real, steps: nat): real {
    var duration := TransitionTime(cfg, live);
    if duration <= 0.0 || !matches then elapsed else Min(duration, elapsed + Times(Max(0.0, rlDt), steps as real))
  }

  function Weight(progress: real): real { Times(progress, progress) }

  /** The raw target, mixed with the entry pose as far as the transition has come. */
  function Blended(cfg: Config, live: bool, entry: seq<real>, raw: seq<real>, elapsed: real): seq<real> {
    var duration := TransitionTime(cfg, live);
    if duration <= 0.0 || |entry| != |raw| then raw else MixPose(entry, raw, Weight(elapsed / duration))
  }

  /** Gains of a live handoff; any other entry uses the configured gains at once. */
  function HandoffGains(cfg: Config, live: bool, kpEntry: seq<real>, kdEntry: seq<real>, kp: seq<real>, kd: seq<real>,
      elapsed: real): (seq<real>, seq<real>)
  {
    if !live || cfg.switchDuration <= 0.0 || |kpEntry| != |kp| || |kdEntry| != |kd| then (kp, kd)
    else
      var alpha := Weight(UnitClamp(elapsed / cfg.switchDuration));
      (MixPose(kpEntry, kp, alpha), MixPose(kdEntry, kd, alpha))
  }

  function Clamped(cfg: Config, target: seq<real>): (r: seq<real>)
    requires ValidConfig(cfg) && (cfg.lower != [] ==> |target| == |cfg.lower|)
    ensures |r| == |target|
    ensures cfg.lower != [] ==> forall i | 0 <= i < |r| ::
              && cfg.lower[i] + cfg.margin <= r[i] <= cfg.upper[i] - cfg.margin
              && (cfg.lower[i] + cfg.margin <= target[i] <= cfg.upper[i] - cfg.margin ==> r[i] == target[i])
              && (target[i] < cfg.lower[i] + cfg.margin ==> r[i] == cfg.lower[i] + cfg.margin)
              && (target[i] > cfg.upper[i] - cfg.margin ==> r[i] == cfg.upper[i] - cfg.margin)
  {
    if cfg.lower == [] then target
    else seq(|target|, i requires 0 <= i < |target| =>
           Clamp(target[i], cfg.lower[i] + cfg.margin, cfg.upper[i] - cfg.margin))
  }

  /** None stands for a value that is not finite. */
  predicate AllFinite(target: seq<Option<real>>) { forall i | 0 <= i < |target| :: target[i].Some? }

  function Values(target: seq<Option<real>>): (r: seq<real>)
    ensures |r| == |target| && forall i | 0 <= i < |r| && target[i].Some? :: r[i] == target[i].value
  {
    seq(|target|, i requires 0 <= i < |target| => if target[i].Some? then target[i].value else 0.0)
  }

  lemma WeightUnit(x: real, y: real)
    requires 0.0 <= x <= y <= 1.0
    ensures 0.0 <= Weight(x) <= Weight(y) <= 1.0
    ensures Weight(0.0) == 0.0 && Weight(1.0) == 1.0
  {
    Nonnegative(x, x);
    Nonnegative(y, y - x);
    Nonnegative(x, y - x);
    assert Times(y, y) - Times(x, x) == Times(y, y - x) + Times(x, y - x);
    Nonnegative(y, 1.0 - y);
    assert Times(y, 1.0 - y) == y - Times(y, y);
  }

  /** The weight of a clock that is within its duration. */
  lemma WeightWithin(elapsed: real, duration: real)
    requires 0.0 <= elapsed <= duration && duration > 0.0
    ensures 0.0 <= Weight(elapsed / duration) <= 1.0
    ensures elapsed == 0.0 ==> Weight(elapsed / duration) == 0.0
    ensures elapsed == duration ==> Weight(elapsed / duration) == 1.0
  {
    hide Times, Weight;
    var progress := elapsed / duration;
    QuotientOrder(0.0, elapsed, duration);
    QuotientOrder(elapsed, duration, duration);
    assert elapsed == 0.0 ==> progress == 0.0;
    assert duration / duration == 1.0;
    WeightUnit(progress, 1.0);
  }

  lemma MixEnds(a: real, b: real)
    ensures Mix(a, b, 0.0) == a && Mix(a, b, 1.0) == b
  {}

  /** While the transition's clock is within it, every blended joint lies between its entry
      position and its raw target, and the raw target is reached when the clock has run out. */
  lemma BlendedBetween(cfg: Config, live: bool, entry: seq<real>, raw: seq<real>, elapsed: real, i: nat)
    requires ValidConfig(cfg) && |entry| == |raw| && i < |raw| && 0.0 <= elapsed
    requires TransitionTime(cfg, live) > 0.0 ==> elapsed <= TransitionTime(cfg, live)
    ensures |Blended(cfg, live, entry, raw, elapsed)| == |raw|
    ensures Min(entry[i], raw[i]) <= Blended(cfg, live, entry, raw, elapsed)[i] <= Max(entry[i], raw[i])
    ensures elapsed == TransitionTime(cfg, live) ==> Blended(cfg, live, entry, raw, elapsed)[i] == raw[i]
    ensures elapsed == 0.0 && TransitionTime(cfg, live) > 0.0 ==> Blended(cfg, live, entry, raw, elapsed)[i] == entry[i]
  {
    var duration := TransitionTime(cfg, live);
    if duration > 0.0 {
      var weight := Weight(elapsed / duration);
      assert Blended(cfg, live, entry, raw, elapsed) == MixPose(entry, raw, weight);
      WeightWithin(elapsed, duration);
      hide Blended, Weight, Mix;
      MixEnds(entry[i], raw[i]);
      MixWithin(entry[i], raw[i], weight, Min(entry[i], raw[i]), Max(entry[i], raw[i]));
    }
  }

  /** Handoff gains stay between the gains at entry and the configured ones. */
  lemma GainsBetween(cfg: Config, live: bool, kpEntry: seq<real>, kdEntry: seq<real>, kp: seq<real>, kd: seq<real>,
      elapsed: real, i: nat)
    requires |kpEntry| == |kp| && |kdEntry| == |kd|
    ensures var (p, d) := HandoffGains(cfg, live, kpEntry, kdEntry, kp, kd, elapsed);
            && |p| == |kp| && |d| == |kd|
            && (i < |kp| ==> Min(kpEntry[i], kp[i]) <= p[i] <= Max(kpEntry[i], kp[i]))
            && (i < |kd| ==> Min(kdEntry[i], kd[i]) <= d[i] <= Max(kdEntry[i], kd[i]))
  {
    if live && cfg.switchDuration > 0.0 {
      var alpha := Weight(UnitClamp(elapsed / cfg.switchDuration));
      WeightUnit(UnitClamp(elapsed / cfg.switchDuration), 1.0);
      if i < |kp| {
        MixWithin(kpEntry[i], kp[i], alpha, Min(kpEntry[i], kp[i]), Max(kpEntry[i], kp[i]));
      }
      if i < |kd| {
        MixWithin(kdEntry[i], kd[i], alpha, Min(kdEntry[i], kd[i]), Max(kdEntry[i], kd[i]));
      }
    }
  }

  /** This clock is the one of the two-thread protocol. */
  lemma ElapsedIsCredited(cfg: Config, p: Pipeline.Config, live: bool, b: Pipeline.Blend, rlDt: real, steps: nat)
    requires p.blendDuration == TransitionTime(cfg, live)
    ensures Elapsed(cfg, live, p.poseMatches, b.elapsed, rlDt, steps) == Pipeline.Credited(p, b, rlDt, steps).elapsed
  {}

  class StateRl {
    const cfg: Config
    var live: bool
    var entryTarget: seq<real>
    var entryKp: seq<real>
    var entryKd: seq<real>
    var elapsed: real
    var kp: seq<real>
    var kd: seq<real>

    constructor (cfg: Config)
      requires ValidConfig(cfg)
      ensures this.cfg == cfg && elapsed == 0.0
    {
      this.cfg, live, elapsed := cfg, false, 0.0;
      entryTarget, entryKp, entryKd, kp, kd := [], [], [], [], [];
    }

    method ApplyEntryTargetTransition(target: array<real>, rlDt: real, steps: nat)
      modifies this`elapsed, target
      ensures elapsed == Elapsed(cfg, live, |entryTarget| == target.Length, old(elapsed), rlDt, steps)
      ensures target[..] == Blended(cfg, live, entryTarget, old(target[..]), elapsed)
    {
      var duration := if live then cfg.switchDuration else cfg.entryDuration;
      if duration <= 0.0 || |entryTarget| != target.Length {
        return;
      }
      ghost var raw := target[..];
      elapsed := Min(duration, elapsed + Times(Max(0.0, rlDt), steps as real));
      var progress := elapsed / duration;
      var alpha := Weight(progress);
      for i := 0 to target.Length
        modifies target
        invariant forall k | 0 <= k < i :: target[k] == Mix(entryTarget[k], raw[k], alpha)
        invariant forall k | i <= k < target.Length :: target[k] == raw[k]
      {
        target[i] := Mix(entryTarget[i], target[i], alpha);
      }
      assert target[..] == MixPose(entryTarget, raw, alpha);
    }

    method ApplyHandoffGains()
      requires |kp| == |kd|
      modifies this`kp, this`kd
      ensures (kp, kd) == HandoffGains(cfg, live, entryKp, entryKd, old(kp), old(kd), elapsed)
    {
      if !live || cfg.switchDuration <= 0.0 || |entryKp| != |kp| || |entryKd| != |kd| {
        return;
      }
      var progress := Clamp(elapsed / cfg.switchDuration, 0.0, 1.0);
      var alpha := Weight(progress);
      ghost var p, d := kp, kd;
      for i := 0 to |kp|
        modifies this`kp, this`kd
        invariant |kp| == |kd| == |p|
        invariant forall k | 0 <= k < i :: kp[k] == Mix(entryKp[k], p[k], alpha) && kd[k] == Mix(entryKd[k], d[k], alpha)
        invariant forall k | i <= k < |kp| :: kp[k] == p[k] && kd[k] == d[k]
      {
        kp := kp[i := Mix(entryKp[i], kp[i], alpha)];
        kd := kd[i := Mix(entryKd[i], kd[i], alpha)];
      }
      assert kp == MixPose(entryKp, p, alpha) && kd == MixPose(entryKd, d, alpha);
    }

    /** A target of the wrong dimension, or with a joint that is not finite, is a fault; without
        limits anything passes. */
    method ClampTargetPosition(target: array<Option<real>>) returns (ok: bool)
      requires ValidConfig(cfg)
      modifies target
      ensures ok <==> cfg.lower == [] || (target.Length == |cfg.lower| && AllFinite(old(target[..])))
      ensures cfg.lower == [] ==> target[..] == old(target[..])
      ensures ok && cfg.lower != [] ==> AllFinite(target[..]) && Values(target[..]) == Clamped(cfg, Values(old(target[..])))
    {
      if cfg.lower == [] {
        return true;
      }
      if target.Length != |cfg.lower| {
        return false;
      }
      ghost var raw := target[..];
      for i := 0 to target.Length
        invariant forall k | 0 <= k < i :: raw[k].Some? && target[k] == Some(Clamped(cfg, Values(raw))[k])
        invariant forall k | i <= k < target.Length :: target[k] == raw[k]
      {
        if target[i].None? {
          return false;
        }
        target[i] := Some(Clamp(target[i].value, cfg.lower[i] + cfg.margin, cfg.upper[i] - cfg.margin));
      }
      assert Values(target[..]) == Clamped(cfg, Values(raw));
      ok := true;
    }
  }
}
