/** SAFETY: release the joints, either at once or by ramping the gains to zero. */
module SafetyRelease {
  import opened Curves
  import opened RobotBase

  datatype Release = Release(timer: real, finished: bool, canRamp: bool)

  function EnterSafety(canRamp: bool): Release { Release(0.0, false, canRamp) }

  function RunSafety(duration: real, r: Release, dt: real): Release {
    var timer := r.timer + dt;
    Release(timer, r.finished || !(r.canRamp && timer < duration), r.canRamp)
  }

  /** Only faults that leave the joint loop trustworthy are released gently. */
  predicate AllowsControlledRelease(f: FaultStatus) {
    f.active && (f.source == Policy || (f.source == SafetyMonitor && f.code == LimitExceeded))
  }

  /** Share of the entry gains that is still applied after a run. */
  function Share(duration: real, r: Release): real
    requires duration >= 0.0
  {
    if r.canRamp && r.timer < duration && duration > 0.0 then 1.0 - r.timer / duration else 0.0
  }

  /** While time passes the gains only fall, stay between zero and the entry gains, and are
      zero once the release has finished. */
  lemma ShareFalls(duration: real, r: Release, dt: real)
    requires duration >= 0.0 && dt >= 0.0 && r.timer >= 0.0
    requires r.finished ==> !(r.canRamp && r.timer < duration)
    ensures var after := RunSafety(duration, r, dt);
            && 0.0 <= Share(duration, after) <= Share(duration, r) <= 1.0
            && (after.finished <==> Share(duration, after) == 0.0)
  {
    if duration > 0.0 {
      var t, u := r.timer, r.timer + dt;
      QuotientOrder(t, u, duration);
    }
  }

  class StateSafety {
    const duration: real
    var timer: real
    var finished: bool
    var canRamp: bool
    var holdPos: seq<real>
    var kpInit: seq<real>
    var kdInit: seq<real>
    var enable: bool
    var kp: seq<real>
    var kd: seq<real>
    var target: seq<real>

    constructor (duration: real)
      requires duration >= 0.0
      ensures this.duration == duration
    {
      this.duration := duration;
      timer, finished, canRamp := 0.0, false, false;
      holdPos, kpInit, kdInit, enable, kp, kd, target := [], [], [], false, [], [], [];
    }

    ghost function Snapshot(): Release
      reads this
    {
      Release(timer, finished, canRamp)
    }

    /** `measured` and the gains are None where a value is not finite. */
    predicate Releasable(measured: seq<Option<real>>, gainP: seq<Option<real>>, gainD: seq<Option<real>>) {
      && measured != [] && |gainP| == |measured| && |gainD| == |measured|
      && (forall i | 0 <= i < |measured| :: measured[i].Some?)
      && (forall i | 0 <= i < |gainP| :: gainP[i].Some? && gainP[i].value >= 0.0)
      && (forall i | 0 <= i < |gainD| :: gainD[i].Some? && gainD[i].value >= 0.0)
    }

    static function Values(readings: seq<Option<real>>): seq<real> {
      seq(|readings|, i requires 0 <= i < |readings| => if readings[i].Some? then readings[i].value else 0.0)
    }

    method OnEnter(enabled: bool, fault: FaultStatus, measured: seq<Option<real>>,
        gainP: seq<Option<real>>, gainD: seq<Option<real>>)
      modifies this
      ensures var ramp := enabled && AllowsControlledRelease(fault) && Releasable(measured, gainP, gainD);
              && Snapshot() == EnterSafety(ramp)
              && target == holdPos && |holdPos| == |kpInit| == |kdInit| == |measured|
              && (ramp ==> holdPos == Values(measured) && kpInit == Values(gainP) && kdInit == Values(gainD))
              && (!ramp ==> !enable && kp == kd == Zeros(|measured|))
    {
      timer, finished := 0.0, false;
      canRamp := enabled && AllowsControlledRelease(fault) && Releasable(measured, gainP, gainD);
      var zeros := Zeros(|measured|);
      if canRamp {
        holdPos, kpInit, kdInit := Values(measured), Values(gainP), Values(gainD);
      } else {
        holdPos, kpInit, kdInit := zeros, zeros, zeros;
        kp, kd, enable := zeros, zeros, false;
      }
      target := holdPos;
    }

    method Run(dt: real)
      requires duration >= 0.0
      modifies this
      ensures Snapshot() == RunSafety(duration, old(Snapshot()), dt)
      ensures holdPos == old(holdPos) && kpInit == old(kpInit) && kdInit == old(kdInit) && target == holdPos
      ensures enable == (canRamp && timer < duration)
      ensures enable && timer >= 0.0 ==>
                && kp == Scaled(kpInit, Share(duration, Snapshot()))
                && kd == Scaled(kdInit, Share(duration, Snapshot()))
      ensures !enable ==> kp == kd == Zeros(|holdPos|)
    {
      timer := timer + dt;
      target := holdPos;
      if canRamp && timer < duration {
        var ratio := if duration > 0.0 then 1.0 - timer / duration else 0.0;
        enable := true;
        kp := Scaled(kpInit, ratio);
        kd := Scaled(kdInit, ratio);
      } else {
        enable := false;
        kp, kd := Zeros(|holdPos|), Zeros(|holdPos|);
        finished := true;
      }
    }
  }
}
