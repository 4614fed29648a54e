/** ZERO: move to the reference pose, then wait until the measured joints have settled. */
module ZeroPose {
  import opened Curves
  import opened RobotBase

  datatype ZeroConfig = ZeroConfig(
    moveDuration: real, positionTolerance: real, velocityTolerance: real,
    settleDuration: real, next: Mode)

  /** One control run of a ZERO visit: the visit's clock before it, its period, its measurement. */
  datatype PoseRun = PoseRun(elapsed: real, dt: real, within: bool)

  /** The clocks of a visit together with the runs it consisted of. */
  datatype Visit = Visit(timer: real, settled: real, finished: bool, runs: seq<PoseRun>)

  const SETTLE_SLACK := 0.000000000001

  const FRESH := Visit(0.0, 0.0, false, [])

  function UpdateReadiness(cfg: ZeroConfig, v: Visit, dt: real, within: bool): Visit {
    if v.finished then v
    else
      var settled := if within && dt > 0.0 then v.settled + dt else 0.0;
      v.(settled := settled, finished := settled + SETTLE_SLACK >= cfg.settleDuration)
  }

  function RunZero(cfg: ZeroConfig, v: Visit, dt: real, within: bool): Visit {
    var checked := if v.timer < cfg.moveDuration then v else UpdateReadiness(cfg, v, dt, within);
    checked.(timer := v.timer + dt, runs := v.runs + [PoseRun(v.timer, dt, within)])
  }

  /** A visit is one entry followed by control runs. */
  ghost predicate Visited(cfg: ZeroConfig, v: Visit)
    decreases |v.runs|
  {
    v == FRESH ||
    (v.runs != [] &&
     exists u: Visit {:trigger Visited(cfg, u)} ::
       u.runs == v.runs[..|v.runs| - 1] && Visited(cfg, u) &&
       v == RunZero(cfg, u, v.runs[|v.runs| - 1].dt, v.runs[|v.runs| - 1].within))
  }

  /** Runs before the interpolation ends are not measured at all. */
  predicate Counted(cfg: ZeroConfig, r: PoseRun) { r.elapsed >= cfg.moveDuration }

  predicate Good(cfg: ZeroConfig, r: PoseRun) { Counted(cfg, r) ==> r.within && r.dt > 0.0 }

  /** Control time of the measured runs from index i on. */
  function Span(cfg: ZeroConfig, runs: seq<PoseRun>, i: nat): real
    requires i <= |runs|
    decreases |runs| - i
  {
    if i == |runs| then 0.0
    else (if Counted(cfg, runs[i]) then runs[i].dt else 0.0) + Span(cfg, runs, i + 1)
  }

  /** From run i on, every measured run is within tolerance, the last run is measured, and
      together they last the settle time. */
  ghost predicate SettledSince(cfg: ZeroConfig, runs: seq<PoseRun>, i: nat) {
    && i <= |runs| && runs != []
    && Counted(cfg, runs[|runs| - 1])
    && (forall k | i <= k < |runs| :: Good(cfg, runs[k]))
    && Span(cfg, runs, i) + SETTLE_SLACK >= cfg.settleDuration
  }

  /** Some contiguous block of the visit, ending after j runs, settled. */
  ghost predicate HasSettledBlock(cfg: ZeroConfig, runs: seq<PoseRun>) {
    exists i: nat, j: nat :: j <= |runs| && SettledSince(cfg, runs[..j], i)
  }

  lemma {:induction false} SpanAppend(cfg: ZeroConfig, runs: seq<PoseRun>, r: PoseRun, i: nat)
    requires i <= |runs|
    ensures Span(cfg, runs + [r], i) == Span(cfg, runs, i) + (if Counted(cfg, r) then r.dt else 0.0)
    decreases |runs| - i
  {
    if i == |runs| {
      assert Span(cfg, runs + [r], i + 1) == 0.0;
    } else {
      SpanAppend(cfg, runs, r, i + 1);
      assert (runs + [r])[i] == runs[i];
    }
  }

  /** A shorter block of good runs never lasts longer. */
  lemma {:induction false} SpanShrinks(cfg: ZeroConfig, runs: seq<PoseRun>, i: nat, j: nat)
    requires i <= j <= |runs|
    requires forall k | i <= k < |runs| :: Good(cfg, runs[k])
    ensures Span(cfg, runs, j) <= Span(cfg, runs, i)
    decreases j - i
  {
    if i < j {
      SpanShrinks(cfg, runs, i + 1, j);
    }
  }

  /** s is where the present streak of good runs began. */
  ghost predicate Streak(cfg: ZeroConfig, v: Visit, s: nat) {
    && s <= |v.runs|
    && v.settled == Span(cfg, v.runs, s)
    && (forall k | s <= k < |v.runs| :: Good(cfg, v.runs[k]))
    && (s > 0 ==> !Good(cfg, v.runs[s - 1]))
  }

  /** How one run changes "some block settled" and the streak. */
  lemma StreakStep(cfg: ZeroConfig, u: Visit, s: nat, dt: real, within: bool) returns (t: nat)
    requires !u.finished && Streak(cfg, u, s)
    ensures var v := RunZero(cfg, u, dt, within);
            && (!v.finished ==> Streak(cfg, v, t))
            && (v.finished <==> exists i: nat :: SettledSince(cfg, v.runs, i))
  {
    var r := PoseRun(u.timer, dt, within);
    var v := RunZero(cfg, u, dt, within);
    assert v.runs == u.runs + [r] && v.runs[|v.runs| - 1] == r;
    t := if Good(cfg, r) then s else |v.runs|;
    SpanAppend(cfg, u.runs, r, s);
    if Counted(cfg, r) {
      assert v.settled == Span(cfg, v.runs, t);
      if v.finished {
        assert SettledSince(cfg, v.runs, t);
      }
      forall i: nat | SettledSince(cfg, v.runs, i)
        ensures v.finished
      {
        assert t > 0 ==> !Good(cfg, v.runs[t - 1]);
        SpanShrinks(cfg, v.runs, t, i);
      }
    }
  }

  lemma BlockAppend(cfg: ZeroConfig, runs: seq<PoseRun>, r: PoseRun)
    ensures HasSettledBlock(cfg, runs + [r]) <==>
            HasSettledBlock(cfg, runs) || exists i: nat :: SettledSince(cfg, runs + [r], i)
  {
    var all := runs + [r];
    if HasSettledBlock(cfg, all) {
      var i: nat, j: nat :| j <= |all| && SettledSince(cfg, all[..j], i);
      if j == |all| {
        assert all[..j] == all;
      } else {
        assert all[..j] == runs[..j];
      }
    }
    if HasSettledBlock(cfg, runs) {
      var i: nat, j: nat :| j <= |runs| && SettledSince(cfg, runs[..j], i);
      assert all[..j] == runs[..j];
    }
    forall i: nat | SettledSince(cfg, all, i)
      ensures HasSettledBlock(cfg, all)
    {
      assert all[..|all|] == all;
    }
  }

  lemma {:induction false} VisitStreak(cfg: ZeroConfig, v: Visit) returns (s: nat)
    requires Visited(cfg, v)
    ensures v.finished <==> HasSettledBlock(cfg, v.runs)
    ensures !v.finished ==> Streak(cfg, v, s)
    decreases |v.runs|
  {
    s := 0;
    if v != FRESH {
      var last := v.runs[|v.runs| - 1];
      var u: Visit :| u.runs == v.runs[..|v.runs| - 1] && Visited(cfg, u) &&
                      v == RunZero(cfg, u, last.dt, last.within);
      var before := VisitStreak(cfg, u);
      assert v.runs == u.runs + [PoseRun(u.timer, last.dt, last.within)];
      BlockAppend(cfg, u.runs, PoseRun(u.timer, last.dt, last.within));
      if !u.finished {
        s := StreakStep(cfg, u, before, last.dt, last.within);
      }
    }
  }

  /** ZERO reports "settled" exactly when the visit contained a settled block. */
  lemma FinishedIffSettled(cfg: ZeroConfig, v: Visit)
    requires Visited(cfg, v)
    ensures v.finished <==> HasSettledBlock(cfg, v.runs)
  {
    var _ := VisitStreak(cfg, v);
  }

  lemma VisitedStep(cfg: ZeroConfig, v: Visit, dt: real, within: bool)
    requires Visited(cfg, v)
    ensures Visited(cfg, RunZero(cfg, v, dt, within))
  {
    var w := RunZero(cfg, v, dt, within);
    assert w.runs[..|w.runs| - 1] == v.runs;
  }

  /** A joint reading; None stands for a value that is not finite. */
  type Reading = Option<real>

  predicate Measurable(pose: seq<real>, positions: seq<Reading>, velocities: seq<Reading>) {
    && |positions| == |pose| && |velocities| == |pose|
    && (forall i | 0 <= i < |pose| :: positions[i].Some? && velocities[i].Some?)
  }

  predicate Within(cfg: ZeroConfig, pose: seq<real>, positions: seq<Reading>, velocities: seq<Reading>) {
    && Measurable(pose, positions, velocities)
    && (forall i | 0 <= i < |pose| ::
          && Abs(pose[i] - positions[i].value) <= cfg.positionTolerance
          && Abs(velocities[i].value) <= cfg.velocityTolerance)
  }

  class StateZero {
    const cfg: ZeroConfig
    const pose: seq<real>
    const gains: Gains
    var initPos: seq<real>
    var timer: real
    var settled: real
    var finished: bool
    var output: Output
    ghost var runs: seq<PoseRun>

    /** The output vectors are the robot's: they are as the state before has left them. */
    constructor (cfg: ZeroConfig, pose: seq<real>, gains: Gains, output: Output)
      ensures this.cfg == cfg && this.pose == pose && this.gains == gains && this.output == output && Snapshot() == FRESH
    {
      this.cfg, this.pose, this.gains, this.output := cfg, pose, gains, output;
      initPos := [];
      timer, settled, finished, runs := 0.0, 0.0, false, [];
    }

    ghost function Snapshot(): Visit
      reads this
    {
      Visit(timer, settled, finished, runs)
    }

    /** Continue from a target that is already being held, otherwise from the measured pose. The
        gains are restored, and no torque is left over. */
    method OnEnter(measured: seq<real>)
      modifies this
      ensures Snapshot() == FRESH
      ensures initPos == if old(output.enabled) && |old(output.position)| == |pose| then old(output.position) else measured
      ensures output == old(output).(hybrid := true, torque := Zeros(|pose|), gains := gains)
    {
      timer, settled, finished, runs := 0.0, 0.0, false, [];
      output := output.(hybrid := true, torque := Zeros(|pose|), gains := gains);
      initPos := if output.enabled && |output.position| == |pose| then output.position else measured;
    }

    /** The largest position error and speed over all joints, if every reading is usable. */
    method MeasurePose(positions: seq<Reading>, velocities: seq<Reading>)
      returns (valid: bool, positionError: real, velocity: real)
      ensures valid == Measurable(pose, positions, velocities)
      ensures valid ==> forall i | 0 <= i < |pose| ::
                && Abs(pose[i] - positions[i].value) <= positionError
                && Abs(velocities[i].value) <= velocity
      ensures valid && positionError != 0.0 ==>
                exists i :: 0 <= i < |pose| && Abs(pose[i] - positions[i].value) == positionError
      ensures valid && velocity != 0.0 ==> exists i :: 0 <= i < |pose| && Abs(velocities[i].value) == velocity
    {
      valid, positionError, velocity := false, 0.0, 0.0;
      if |positions| != |pose| || |velocities| != |pose| {
        return;
      }
      for i := 0 to |pose|
        invariant forall k | 0 <= k < i :: positions[k].Some? && velocities[k].Some?
        invariant forall k | 0 <= k < i ::
                    && Abs(pose[k] - positions[k].value) <= positionError
                    && Abs(velocities[k].value) <= velocity
        invariant positionError == 0.0 ||
                  exists k :: 0 <= k < i && Abs(pose[k] - positions[k].value) == positionError
        invariant velocity == 0.0 || exists k :: 0 <= k < i && Abs(velocities[k].value) == velocity
      {
        if positions[i].None? || velocities[i].None? {
          return;
        }
        var error := Abs(pose[i] - positions[i].value);
        if error > positionError {
          positionError := error;
        }
        var speed := Abs(velocities[i].value);
        if speed > velocity {
          velocity := speed;
        }
      }
      valid := true;
    }

    /** The loop over the joints: position and velocity of the move, or the pose at rest. */
    method Interpolate() returns (position: seq<real>, velocity: seq<real>)
      requires cfg.moveDuration > 0.0
      ensures position == Target(cfg, initPos, pose, timer) && velocity == Velocity(cfg, initPos, pose, timer)
    {
      hide Quintic, QuinticRate;
      position, velocity := Zeros(|pose|), Zeros(|pose|);
      for i := 0 to |pose|
        invariant |position| == |velocity| == |pose|
        invariant forall k | 0 <= k < i ::
                    && position[k] == Target(cfg, initPos, pose, timer)[k]
                    && velocity[k] == Velocity(cfg, initPos, pose, timer)[k]
      {
        var p, v := pose[i], 0.0;
        if timer < cfg.moveDuration {
          p, v := Moving(cfg, StartOf(initPos, i), pose[i], timer);
        }
        Standing(cfg, pose[i] - StartOf(initPos, i), timer);
        position, velocity := position[i := p], velocity[i := v];
      }
    }

    method Run(dt: real, positions: seq<Reading>, velocities: seq<Reading>)
      requires cfg.moveDuration > 0.0 && cfg.positionTolerance > 0.0 && cfg.velocityTolerance > 0.0
      modifies this
      ensures initPos == old(initPos)
      ensures initPos == [] || pose == [] ==> Snapshot() == old(Snapshot()) && output == old(output)
      ensures initPos != [] && pose != [] ==>
                && Snapshot() == RunZero(cfg, old(Snapshot()), dt, Within(cfg, pose, positions, velocities))
                && output == old(output).(enabled := true, position := Target(cfg, initPos, pose, old(timer)),
                                          velocity := Velocity(cfg, initPos, pose, old(timer)))
    {
      if initPos == [] || pose == [] {
        return;
      }
      var position, velocity := Interpolate();
      output := output.(enabled := true, position := position, velocity := velocity);
      ghost var within := Within(cfg, pose, positions, velocities);
      runs := runs + [PoseRun(timer, dt, within)];
      if timer >= cfg.moveDuration {
        if !finished {
          var valid, positionError, velocity := MeasurePose(positions, velocities);
          var converged := valid && dt > 0.0 && positionError <= cfg.positionTolerance &&
                           velocity <= cfg.velocityTolerance;
          assert converged == (within && dt > 0.0);
          settled := if converged then settled + dt else 0.0;
          if settled + SETTLE_SLACK >= cfg.settleDuration {
            finished := true;
          }
        }
      }
      timer := timer + dt;
    }
  }

  datatype Gains = Gains(kp: seq<real>, kd: seq<real>)

  /** The robot's output vectors; `hybrid` is the actuation mode that uses all of them. */
  datatype Output = Output(
    enabled: bool, hybrid: bool, position: seq<real>, velocity: seq<real>, torque: seq<real>, gains: Gains)

  /** Joints without a start value start from zero. */
  function StartOf(init: seq<real>, i: nat): real { if i < |init| then init[i] else 0.0 }

  /** Quintic interpolation towards the pose. */
  function Target(cfg: ZeroConfig, init: seq<real>, pose: seq<real>, elapsed: real): (r: seq<real>)
    requires cfg.moveDuration > 0.0
    ensures |r| == |pose|
  {
    seq(|pose|, i requires 0 <= i < |pose| =>
      if elapsed >= cfg.moveDuration then pose[i]
      else Mix(StartOf(init, i), pose[i], Quintic(elapsed / cfg.moveDuration)))
  }

  function Velocity(cfg: ZeroConfig, init: seq<real>, pose: seq<real>, elapsed: real): (r: seq<real>)
    requires cfg.moveDuration > 0.0
    ensures |r| == |pose|
  {
    seq(|pose|, i requires 0 <= i < |pose| =>
      SmootherRate(elapsed / cfg.moveDuration) / cfg.moveDuration * (pose[i] - StartOf(init, i)))
  }

  /** One joint in the middle of the move. */
  method Moving(cfg: ZeroConfig, start: real, end: real, elapsed: real) returns (position: real, velocity: real)
    requires cfg.moveDuration > 0.0 && elapsed < cfg.moveDuration
    ensures position == Mix(start, end, Quintic(elapsed / cfg.moveDuration))
    ensures velocity == SmootherRate(elapsed / cfg.moveDuration) / cfg.moveDuration * (end - start)
  {
    var s := elapsed / cfg.moveDuration;
    assert s < 1.0;
    var alpha := 10.0 * s * s * s - 15.0 * s * s * s * s + 6.0 * s * s * s * s * s;
    var rate := (30.0 * s * s - 60.0 * s * s * s + 30.0 * s * s * s * s) / cfg.moveDuration;
    assert alpha == Quintic(s);
    position, velocity := start + alpha * (end - start), rate * (end - start);
    hide Quintic;
  }

  lemma Standing(cfg: ZeroConfig, way: real, elapsed: real)
    requires cfg.moveDuration > 0.0
    ensures elapsed >= cfg.moveDuration ==> SmootherRate(elapsed / cfg.moveDuration) / cfg.moveDuration * way == 0.0
  {
    if elapsed >= cfg.moveDuration {
      OverIsDone(elapsed, cfg.moveDuration);
    }
  }

  lemma TargetMoves(cfg: ZeroConfig, init: seq<real>, pose: seq<real>, elapsed: real, i: nat)
    requires cfg.moveDuration > 0.0 && elapsed >= 0.0 && i < |pose|
    ensures Target(cfg, init, pose, elapsed)[i] ==
            StartOf(init, i) + Times(SmootherStep(elapsed / cfg.moveDuration), pose[i] - StartOf(init, i))
  {
    hide Quintic, Mix, Times;
    QuinticUnit(1.0);
    if elapsed < cfg.moveDuration {
      QuotientOrder(elapsed, elapsed, cfg.moveDuration);
      MixMoves(StartOf(init, i), pose[i], Quintic(elapsed / cfg.moveDuration));
    } else {
      OverIsDone(elapsed, cfg.moveDuration);
      MixMoves(StartOf(init, i), pose[i], 1.0);
    }
  }

  lemma MixMoves(a: real, b: real, weight: real)
    ensures Mix(a, b, weight) == a + Times(weight, b - a)
    ensures a + Times(1.0, b - a) == b
  {}

  lemma OverIsDone(elapsed: real, duration: real)
    requires duration > 0.0 && elapsed >= duration
    ensures elapsed / duration >= 1.0
  {}

  /** The commanded velocity is the slope of the commanded position: over any time the position
      moves by velocity times time, up to the square of the time relative to the move. */
  lemma VelocityIsSlope(cfg: ZeroConfig, init: seq<real>, pose: seq<real>, elapsed: real, dt: real, i: nat)
    requires cfg.moveDuration > 0.0 && elapsed >= 0.0 && dt >= 0.0 && i < |pose|
    ensures var h := dt / cfg.moveDuration;
            Abs(Target(cfg, init, pose, elapsed + dt)[i] - Target(cfg, init, pose, elapsed)[i]
                - Times(dt, Velocity(cfg, init, pose, elapsed)[i]))
            <= 76.0 * Times(h, h) * Abs(pose[i] - StartOf(init, i))
  {
    hide SmootherStep, SmootherRate, Target, Times, Abs;
    var s, h, way := elapsed / cfg.moveDuration, dt / cfg.moveDuration, pose[i] - StartOf(init, i);
    QuotientOrder(0.0, elapsed, cfg.moveDuration);
    QuotientOrder(0.0, dt, cfg.moveDuration);
    QuotientsAdd(elapsed, dt, cfg.moveDuration);
    TargetMoves(cfg, init, pose, elapsed, i);
    TargetMoves(cfg, init, pose, elapsed + dt, i);
    Rescaled(dt, cfg.moveDuration, SmootherRate(s), way, Velocity(cfg, init, pose, elapsed)[i]);
    SmootherSlope(s, h);
    Differs(SmootherStep(s + h), SmootherStep(s), Times(h, SmootherRate(s)), way, 76.0 * Times(h, h));
  }

  lemma QuotientsAdd(x: real, y: real, d: real)
    requires d > 0.0
    ensures (x + y) / d == x / d + y / d
  {}

  lemma Rescaled(dt: real, duration: real, rate: real, way: real, velocity: real)
    requires duration > 0.0 && velocity == rate / duration * way
    ensures Times(dt, velocity) == Times(Times(dt / duration, rate), way)
  {
    assert velocity == (1.0 / duration) * rate * way && dt / duration == dt * (1.0 / duration);
  }

  lemma Differs(x: real, y: real, z: real, way: real, bound: real)
    requires Abs(x - y - z) <= bound
    ensures Abs(Times(x, way) - Times(y, way) - Times(z, way)) <= bound * Abs(way)
  {
    assert Times(x, way) - Times(y, way) - Times(z, way) == Times(x - y - z, way);
    var gap := x - y - z;
    Nonnegative(bound - gap, Abs(way));
    Nonnegative(bound + gap, Abs(way));
    assert Times(bound - gap, Abs(way)) == bound * Abs(way) - Times(gap, Abs(way));
    assert Times(bound + gap, Abs(way)) == bound * Abs(way) + Times(gap, Abs(way));
    assert Times(gap, Abs(way)) == if way < 0.0 then -Times(gap, way) else Times(gap, way);
  }

  /** While the clock runs forward every ZERO target lies between the start and the pose. */
  lemma TargetBetween(cfg: ZeroConfig, init: seq<real>, pose: seq<real>, elapsed: real, i: nat, low: real, high: real)
    requires cfg.moveDuration > 0.0 && elapsed >= 0.0 && i < |pose|
    requires low <= pose[i] <= high && low <= StartOf(init, i) <= high
    ensures low <= Target(cfg, init, pose, elapsed)[i] <= high
  {
    if elapsed < cfg.moveDuration {
      var s := elapsed / cfg.moveDuration;
      assert 0.0 <= s <= 1.0;
      QuinticUnit(s);
      MixWithin(StartOf(init, i), pose[i], Quintic(s), low, high);
    }
  }
}
