/** Reference playback and its handoff, policy_adapter.cpp: a requested switch lets the current
    cycle run out and then holds its last frame. */
module Handoff {
  import opened Curves
  import opened RobotBase

  datatype Config = Config(frames: int, fps: real, speed: real, loop: bool, pause: real)

  predicate ValidConfig(cfg: Config) {
    cfg.frames > 0 && cfg.fps > 0.0 && cfg.speed > 0.0 && cfg.pause >= 0.0
  }

  /** Two neighbouring frames, the share of the second, and whether the end is being held. */
  datatype Sample = Sample(frame0: int, frame1: int, alpha: real, hold: bool)

  const NO_SAMPLE := Sample(0, 0, 0.0, false)

  /** Where in the clip a sample is, in frames. */
  function Position(s: Sample): real { s.frame0 as real + s.alpha }

  /** Frames per second of wall clock. */
  function Rate(cfg: Config): (r: real)
    ensures cfg.fps > 0.0 && cfg.speed > 0.0 ==> r > 0.0
  {
    Positive(cfg.fps, cfg.speed);
    Times(cfg.fps, cfg.speed)
  }

  /** Wall-clock length of one pass over the frames. */
  function Pass(cfg: Config): (d: real)
    requires ValidConfig(cfg)
    ensures d > 0.0
  {
    cfg.frames as real / Rate(cfg)
  }

  function Cycle(cfg: Config): (d: real)
    requires ValidConfig(cfg)
    ensures d >= Pass(cfg) > 0.0
  {
    Pass(cfg) + cfg.pause
  }

  /** How many whole periods fit into x. */
  function Whole(x: real, period: real): int
    requires period > 0.0
  {
    (x / period).Floor
  }

  /** Time since the start of the cycle that holds the given time. */
  function InCycle(cfg: Config, elapsed: real): real
    requires ValidConfig(cfg)
  {
    var e := Max(elapsed, 0.0);
    if cfg.loop then e - Times(Whole(e, Cycle(cfg)) as real, Cycle(cfg)) else e
  }

  /** The two frames around a position, which is cut off at the last frame. */
  function Between(frames: int, position: real, hold: bool): (s: Sample)
    requires frames > 0 && position >= 0.0
    ensures 0 <= s.frame0 <= s.frame1 < frames && s.frame1 <= s.frame0 + 1
    ensures 0.0 <= s.alpha < 1.0 && Position(s) == Min(position, (frames - 1) as real) && s.hold == hold
    ensures s.frame0 == frames - 1 ==> s.alpha == 0.0
  {
    var cut := Min(position, (frames - 1) as real);
    var first := cut.Floor;
    Sample(first, if first + 1 <= frames - 1 then first + 1 else frames - 1, cut - first as real, hold)
  }

  /** The sample some time after the start of a pass; past its end the last frame is held. */
  function AtTime(cfg: Config, time: real): (s: Sample)
    requires ValidConfig(cfg) && time >= 0.0
    ensures 0 <= s.frame0 <= s.frame1 < cfg.frames && s.frame1 <= s.frame0 + 1 && 0.0 <= s.alpha < 1.0
    ensures s.hold <==> time >= Pass(cfg)
    ensures s.hold ==> Position(s) == (cfg.frames - 1) as real
    ensures Position(s) <= (cfg.frames - 1) as real
  {
    Nonnegative(time, Rate(cfg));
    if time >= Pass(cfg) then Between(cfg.frames, cfg.frames as real, true)
    else Between(cfg.frames, Times(time, Rate(cfg)), false)
  }

  /** Seconds of motion between two frames, and in the whole clip. */
  function FramePeriod(cfg: Config): (d: real)
    requires ValidConfig(cfg)
    ensures d > 0.0
  {
    1.0 / cfg.fps
  }

  function MotionDuration(cfg: Config): real
    requires ValidConfig(cfg)
  {
    Times(cfg.frames as real, FramePeriod(cfg))
  }

  /** The motion's own clock after some wall-clock time of a pass. */
  function MotionTime(cfg: Config, time: real): real
    requires ValidConfig(cfg) && MotionDuration(cfg) >= 0.0
  {
    if time >= MotionDuration(cfg) / cfg.speed then MotionDuration(cfg)
    else Clamp(Times(time, cfg.speed), 0.0, MotionDuration(cfg))
  }

  /** The position is the motion's time over its frame period, cut off at the last frame, which
      is how the adapters compute it. */
  lemma MotionClockAgrees(cfg: Config, time: real)
    requires ValidConfig(cfg) && time >= 0.0
    ensures MotionDuration(cfg) >= 0.0 && MotionDuration(cfg) / cfg.speed == Pass(cfg)
    ensures Position(AtTime(cfg, time)) == Min(MotionTime(cfg, time) / FramePeriod(cfg), (cfg.frames - 1) as real)
  {
    var duration := MotionDuration(cfg);
    MotionLength(cfg.frames as real, cfg.fps, cfg.speed);
    Nonnegative(time, cfg.speed);
    MotionShare(duration, cfg.speed);
    if time < duration / cfg.speed {
      Ordered(time, duration / cfg.speed, cfg.speed);
    }
    FramesFrom(MotionTime(cfg, time), cfg.fps);
    Regroup(time, cfg.speed, cfg.fps);
    hide Times, Rate;
    if time < Pass(cfg) {
      Below(cfg, time);
    }
  }

  lemma Below(cfg: Config, time: real)
    requires ValidConfig(cfg) && 0.0 <= time < Pass(cfg)
    ensures Position(AtTime(cfg, time)) == Min(Times(time, Times(cfg.fps, cfg.speed)), (cfg.frames - 1) as real)
  {}

  lemma Regroup(x: real, y: real, z: real)
    ensures Times(Times(x, y), z) == Times(x, Times(z, y))
  {}

  lemma MotionLength(n: real, fps: real, speed: real)
    requires fps > 0.0 && speed > 0.0 && n > 0.0
    ensures Times(n, 1.0 / fps) / speed == n / Times(fps, speed)
    ensures Times(Times(n, 1.0 / fps), fps) == n && Times(n, 1.0 / fps) > 0.0
  {}

  lemma MotionShare(duration: real, speed: real)
    requires speed > 0.0
    ensures Times(duration / speed, speed) == duration
  {}

  lemma FramesFrom(motion: real, fps: real)
    requires fps > 0.0
    ensures motion / (1.0 / fps) == Times(motion, fps)
  {}

  lemma Ordered(x: real, y: real, z: real)
    requires x <= y && z > 0.0
    ensures Times(x, z) <= Times(y, z)
    ensures x < y ==> Times(x, z) < Times(y, z)
  {}

  lemma OneMore(k: int, period: real)
    ensures Times((k + 1) as real, period) == Times(k as real, period) + period
  {}

  lemma CycleBounds(x: real, period: real)
    requires x >= 0.0 && period > 0.0
    ensures Whole(x, period) >= 0
    ensures Times(Whole(x, period) as real, period) <= x < Times(Whole(x, period) as real, period) + period
  {
    var q, k := x / period, Whole(x, period);
    QuotientOrder(0.0, x, period);
    assert x == Times(q, period);
    Ordered(k as real, q, period);
    Ordered(q, (k + 1) as real, period);
    OneMore(k, period);
  }

  lemma InCycleBounds(cfg: Config, elapsed: real)
    requires ValidConfig(cfg)
    ensures 0.0 <= InCycle(cfg, elapsed)
    ensures cfg.loop ==> InCycle(cfg, elapsed) < Cycle(cfg)
  {
    if cfg.loop {
      CycleBounds(Max(elapsed, 0.0), Cycle(cfg));
    }
  }

  /** Playback by the wall clock. An invalid clip or rate is an error. */
  function SamplePlayback(cfg: Config, elapsed: real): (r: Option<Sample>)
    ensures r.Some? <==> ValidConfig(cfg)
    ensures r.Some? ==> 0 <= r.value.frame0 <= r.value.frame1 < cfg.frames && 0.0 <= r.value.alpha < 1.0
  {
    if !ValidConfig(cfg) then None
    else
      InCycleBounds(cfg, elapsed);
      Some(AtTime(cfg, InCycle(cfg, elapsed)))
  }

  lemma WholeOf(k: nat, t: real, period: real)
    requires period > 0.0 && 0.0 <= t < period
    ensures Times(k as real, period) >= 0.0 && Whole(Times(k as real, period) + t, period) == k
  {
    var x := Times(k as real, period) + t;
    Nonnegative(k as real, period);
    CycleBounds(x, period);
    var l := Whole(x, period);
    hide Times, Whole;
    OneMore(k, period);
    OneMore(l, period);
    if l > k {
      Ordered((k + 1) as real, l as real, period);
    } else if l < k {
      Ordered((l + 1) as real, k as real, period);
    }
  }

  lemma PassIs(cfg: Config, pass: real)
    requires ValidConfig(cfg) && Times(pass, Times(cfg.fps, cfg.speed)) == cfg.frames as real
    ensures Pass(cfg) == pass > 0.0
  {}

  // ---------------------------------------------------------------- handoff

  datatype State = State(requested: bool, ready: bool, finished: bool, holding: bool, end: real)

  function Reset(s: State): State { s.(requested := false, ready := false, finished := false, holding := false) }

  /** The end of the pass that is under way. */
  function EndOf(cfg: Config, elapsed: real): real
    requires ValidConfig(cfg)
  {
    if cfg.loop then Times(Whole(Max(0.0, elapsed), Cycle(cfg)) as real, Cycle(cfg)) + Pass(cfg) else Pass(cfg)
  }

  function Request(cfg: Config, s: State, requested: bool, elapsed: real): State
    requires ValidConfig(cfg)
  {
    s.(requested := requested, end := if requested && !s.requested then EndOf(cfg, elapsed) else s.end)
  }

  predicate HoldsNow(s: State, elapsed: real) { s.holding || (s.requested && elapsed >= s.end) }

  /** The reference of one tick; while playback waits to be started there is none. */
  function Shown(cfg: Config, s: State, elapsed: real, waiting: bool): (shown: Sample)
    requires ValidConfig(cfg)
    ensures 0 <= shown.frame0 <= shown.frame1 < cfg.frames && 0.0 <= shown.alpha < 1.0
  {
    InCycleBounds(cfg, elapsed);
    if waiting then NO_SAMPLE
    else if HoldsNow(s, elapsed) then AtTime(cfg, Pass(cfg)) else AtTime(cfg, InCycle(cfg, elapsed))
  }

  function Take(cfg: Config, s: State, elapsed: real, waiting: bool): State
    requires ValidConfig(cfg)
  {
    var shown := Shown(cfg, s, elapsed, waiting);
    s.(holding := if waiting then s.holding else HoldsNow(s, elapsed),
       ready := waiting || shown.hold,
       finished := !waiting && !cfg.loop && shown.hold)
  }

  /** Within the pass of the request the clock stays in one cycle. */
  lemma SameCycle(cfg: Config, asked: real, elapsed: real)
    requires ValidConfig(cfg) && asked <= elapsed < EndOf(cfg, asked)
    ensures cfg.loop ==> Whole(Max(0.0, elapsed), Cycle(cfg)) == Whole(Max(0.0, asked), Cycle(cfg))
    ensures cfg.loop ==> InCycle(cfg, elapsed) == Max(0.0, elapsed) - (EndOf(cfg, asked) - Pass(cfg))
    ensures InCycle(cfg, elapsed) < Pass(cfg)
  {
    if cfg.loop {
      var x, y, c := Max(0.0, asked), Max(0.0, elapsed), Cycle(cfg);
      CycleBounds(x, c);
      CycleBounds(y, c);
      OneCycle(Whole(x, c), Whole(y, c), x, y, c, Pass(cfg));
    }
  }

  lemma OneCycle(k: int, l: int, x: real, y: real, cycle: real, pass: real)
    requires 0.0 < pass <= cycle && x <= y
    requires Times(k as real, cycle) <= x && Times(l as real, cycle) <= y < Times(l as real, cycle) + cycle
    requires x < Times(k as real, cycle) + cycle
    requires y < Times(k as real, cycle) + pass
    ensures k == l
  {
    hide Times;
    if l >= k + 1 {
      Ordered((k + 1) as real, l as real, cycle);
      OneMore(k, cycle);
    } else if l + 1 <= k {
      Ordered((l + 1) as real, k as real, cycle);
      OneMore(l, cycle);
    }
  }

  /** A later time in the same pass shows a position at least as far on. */
  lemma ClockRises(cfg: Config, time: real, later: real)
    requires ValidConfig(cfg) && 0.0 <= time <= later
    ensures Position(AtTime(cfg, time)) <= Position(AtTime(cfg, later))
  {
    Ordered(time, later, Rate(cfg));
    hide Times, Rate;
  }

  /** What a tick shows without a handoff: every cycle runs through the frames at the configured rate,
      rests at the last one for the pause, and is ready there; without a loop there is one pass, which
      ends playback. */
  lemma PlaybackExactly(cfg: Config, s: State, k: nat, t: real, pass: real)
    requires ValidConfig(cfg) && Times(pass, Times(cfg.fps, cfg.speed)) == cfg.frames as real
    requires 0.0 <= t && (if cfg.loop then t < pass + cfg.pause else k == 0) && !s.requested && !s.holding
    ensures var elapsed := Times(k as real, pass + cfg.pause) + t;
            var shown, next := Shown(cfg, s, elapsed, false), Take(cfg, s, elapsed, false);
            && SamplePlayback(cfg, elapsed) == Some(shown) && next.end == s.end && !next.requested && !next.holding
            && Position(shown) == (if t >= pass then (cfg.frames - 1) as real
                                   else Min(Times(t, Times(cfg.fps, cfg.speed)), (cfg.frames - 1) as real))
            && (next.ready <==> t >= pass) && (next.finished <==> t >= pass && !cfg.loop)
  {
    PassIs(cfg, pass);
    var cycle := pass + cfg.pause;
    if cfg.loop {
      WholeOf(k, t, cycle);
    } else {
      assert Times(0.0, cycle) == 0.0;
    }
    hide Times;
  }

  // ---------------------------------------------------------------- runs

  /** Ticks of running playback, and the request as it is repeated or withdrawn. */
  datatype Call = DoRequest(requested: bool, at: real) | DoTake(at: real)

  function Perform(cfg: Config, s: State, c: Call): State
    requires ValidConfig(cfg)
  {
    match c
    case DoRequest(requested, elapsed) => Request(cfg, s, requested, elapsed)
    case DoTake(elapsed) => Take(cfg, s, elapsed, false)
  }

  function After(cfg: Config, s: State, calls: seq<Call>, n: nat): State
    requires ValidConfig(cfg) && n <= |calls|
  {
    if n == 0 then s else Perform(cfg, After(cfg, s, calls, n - 1), calls[n - 1])
  }

  /** Position shown by the n-th call. */
  function PositionAt(cfg: Config, s: State, calls: seq<Call>, n: nat): real
    requires ValidConfig(cfg) && n < |calls|
  {
    Position(Shown(cfg, After(cfg, s, calls, n), calls[n].at, false))
  }

  predicate Forward(calls: seq<Call>, from: real) {
    && (forall i | 0 <= i < |calls| :: from <= calls[i].at)
    && (forall i, j | 0 <= i < j < |calls| :: calls[i].at <= calls[j].at)
  }

  predicate StaysRequested(calls: seq<Call>) {
    forall i | 0 <= i < |calls| :: calls[i].DoRequest? ==> calls[i].requested
  }

  /** The switch was asked for at this time and the request has stayed set. */
  ghost predicate Asked(cfg: Config, s: State, asked: real)
    requires ValidConfig(cfg)
  {
    s.requested && s.end == EndOf(cfg, asked)
  }

  lemma {:induction false} AskedStays(cfg: Config, s: State, asked: real, calls: seq<Call>, m: nat, n: nat)
    requires ValidConfig(cfg) && Asked(cfg, s, asked) && StaysRequested(calls) && m <= n <= |calls|
    ensures Asked(cfg, After(cfg, s, calls, n), asked)
    ensures After(cfg, s, calls, m).holding ==> After(cfg, s, calls, n).holding
  {
    if n > 0 {
      AskedStays(cfg, s, asked, calls, if m < n then m else n - 1, n - 1);
    }
  }

  /** What a requested handoff shows: the clock of the one cycle, then the last frame. */
  lemma ShownWhenAsked(cfg: Config, s: State, asked: real, elapsed: real)
    requires ValidConfig(cfg) && Asked(cfg, s, asked) && asked <= elapsed
    ensures var p := Position(Shown(cfg, s, elapsed, false));
            && (HoldsNow(s, elapsed) ==> p == (cfg.frames - 1) as real && Take(cfg, s, elapsed, false).ready)
            && (!HoldsNow(s, elapsed) ==> InCycle(cfg, elapsed) < Pass(cfg) && p == Position(AtTime(cfg, InCycle(cfg, elapsed))))
            && p <= (cfg.frames - 1) as real
  {
    InCycleBounds(cfg, elapsed);
    if !HoldsNow(s, elapsed) {
      SameCycle(cfg, asked, elapsed);
    }
  }

  /** While the request stays set and time does not run backwards the position never falls. */
  lemma PositionNeverFalls(cfg: Config, s: State, asked: real, calls: seq<Call>, i: nat, j: nat)
    requires ValidConfig(cfg) && Asked(cfg, s, asked) && StaysRequested(calls) && Forward(calls, asked)
    requires i < j < |calls| && calls[i].DoTake? && calls[j].DoTake?
    ensures PositionAt(cfg, s, calls, i) <= PositionAt(cfg, s, calls, j)
  {
    AskedStays(cfg, s, asked, calls, 0, i);
    AskedStays(cfg, s, asked, calls, i + 1, j);
    var first, second, t, u := After(cfg, s, calls, i), After(cfg, s, calls, j), calls[i].at, calls[j].at;
    assert After(cfg, s, calls, i + 1) == Take(cfg, first, t, false);
    ShownWhenAsked(cfg, first, asked, t);
    ShownWhenAsked(cfg, second, asked, u);
    if !HoldsNow(second, u) {
      assert !HoldsNow(first, t);
      InCycleBounds(cfg, t);
      SameCycle(cfg, asked, t);
      SameCycle(cfg, asked, u);
      ClockRises(cfg, InCycle(cfg, t), InCycle(cfg, u));
    }
  }

  /** It stays in the cycle of the request, and by that cycle's end shows the last frame. */
  lemma HandoffCompletes(cfg: Config, s: State, asked: real, calls: seq<Call>, n: nat)
    requires ValidConfig(cfg) && Asked(cfg, s, asked) && StaysRequested(calls) && Forward(calls, asked)
    requires n < |calls| && calls[n].DoTake?
    ensures var t := calls[n].at;
            && EndOf(cfg, asked) <= Max(0.0, asked) + Cycle(cfg)
            && (t >= EndOf(cfg, asked) ==>
                  PositionAt(cfg, s, calls, n) == (cfg.frames - 1) as real && After(cfg, s, calls, n + 1).ready)
            && (t < EndOf(cfg, asked) && cfg.loop ==>
                  Whole(Max(0.0, t), Cycle(cfg)) == Whole(Max(0.0, asked), Cycle(cfg)))
  {
    AskedStays(cfg, s, asked, calls, 0, n);
    var t := calls[n].at;
    ShownWhenAsked(cfg, After(cfg, s, calls, n), asked, t);
    CycleBounds(Max(0.0, asked), Cycle(cfg));
    if t < EndOf(cfg, asked) {
      SameCycle(cfg, asked, t);
    }
    assert After(cfg, s, calls, n + 1) == Take(cfg, After(cfg, s, calls, n), t, false);
  }

  /** Once held the last frame is shown until a reset, even if the request is withdrawn. */
  lemma {:induction false} HeldStaysHeld(cfg: Config, s: State, calls: seq<Call>, n: nat)
    requires ValidConfig(cfg) && s.holding && n <= |calls|
    ensures After(cfg, s, calls, n).holding
    ensures n < |calls| && calls[n].DoTake? ==>
              PositionAt(cfg, s, calls, n) == (cfg.frames - 1) as real && After(cfg, s, calls, n + 1).ready
  {
    if n > 0 {
      HeldStaysHeld(cfg, s, calls, n - 1);
    }
    if n < |calls| && calls[n].DoTake? {
      assert After(cfg, s, calls, n + 1) == Take(cfg, After(cfg, s, calls, n), calls[n].at, false);
    }
  }

  class ReferenceHandoff {
    var requested: bool
    var ready: bool
    var finished: bool
    var holding: bool
    var end: real

    constructor ()
      ensures Snapshot() == State(false, false, false, false, 0.0)
    {
      requested, ready, finished, holding, end := false, false, false, false, 0.0;
    }

    ghost function Snapshot(): State
      reads this
    {
      State(requested, ready, finished, holding, end)
    }

    method ResetAll()
      modifies this
      ensures Snapshot() == Reset(old(Snapshot()))
    {
      requested, ready, finished, holding := false, false, false, false;
    }

    method RequestSwitch(asked: bool, elapsed: real, cfg: Config)
      requires ValidConfig(cfg)
      modifies this
      ensures Snapshot() == Request(cfg, old(Snapshot()), asked, elapsed)
    {
      if asked && !requested {
        var duration := Pass(cfg);
        var cycle := duration + cfg.pause;
        end := if cfg.loop then Times(Whole(Max(0.0, elapsed), cycle) as real, cycle) + duration else duration;
      }
      requested := asked;
    }

    method TakeSample(elapsed: real, cfg: Config, waiting: bool) returns (sample: Sample)
      requires ValidConfig(cfg)
      modifies this
      ensures sample == Shown(cfg, old(Snapshot()), elapsed, waiting)
      ensures Snapshot() == Take(cfg, old(Snapshot()), elapsed, waiting)
    {
      sample := NO_SAMPLE;
      if !waiting {
        holding := holding || (requested && elapsed >= end);
        if holding {
          var once := cfg.(loop := false, pause := 0.0);
          sample := SamplePlayback(once, Pass(cfg)).value;
        } else {
          sample := SamplePlayback(cfg, elapsed).value;
        }
      }
      ready := waiting || sample.hold;
      finished := !waiting && !cfg.loop && sample.hold;
    }
  }
}
