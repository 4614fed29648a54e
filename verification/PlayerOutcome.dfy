/** What a request and a tick of the trajectory player come to, in terms of the clip's frames and of
    the times since the phases began. */
module PlayerOutcome {
  import opened Curves
  import opened RobotBase
  import opened Player

  // ---------------------------------------------------------------- the frames

  /** A clip's value in one row and column, as it is stored. */
  function Stored(clip: Clip, row: nat, column: nat): real
    requires row < clip.frames && column < |clip.config.joints|
    requires |clip.positions| == clip.frames * |clip.config.joints|
  {
    CellInRange(row, clip.frames, column, |clip.config.joints|);
    clip.positions[row * |clip.config.joints| + column]
  }

  /** Playback time in frames. */
  function Frames(clip: Clip, elapsed: real): real { elapsed * clip.config.fps * clip.config.speed }

  /** `value` is on the line from one row to the next at this time. */
  predicate OnLine(clip: Clip, column: nat, row: nat, elapsed: real, value: real)
    requires row + 1 < clip.frames && column < |clip.config.joints|
    requires |clip.positions| == clip.frames * |clip.config.joints|
  {
    var a, b := Stored(clip, row, column), Stored(clip, row + 1, column);
    value == a + (Frames(clip, elapsed) - row as real) * (b - a)
  }

  lemma MixIsLine(a: real, b: real, w: real)
    ensures Mix(a, b, w) == a + w * (b - a)
    ensures Mix(a, b, 0.0) == a && Mix(a, b, 1.0) == b
  {}

  /** Playback runs in straight lines through all frames, from the first to the last. */
  lemma ShowsFrames(clip: Clip, column: nat, elapsed: real, row: nat)
    requires row < clip.frames && column < |clip.config.joints| && |clip.positions| == clip.frames * |clip.config.joints|
    ensures Frames(clip, elapsed) <= 0.0 ==> Position(clip, column, elapsed) == Stored(clip, 0, column)
    ensures Frames(clip, elapsed) >= (clip.frames - 1) as real ==>
              Position(clip, column, elapsed) == Stored(clip, clip.frames - 1, column)
    ensures row + 1 < clip.frames && row as real <= Frames(clip, elapsed) <= (row + 1) as real ==>
              OnLine(clip, column, row, elapsed, Position(clip, column, elapsed))
  {
    hide Cell, Stored, Position, Sample, Mix, Frames;
    var x, sample := Frames(clip, elapsed), Sample(clip, elapsed);
    var first := sample.Floor;
    var second := if first + 1 <= clip.frames - 1 then first + 1 else clip.frames - 1;
    PositionMixes(clip, column, elapsed);
    SampleIs(clip, elapsed);
    var a, b := Stored(clip, first, column), Stored(clip, second, column);
    MixIsLine(a, b, sample - first as real);
    if row + 1 < clip.frames && row as real <= x <= (row + 1) as real {
      if first == row {
        assert second == row + 1;
      } else {
        assert first == row + 1 && sample - first as real == 0.0;
        Reaches(Stored(clip, row, column), a);
      }
    }
  }

  lemma Reaches(a: real, b: real)
    ensures a + 1.0 * (b - a) == b
  {}

  lemma SampleIs(clip: Clip, elapsed: real)
    requires clip.frames > 0
    ensures Sample(clip, elapsed) == Clamp(Frames(clip, elapsed), 0.0, (clip.frames - 1) as real)
  {}

  lemma PositionMixes(clip: Clip, column: nat, elapsed: real)
    requires clip.frames > 0 && column < |clip.config.joints| && |clip.positions| == clip.frames * |clip.config.joints|
    ensures var sample := Sample(clip, elapsed);
            var first := sample.Floor;
            var second := if first + 1 <= clip.frames - 1 then first + 1 else clip.frames - 1;
            Position(clip, column, elapsed) ==
              Mix(Stored(clip, first, column), Stored(clip, second, column), sample - first as real)
  {
    hide Mix, Sample;
  }

  // ---------------------------------------------------------------- the easing curves

  lemma CubicIs(x: real)
    ensures Cubic(x) == 3.0 * x * x - 2.0 * x * x * x
  {}

  lemma CubicEnds(x: real)
    requires 0.0 <= x <= 1.0
    ensures Cubic(x) >= 1.0 <==> x == 1.0
  {
    CubicRises(x, 1.0);
    CubicUnit(x);
  }

  lemma QuinticEnds(x: real)
    requires 0.0 <= x <= 1.0
    ensures Quintic(x) >= 1.0 <==> x == 1.0
  {
    var y := 1.0 - x;
    QuinticUnit(x);
    if x < 1.0 {
      var xx := Times(x, x);
      Squared(x);
      Positive(y, y);
      Positive(Times(y, y), y);
      Positive(Times(Times(y, y), y), 1.0 + 3.0 * x + 6.0 * xx);
      Complement(x, y, xx);
    }
  }

  lemma Complement(x: real, y: real, xx: real)
    requires y == 1.0 - x && xx == x * x
    ensures 1.0 - Quintic(x) == Times(Times(Times(y, y), y), 1.0 + 3.0 * x + 6.0 * xx)
  {
    assert y * y == 1.0 - 2.0 * x + xx;
    var x3 := x * xx;
    assert y * y * y == 1.0 - 3.0 * x + 3.0 * xx - x3;
    assert Quintic(x) == 10.0 * x3 - 15.0 * (x3 * x) + 6.0 * (x3 * xx);
  }

  // ---------------------------------------------------------------- one tick

  /** A blend-in that is not over yet. */
  predicate Entering(cfg: Config, s: State, elapsed: real) {
    s.status.phase == BlendIn && cfg.blendIn > 0.0 && elapsed - s.phaseStart < cfg.blendIn
  }

  /** The clip runs or is held, possibly right after its blend-in. */
  predicate Running(cfg: Config, s: State, elapsed: real) {
    s.status.phase in {Playing, Holding} || (s.status.phase == BlendIn && !Entering(cfg, s, elapsed))
  }

  /** Time since playback began. */
  function Since(s: State, elapsed: real): real { Max(0.0, elapsed - s.playbackStart) }

  /** The last frame has been reached. */
  predicate AtEnd(clip: Clip, since: real) { Frames(clip, since) >= (clip.frames - 1) as real }

  lemma EnteringExactly(cfg: Config, s: State, elapsed: real)
    requires ValidConfig(cfg) && s.status.phase == BlendIn
    ensures EntryBlend(cfg, s, elapsed) >= 1.0 <==> !Entering(cfg, s, elapsed)
  {
    hide Cubic;
    if cfg.blendIn == 0.0 {
      CubicUnit(1.0);
    } else {
      var x := (elapsed - s.phaseStart) / cfg.blendIn;
      assert x * cfg.blendIn == elapsed - s.phaseStart;
      CubicEnds(UnitClamp(x));
      if x < 1.0 {
        assert elapsed - s.phaseStart < cfg.blendIn;
      } else {
        Scale(1.0, x, cfg.blendIn);
      }
    }
  }

  lemma EndExactly(clip: Clip, dof: nat, since: real)
    requires ValidClip(clip, dof)
    ensures since >= Duration(clip) <==> AtEnd(clip, since)
    ensures AtEnd(clip, Duration(clip)) && Duration(clip) >= 0.0
  {
    var rate := Times(clip.config.fps, clip.config.speed);
    Positive(clip.config.fps, clip.config.speed);
    assert Frames(clip, since) == since * rate;
    var d := Duration(clip);
    assert Frames(clip, d) == d * rate;
    AsQuotient(d, (clip.frames - 1) as real, rate);
    hide Times, Duration, Frames;
    if since >= d {
      Scale(d, since, rate);
    } else {
      Below(since, d, rate);
    }
  }

  lemma AsQuotient(d: real, x: real, rate: real)
    requires rate > 0.0 && d == x / rate && x >= 0.0
    ensures d * rate == x && d >= 0.0
  {}

  lemma Below(x: real, y: real, z: real)
    requires x < y && z > 0.0
    ensures x * z < y * z
  {}

  /** Where the clock puts a running clip. */
  lemma AdvanceExactly(cfg: Config, s: State, elapsed: real)
    requires ValidConfig(cfg) && Valid(cfg, s) && s.active.Some?
    ensures var clip, p := cfg.clips[s.active.value], Advance(cfg, s, elapsed); var end := AtEnd(clip, Since(s, elapsed));
            && (p.phase == BlendIn <==> Entering(cfg, s, elapsed))
            && (p.ended <==> Running(cfg, s, elapsed) && end && !clip.config.hold)
            && (Running(cfg, s, elapsed) ==>
                  && p.phase == (if end then if clip.config.hold then Holding else BlendOut
                       else if s.status.phase == BlendIn then Playing else s.status.phase)
                  && p.playback == if end then Duration(clip) else Since(s, elapsed))
            && (!Running(cfg, s, elapsed) ==> p.phase == s.status.phase && p.playback == 0.0 && p.shown == s.status.progress)
  {
    var clip := cfg.clips[s.active.value];
    assert ValidClip(clip, cfg.dof);
    EndExactly(clip, cfg.dof, Since(s, elapsed));
    if s.status.phase == BlendIn {
      EnteringExactly(cfg, s, elapsed);
    }
    hide EntryBlend, Duration, AtEnd, ValidClip;
  }

  /** During the blend-in the output moves from the captured pose to the first frame. */
  lemma EntryTick(cfg: Config, s: State, elapsed: real, input: seq<real>, i: nat)
    requires ValidConfig(cfg) && Valid(cfg, s) && Applicable(cfg, elapsed, input) && s.active.Some?
    requires Entering(cfg, s, elapsed) && i < |Joints(cfg, s)|
    ensures var clip, t, j := cfg.clips[s.active.value], Apply(cfg, s, elapsed, input), Joints(cfg, s)[i];
            && ValidClip(clip, cfg.dof) && j < |input|
            && t == s.(previous := t.previous) && t.previous == Output(cfg, s, elapsed, input)
            && t.previous[j] == Mix(s.source[i], Stored(clip, 0, i), SmoothStep((elapsed - s.phaseStart) / cfg.blendIn))
  {
    hide Advance, Position, SmoothStep, Mix, Output, Apply, EntryBlend;
    var clip := cfg.clips[s.active.value];
    assert ValidClip(clip, cfg.dof);
    AdvanceExactly(cfg, s, elapsed);
    ShowsFrames(clip, i, 0.0, 0);
    OutputAt(cfg, s, elapsed, input, i);
    EntryIs(cfg, s, elapsed);
  }

  lemma EntryIs(cfg: Config, s: State, elapsed: real)
    requires Entering(cfg, s, elapsed)
    ensures EntryBlend(cfg, s, elapsed) == SmoothStep((elapsed - s.phaseStart) / cfg.blendIn)
  {
    hide SmoothStep;
  }

  /** A running clip shows the frames of its time; when they are over it holds the last one, or its
      return begins from there. */
  lemma RunningTick(cfg: Config, s: State, elapsed: real, input: seq<real>, i: nat)
    requires ValidConfig(cfg) && Valid(cfg, s) && Applicable(cfg, elapsed, input) && s.active.Some?
    requires Running(cfg, s, elapsed) && i < |Joints(cfg, s)|
    ensures var clip, t, j := cfg.clips[s.active.value], Apply(cfg, s, elapsed, input), Joints(cfg, s)[i];
            && ValidClip(clip, cfg.dof) && j < |input| && t.previous == Output(cfg, s, elapsed, input)
            && (if !AtEnd(clip, Since(s, elapsed)) then
                  && t.status.phase == (if s.status.phase == BlendIn then Playing else s.status.phase)
                  && t.previous[j] == Position(clip, i, Since(s, elapsed))
                else if clip.config.hold then t.status.phase == Holding && t.previous[j] == Stored(clip, clip.frames - 1, i)
                else
                  && t.phaseStart == elapsed && |t.source| == |Joints(cfg, s)| && t.source[i] == Stored(clip, clip.frames - 1, i)
                  && t.returnDuration == ReturnDuration(cfg, t.source, Pick(input, Joints(cfg, s)))
                  && (if t.returnDuration > 0.0 then t.status.phase == BlendOut && t.previous[j] == Stored(clip, clip.frames - 1, i)
                      else t.status.phase == Finished && t.active.None? && t.previous[j] == input[j]))
  {
    var clip := cfg.clips[s.active.value];
    assert ValidClip(clip, cfg.dof);
    AdvanceExactly(cfg, s, elapsed);
    EndExactly(clip, cfg.dof, Since(s, elapsed));
    ShowsFrames(clip, i, Duration(clip), 0);
    OutputAt(cfg, s, elapsed, input, i);
    hide Advance, Position, Duration, AtEnd, ReturnBlend, Output, Apply, ValidClip;
    if AtEnd(clip, Since(s, elapsed)) && !clip.config.hold {
      var duration := Apply(cfg, s, elapsed, input).returnDuration;
      CurveAtStart(cfg, elapsed, duration);
      MixIsLine(Stored(clip, clip.frames - 1, i), input[Joints(cfg, s)[i]], ReturnBlend(cfg, elapsed, elapsed, duration));
    }
  }

  lemma CurveAtStart(cfg: Config, elapsed: real, duration: real)
    requires duration >= 0.0
    ensures ReturnBlend(cfg, elapsed, elapsed, duration) == if duration > 0.0 then 0.0 else 1.0
  {
    hide Quintic, Cubic, Fraction;
    FractionAtStart(elapsed, duration);
    QuinticUnit(0.0);
    CubicUnit(0.0);
  }

  lemma FractionAtStart(elapsed: real, duration: real)
    requires duration >= 0.0
    ensures Fraction(elapsed, elapsed, duration) == if duration > 0.0 then 0.0 else 1.0
  {}

  lemma FractionEnds(elapsed: real, start: real, duration: real)
    requires duration >= 0.0
    ensures Fraction(elapsed, start, duration) >= 1.0 <==> duration == 0.0 || elapsed - start >= duration
  {
    var x := Fraction(elapsed, start, duration);
    if duration > 0.0 {
      assert x * duration == elapsed - start;
      if x < 1.0 { Below(x, 1.0, duration); } else { Scale(1.0, x, duration); }
    }
  }

  lemma CurveEnds(cfg: Config, elapsed: real, start: real, duration: real)
    requires duration >= 0.0
    ensures ReturnBlend(cfg, elapsed, start, duration) >= 1.0 <==> duration == 0.0 || elapsed - start >= duration
  {
    hide Quintic, Cubic, Fraction;
    FractionEnds(elapsed, start, duration);
    CubicEnds(UnitClamp(Fraction(elapsed, start, duration)));
    QuinticEnds(UnitClamp(Fraction(elapsed, start, duration)));
  }

  lemma CurveIs(cfg: Config, elapsed: real, start: real, duration: real)
    requires duration != 0.0
    ensures ReturnBlend(cfg, elapsed, start, duration) ==
            if cfg.maxVelocity > 0.0 then Quintic(UnitClamp((elapsed - start) / duration))
              else SmoothStep((elapsed - start) / duration)
  {
    hide Quintic, Cubic, UnitClamp;
    CubicIdle((elapsed - start) / duration);
  }

  /** Clamping twice is clamping once. */
  lemma CubicIdle(x: real)
    ensures SmoothStep(UnitClamp(x)) == SmoothStep(x)
  {
    hide Cubic;
  }

  /** The return that a tick follows takes this long. */
  function ReturnTakes(cfg: Config, s: State, input: seq<real>): real
    requires ValidConfig(cfg) && Valid(cfg, s) && s.active.Some? && |input| == cfg.dof
  {
    if s.returnDuration < 0.0 then ReturnDuration(cfg, s.source, Pick(input, Joints(cfg, s))) else s.returnDuration
  }

  /** A return moves from its source to the input, and is over exactly when its time has passed; the
      output is then the input. */
  lemma ReturnTick(cfg: Config, s: State, elapsed: real, input: seq<real>, i: nat)
    requires ValidConfig(cfg) && Valid(cfg, s) && Applicable(cfg, elapsed, input) && s.active.Some?
    requires s.status.phase == BlendOut && i < |Joints(cfg, s)|
    ensures ValidClip(cfg.clips[s.active.value], cfg.dof)
    ensures var t, j, d := Apply(cfg, s, elapsed, input), Joints(cfg, s)[i], ReturnTakes(cfg, s, input);
            && j < |input| && t.source == s.source && t.phaseStart == s.phaseStart && t.returnDuration == d
            && (if d == 0.0 || elapsed - s.phaseStart >= d then
                  t.active.None? && t.status.phase == Finished && t.previous[j] == input[j]
                else
                  && t.active == s.active && t.status.phase == BlendOut
                  && t.previous[j] ==
                     Mix(s.source[i], input[j],
                         if cfg.maxVelocity > 0.0 then Quintic(UnitClamp((elapsed - s.phaseStart) / d))
                         else SmoothStep((elapsed - s.phaseStart) / d)))
  {
    hide Advance, ReturnBlend, Output, Apply, Mix, SmoothStep, Quintic, UnitClamp, ReturnDuration;
    var d := ReturnTakes(cfg, s, input);
    ReturnsOn(cfg, s, elapsed, input);
    OutputAt(cfg, s, elapsed, input, i);
    CurveEnds(cfg, elapsed, s.phaseStart, d);
    if d != 0.0 {
      CurveIs(cfg, elapsed, s.phaseStart, d);
    }
    ReturnBlendUnit(cfg, elapsed, s.phaseStart, d);
    MixIsLine(s.source[i], input[Joints(cfg, s)[i]], 1.0);
  }

  lemma ReturnsOn(cfg: Config, s: State, elapsed: real, input: seq<real>)
    requires ValidConfig(cfg) && Valid(cfg, s) && s.active.Some? && s.status.phase == BlendOut && |input| == cfg.dof
    ensures ValidClip(cfg.clips[s.active.value], cfg.dof)
    ensures Advance(cfg, s, elapsed) == Progress(BlendOut, 0.0, s.status.progress, false)
    ensures ReturnTakes(cfg, s, input) >= 0.0
  {
    hide EntryBlend, Duration;
    assert ValidClip(cfg.clips[s.active.value], cfg.dof);
  }

  lemma OutputAt(cfg: Config, s: State, elapsed: real, input: seq<real>, i: nat)
    requires ValidConfig(cfg) && Valid(cfg, s) && Applicable(cfg, elapsed, input) && s.active.Some? && i < |Joints(cfg, s)|
    ensures ValidClip(cfg.clips[s.active.value], cfg.dof) && Joints(cfg, s)[i] < |input|
    ensures Apply(cfg, s, elapsed, input).previous == Output(cfg, s, elapsed, input)
    ensures Output(cfg, s, elapsed, input)[Joints(cfg, s)[i]] == Play(cfg, s, elapsed, input).0[i]
    ensures var t := Apply(cfg, s, elapsed, input); t == Play(cfg, s, elapsed, input).1.(previous := t.previous)
  {
    hide Play;
    assert ValidClip(cfg.clips[s.active.value], cfg.dof);
  }

  /** The time of a return is the configured one, or what the joint with the longest way needs at the
      permitted speed. */
  lemma {:induction false} ReturnTimeExactly(cfg: Config, source: seq<real>, goal: seq<real>, n: nat)
    requires n <= |source| == |goal| && cfg.maxVelocity > 0.0
    ensures var d := ReturnTime(cfg, source, goal, n);
            && d >= cfg.blendOut
            && (forall i | 0 <= i < n :: d >= 1.875 * Abs(goal[i] - source[i]) / cfg.maxVelocity)
            && (d == cfg.blendOut || exists i :: 0 <= i < n && d == 1.875 * Abs(goal[i] - source[i]) / cfg.maxVelocity)
  {
    if n > 0 {
      ReturnTimeExactly(cfg, source, goal, n - 1);
    }
  }

  // ---------------------------------------------------------------- requests

  predicate Fresh(s: State, r: Interaction, elapsed: real) {
    elapsed >= 0.0 && r.operation != NoOperation && r.sequence > s.sequence
  }

  predicate Known(cfg: Config, name: Name) { exists c :: 0 <= c < |cfg.clips| && cfg.clips[c].config.name == name }

  /** What a request comes to: only a fresh one is heard; a start needs an idle player and a known
      clip, a cancel turns a clip that does not return yet. */
  lemma RequestHeard(cfg: Config, s: State, r: Interaction, elapsed: real)
    requires ValidConfig(cfg) && Valid(cfg, s)
    ensures var t := Request(cfg, s, r, elapsed);
            if !Fresh(s, r, elapsed) then t == s
            else
              && t.sequence == t.status.sequence == r.sequence && t.previous == s.previous
              && (r.operation == Cancel ==>
                    && t.status.accepted && t.active == s.active
                    && (s.active.None? ==> t.status.phase == Idle)
                    && (s.active.Some? ==> t.status.phase == BlendOut && t.status.action == s.status.action)
                    && (s.active.Some? && s.status.phase != BlendOut ==>
                          t.phaseStart == elapsed && t.returnDuration < 0.0 && CapturedFrom(cfg, t, s.previous))
                    && (s.status.phase == BlendOut ==> t == s.(sequence := t.sequence, status := t.status)))
              && (r.operation == Start && s.active.Some? ==>
                    t == s.(sequence := r.sequence, status := s.status.(sequence := r.sequence, accepted := false)))
              && (r.operation == Start && s.active.None? ==>
                    && (t.status.accepted <==> t.active.Some?) && (t.active.Some? <==> Known(cfg, r.action))
                    && t.status.action == r.action && t.status.phase == (if t.active.Some? then BlendIn else Rejected)
                    && (t.active.Some? ==>
                          && t.active.value < |cfg.clips| && cfg.clips[t.active.value].config.name == r.action
                          && t.phaseStart == elapsed && t.playbackStart == elapsed + cfg.blendIn
                          && CapturedFrom(cfg, t, s.previous)))
  {}

  /** The source of a blend is the last output of the clip's joints. */
  predicate CapturedFrom(cfg: Config, t: State, pose: seq<real>) {
    && t.active.Some? && t.active.value < |cfg.clips| && |t.source| == |Joints(cfg, t)|
    && forall i | 0 <= i < |t.source| :: Joints(cfg, t)[i] < |pose| && t.source[i] == pose[Joints(cfg, t)[i]]
  }

  // ---------------------------------------------------------------- a whole action

  /** Ticks with usable inputs, in the order of their times and none before `from`. */
  predicate Ticks(cfg: Config, calls: seq<Call>, from: real) {
    && (forall k | 0 <= k < |calls| ::
         calls[k].DoApply? && Applicable(cfg, calls[k].elapsed, calls[k].input) && from <= calls[k].elapsed)
    && (forall k, l | 0 <= k < l < |calls| :: calls[k].elapsed <= calls[l].elapsed)
  }

  function PhaseAt(cfg: Config, clip: Clip, passed: real): Phase {
    if passed < cfg.blendIn then BlendIn else if AtEnd(clip, passed - cfg.blendIn) then Holding else Playing
  }

  /** A clip that was started at `at` is under way; the last tick was `passed` later. */
  ghost predicate Underway(cfg: Config, s: State, clip: nat, source: seq<real>, at: real, passed: real)
    requires ValidConfig(cfg)
  {
    && Valid(cfg, s) && s.active == Some(clip) && s.source == source && s.phaseStart == at && s.playbackStart == at + cfg.blendIn
    && passed >= 0.0 && s.status.phase in {BlendIn, PhaseAt(cfg, cfg.clips[clip], passed)}
    && (s.status.phase == BlendIn && passed > 0.0 ==> passed < cfg.blendIn)
  }

  lemma LaterAtEnd(clip: Clip, dof: nat, x: real, y: real)
    requires ValidClip(clip, dof) && x <= y && AtEnd(clip, x)
    ensures AtEnd(clip, y)
  {
    hide Duration, AtEnd;
    EndExactly(clip, dof, x);
    EndExactly(clip, dof, y);
  }

  /** What the clip shows some time after its start. */
  function Showing(cfg: Config, clip: Clip, from: real, i: nat, passed: real): real
    requires clip.frames > 0 && i < |clip.config.joints| && |clip.positions| == clip.frames * |clip.config.joints|
    requires passed >= 0.0
  {
    if passed < cfg.blendIn then Mix(from, Stored(clip, 0, i), SmoothStep(passed / cfg.blendIn))
    else Position(clip, i, passed - cfg.blendIn)
  }

  lemma ActionTick(cfg: Config, s: State, clip: nat, source: seq<real>, at: real, before: real, elapsed: real,
    input: seq<real>, i: nat)
    requires ValidConfig(cfg) && Underway(cfg, s, clip, source, at, before) && Applicable(cfg, elapsed, input)
    requires elapsed - at >= before && i < |Joints(cfg, s)|
    requires cfg.clips[clip].config.hold || !AtEnd(cfg.clips[clip], elapsed - at - cfg.blendIn)
    ensures var t, j := Apply(cfg, s, elapsed, input), Joints(cfg, s)[i];
            && ValidClip(cfg.clips[clip], cfg.dof) && Valid(cfg, t) && |t.previous| == cfg.dof && j < cfg.dof
            && Underway(cfg, t, clip, source, at, elapsed - at)
            && t.status.phase == PhaseAt(cfg, cfg.clips[clip], elapsed - at)
            && t.previous[j] == Showing(cfg, cfg.clips[clip], source[i], i, elapsed - at)
  {
    hide Apply, Output, AtEnd, Position, SmoothStep, Mix;
    var c, passed := cfg.clips[clip], elapsed - at;
    assert ValidClip(c, cfg.dof);
    ApplyKeepsValid(cfg, s, elapsed, input);
    ClipStays(cfg, s, elapsed, input);
    if passed < cfg.blendIn {
      assert s.status.phase == BlendIn;
      EntryTick(cfg, s, elapsed, input, i);
    } else {
      assert Running(cfg, s, elapsed) && Since(s, elapsed) == passed - cfg.blendIn;
      RunningTick(cfg, s, elapsed, input, i);
      if s.status.phase == Holding {
        LaterAtEnd(c, cfg.dof, before - cfg.blendIn, passed - cfg.blendIn);
      }
      AtLastFrame(c, i, passed - cfg.blendIn);
    }
  }

  lemma AtLastFrame(clip: Clip, i: nat, since: real)
    requires clip.frames > 0 && i < |clip.config.joints| && |clip.positions| == clip.frames * |clip.config.joints|
    ensures AtEnd(clip, since) ==> Position(clip, i, since) == Stored(clip, clip.frames - 1, i)
  {
    hide Position;
    ShowsFrames(clip, i, since, 0);
  }

  lemma ClipStays(cfg: Config, s: State, elapsed: real, input: seq<real>)
    requires ValidConfig(cfg) && Valid(cfg, s) && s.active.Some?
    requires s.status.phase in {BlendIn, Playing, Holding}
    requires Entering(cfg, s, elapsed) || cfg.clips[s.active.value].config.hold
        || !AtEnd(cfg.clips[s.active.value], Since(s, elapsed))
    ensures var t := Apply(cfg, s, elapsed, input);
            t.active == s.active && t.source == s.source && t.phaseStart == s.phaseStart && t.playbackStart == s.playbackStart
  {
    hide Advance, AtEnd, Position, EntryBlend;
    AdvanceExactly(cfg, s, elapsed);
  }

  /** From its accepted start until it is over, an action shows what the time since its start says,
      whatever the times of the ticks and their inputs: the blend from the pose at the start, then its
      frames, then the last one held. */
  lemma {:induction false} ActionShows(cfg: Config, s: State, r: Interaction, at: real, calls: seq<Call>, n: nat, i: nat)
    requires ValidConfig(cfg) && Valid(cfg, s) && s.active.None? && Fresh(s, r, at) && r.operation == Start && Known(cfg, r.action)
    requires Ticks(cfg, calls, at) && 0 < n <= |calls|
    requires var c := Request(cfg, s, r, at).active;
             && c.Some? && c.value < |cfg.clips| && i < |cfg.clips[c.value].config.joints|
             && forall k | 0 <= k < n ::
                  cfg.clips[c.value].config.hold || !AtEnd(cfg.clips[c.value], calls[k].elapsed - at - cfg.blendIn)
    ensures var c := Request(cfg, s, r, at).active.value; var clip, passed := cfg.clips[c], calls[n - 1].elapsed - at;
            && Valid(cfg, Request(cfg, s, r, at)) && ValidClip(clip, cfg.dof) && clip.config.name == r.action
            && var t, j := After(cfg, Request(cfg, s, r, at), calls, n), clip.config.joints[i];
               && j < |t.previous| && t.active == Some(c) && t.status.phase == PhaseAt(cfg, clip, passed)
               && t.previous[j] == Showing(cfg, clip, s.previous[j], i, passed)
               && Underway(cfg, t, c, Request(cfg, s, r, at).source, at, passed)
  {
    hide Apply, AtEnd, Showing;
    RequestHeard(cfg, s, r, at);
    RequestKeepsValid(cfg, s, r, at);
    var s0 := Request(cfg, s, r, at);
    hide Request;
    var c := s0.active.value;
    assert ValidClip(cfg.clips[c], cfg.dof);
    var before := After(cfg, s0, calls, n - 1);
    assert calls[n - 1].DoApply?;
    assert cfg.clips[c].config.hold || !AtEnd(cfg.clips[c], calls[n - 1].elapsed - at - cfg.blendIn);
    if n == 1 {
      assert Underway(cfg, s0, c, s0.source, at, 0.0);
      ActionTick(cfg, s0, c, s0.source, at, 0.0, calls[0].elapsed, calls[0].input, i);
    } else {
      ActionShows(cfg, s, r, at, calls, n - 1, i);
      ActionTick(cfg, before, c, s0.source, at, calls[n - 2].elapsed - at, calls[n - 1].elapsed, calls[n - 1].input, i);
    }
  }
}
