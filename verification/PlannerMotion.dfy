/** How the planner's output becomes a reference motion: sonic_planner.cpp resamples the model's
    frames and blends them into the motion that is being tracked. Joints only. */
module PlannerMotion {
  import opened Curves
  import opened RobotBase

  const JOINTS := 29
  const ROW := 36
  const ROOT := 7
  const MAX_FRAMES := 64
  const PLANNER_FPS := 30.0
  const BLEND_FRAMES := 8.0

  datatype Frame = Frame(pos: seq<real>, vel: seq<real>)

  datatype Motion = Motion(frames: seq<Frame>, start: real)

  predicate ValidFrame(f: Frame) { |f.pos| == JOINTS && |f.vel| == JOINTS }

  predicate ValidMotion(m: Motion) { m.frames != [] && forall i | 0 <= i < |m.frames| :: ValidFrame(m.frames[i]) }

  /** Which joint of the model's row each joint takes its value from. */
  predicate ValidMapping(mapping: seq<nat>) {
    |mapping| == JOINTS && forall j | 0 <= j < JOINTS :: mapping[j] < JOINTS
  }

  // ---------------------------------------------------------------- resampling

  function OutputFrames(valid: int, fps: real): int { Times(valid as real, fps / PLANNER_FPS).Floor }

  /** Position of an output frame among the model's frames. */
  function SourcePosition(frame: nat, fps: real): real
    requires fps > 0.0
  {
    Times(frame as real, PLANNER_FPS / fps)
  }

  predicate Convertible(qpos: seq<real>, valid: int, fps: real) {
    2 <= valid <= MAX_FRAMES && |qpos| == MAX_FRAMES * ROW && OutputFrames(valid, fps) >= 2
  }

  /** Every output frame lies before the end of the valid frames. */
  lemma SourceInRange(frame: nat, valid: int, fps: real)
    requires fps > 0.0 && valid >= 2 && frame < OutputFrames(valid, fps)
    ensures 0.0 <= SourcePosition(frame, fps) < valid as real
    ensures 0 <= SourcePosition(frame, fps).Floor < valid
  {
    var up, down := fps / PLANNER_FPS, PLANNER_FPS / fps;
    Reciprocal(fps);
    Nonnegative(frame as real, down);
    Positive(up, down);
    assert frame as real < Times(valid as real, up);
    Smaller(frame as real, Times(valid as real, up), down);
    Regroup(valid as real, up, down);
  }

  lemma Reciprocal(fps: real)
    requires fps > 0.0
    ensures PLANNER_FPS / fps > 0.0 && fps / PLANNER_FPS > 0.0
    ensures Times(fps / PLANNER_FPS, PLANNER_FPS / fps) == 1.0
  {}

  lemma Smaller(x: real, y: real, z: real)
    requires x < y && z > 0.0
    ensures Times(x, z) < Times(y, z)
  {}

  lemma Regroup(x: real, up: real, down: real)
    requires Times(up, down) == 1.0
    ensures Times(Times(x, up), down) == x
  {
    assert Times(Times(x, up), down) == Times(x, Times(up, down));
  }

  function RowValue(qpos: seq<real>, row: nat, joint: nat): real
    requires |qpos| == MAX_FRAMES * ROW && row < MAX_FRAMES && joint < JOINTS
  {
    qpos[row * ROW + ROOT + joint]
  }

  /** One joint of one output frame. */
  function Resampled(qpos: seq<real>, valid: int, fps: real, frame: nat, joint: nat): real
    requires fps > 0.0 && Convertible(qpos, valid, fps) && frame < OutputFrames(valid, fps) && joint < JOINTS
  {
    SourceInRange(frame, valid, fps);
    var position := SourcePosition(frame, fps);
    var first := position.Floor;
    var second := if first + 1 <= valid - 1 then first + 1 else valid - 1;
    Mix(RowValue(qpos, first, joint), RowValue(qpos, second, joint), position - first as real)
  }

  /** No resampled joint leaves the range of the model's values for it. */
  lemma ResampledWithin(qpos: seq<real>, valid: int, fps: real, frame: nat, joint: nat, low: real, high: real)
    requires fps > 0.0 && Convertible(qpos, valid, fps) && frame < OutputFrames(valid, fps) && joint < JOINTS
    requires forall row | 0 <= row < valid :: low <= RowValue(qpos, row, joint) <= high
    ensures low <= Resampled(qpos, valid, fps, frame, joint) <= high
  {
    SourceInRange(frame, valid, fps);
    var position := SourcePosition(frame, fps);
    var first := position.Floor;
    var second := if first + 1 <= valid - 1 then first + 1 else valid - 1;
    hide SourcePosition, OutputFrames;
    assert low <= RowValue(qpos, first, joint) <= high && low <= RowValue(qpos, second, joint) <= high;
    MixWithin(RowValue(qpos, first, joint), RowValue(qpos, second, joint), position - first as real, low, high);
  }

  method ConvertFrame(qpos: seq<real>, valid: int, fps: real, mapping: seq<nat>, frame: nat) returns (pos: seq<real>)
    requires fps > 0.0 && Convertible(qpos, valid, fps) && ValidMapping(mapping) && frame < OutputFrames(valid, fps)
    ensures |pos| == JOINTS
    ensures forall j | 0 <= j < JOINTS :: pos[j] == Resampled(qpos, valid, fps, frame, mapping[j])
  {
    SourceInRange(frame, valid, fps);
    var position := SourcePosition(frame, fps);
    var source0 := position.Floor;
    var source1 := if source0 + 1 <= valid - 1 then source0 + 1 else valid - 1;
    var alpha := position - source0 as real;
    var offset0, offset1 := source0 * ROW, source1 * ROW;
    pos := [];
    for j := 0 to JOINTS
      invariant |pos| == j && forall k | 0 <= k < j :: pos[k] == Resampled(qpos, valid, fps, frame, mapping[k])
    {
      var index := ROOT + mapping[j];
      pos := pos + [Mix(qpos[offset0 + index], qpos[offset1 + index], alpha)];
    }
  }

  /** Forward difference of two poses. */
  function Velocity(a: seq<real>, b: seq<real>, fps: real): (v: seq<real>)
    requires |a| == |b|
    ensures |v| == |a| && forall j | 0 <= j < |v| :: v[j] == Times(b[j] - a[j], fps)
  {
    seq(|a|, j requires 0 <= j < |a| => Times(b[j] - a[j], fps))
  }

  /** Forward differences, with the last one repeated. */
  method Differentiate(poses: seq<seq<real>>, fps: real) returns (frames: seq<Frame>)
    requires |poses| >= 2 && forall k | 0 <= k < |poses| :: |poses[k]| == JOINTS
    ensures |frames| == |poses| && forall k | 0 <= k < |frames| :: ValidFrame(frames[k]) && frames[k].pos == poses[k]
    ensures forall k | 0 <= k < |frames| - 1 :: frames[k].vel == Velocity(poses[k], poses[k + 1], fps)
    ensures frames[|frames| - 1].vel == frames[|frames| - 2].vel
  {
    hide Velocity;
    frames := [];
    for f := 0 to |poses| - 1
      invariant |frames| == f && forall k | 0 <= k < f :: ValidFrame(frames[k]) && frames[k].pos == poses[k]
      invariant forall k | 0 <= k < f :: frames[k].vel == Velocity(poses[k], poses[k + 1], fps)
    {
      frames := frames + [Frame(poses[f], Velocity(poses[f], poses[f + 1], fps))];
    }
    frames := frames + [Frame(poses[|poses| - 1], frames[|poses| - 2].vel)];
  }

  method ResampleAll(qpos: seq<real>, valid: int, fps: real, mapping: seq<nat>) returns (poses: seq<seq<real>>)
    requires fps > 0.0 && ValidMapping(mapping) && Convertible(qpos, valid, fps)
    ensures |poses| == OutputFrames(valid, fps) && forall k | 0 <= k < |poses| :: |poses[k]| == JOINTS
    ensures forall k, j | 0 <= k < |poses| && 0 <= j < JOINTS :: poses[k][j] == Resampled(qpos, valid, fps, k, mapping[j])
  {
    hide OutputFrames, Resampled;
    poses := [];
    for f := 0 to OutputFrames(valid, fps)
      invariant |poses| == f && forall k | 0 <= k < f :: |poses[k]| == JOINTS
      invariant forall k, j | 0 <= k < f && 0 <= j < JOINTS :: poses[k][j] == Resampled(qpos, valid, fps, k, mapping[j])
    {
      var pose := ConvertFrame(qpos, valid, fps, mapping, f);
      poses := poses + [pose];
    }
  }

  /** Too few or too many frames, a wrong dimension or too short a result are errors. Positions
      are resampled, velocities are forward differences, and the last one is repeated. */
  method ConvertPlannerOutput(qpos: seq<real>, valid: int, start: real, fps: real, mapping: seq<nat>)
    returns (r: Option<Motion>)
    requires fps > 0.0 && ValidMapping(mapping)
    ensures r.Some? <==> Convertible(qpos, valid, fps)
    ensures r.Some? ==>
              var m := r.value;
              && |m.frames| == OutputFrames(valid, fps) && m.start == start && ValidMotion(m)
              && (forall f, j | 0 <= f < |m.frames| && 0 <= j < JOINTS ::
                    m.frames[f].pos[j] == Resampled(qpos, valid, fps, f, mapping[j]))
              && (forall f | 0 <= f < |m.frames| - 1 ::
                    m.frames[f].vel == Velocity(m.frames[f].pos, m.frames[f + 1].pos, fps))
              && m.frames[|m.frames| - 1].vel == m.frames[|m.frames| - 2].vel
  {
    r := None;
    if valid < 2 || valid > MAX_FRAMES || |qpos| != MAX_FRAMES * ROW {
      return;
    }
    if OutputFrames(valid, fps) < 2 {
      return;
    }
    hide OutputFrames, Resampled, Velocity;
    var poses := ResampleAll(qpos, valid, fps, mapping);
    var frames := Differentiate(poses, fps);
    r := Some(Motion(frames, start));
  }

  // ---------------------------------------------------------------- blending

  /** A motion at one time, between its two nearest frames and within its ends. */
  function SampleMotion(m: Motion, fps: real, time: real): (f: Frame)
    requires ValidMotion(m)
    ensures ValidFrame(f)
  {
    var position := Clamp(Times(time - m.start, fps), 0.0, (|m.frames| - 1) as real);
    var first := position.Floor;
    var second := if first + 1 <= |m.frames| - 1 then first + 1 else |m.frames| - 1;
    var alpha := position - first as real;
    assert ValidFrame(m.frames[first]) && ValidFrame(m.frames[second]);
    Frame(MixPose(m.frames[first].pos, m.frames[second].pos, alpha),
          MixPose(m.frames[first].vel, m.frames[second].vel, alpha))
  }

  function EndOf(m: Motion, fps: real): real
    requires fps > 0.0 && m.frames != []
  {
    m.start + (|m.frames| - 1) as real / fps
  }

  /** Share of the generated motion: it takes over within the blend window after its start. */
  function NewWeight(generated: Motion, fps: real, time: real): (w: real)
    ensures 0.0 <= w <= 1.0
  {
    UnitClamp(Times(time - generated.start, fps) / BLEND_FRAMES)
  }

  function BlendedFrame(current: Motion, generated: Motion, fps: real, time: real): (f: Frame)
    requires ValidMotion(current) && ValidMotion(generated)
    ensures ValidFrame(f)
  {
    var older, newer := SampleMotion(current, fps, time), SampleMotion(generated, fps, time);
    var w := NewWeight(generated, fps, time);
    Frame(MixPose(older.pos, newer.pos, w), MixPose(older.vel, newer.vel, w))
  }

  function BlendedCount(generated: Motion, fps: real, publish: real): int
    requires fps > 0.0 && generated.frames != []
  {
    var n := Times(EndOf(generated, fps) - publish, fps).Floor + 1;
    if n < 2 then 2 else n
  }

  function FrameTime(publish: real, fps: real, k: nat): real
    requires fps > 0.0
  {
    publish + k as real / fps
  }

  /** What is published at a time; a motion that has already ended is published as it is. */
  function Published(current: Motion, generated: Motion, publish: real, fps: real): (m: Motion)
    requires ValidMotion(current) && ValidMotion(generated) && fps > 0.0
    ensures ValidMotion(m)
  {
    if EndOf(generated, fps) < publish then generated
    else
      Motion(seq(BlendedCount(generated, fps, publish), k requires 0 <= k =>
        BlendedFrame(current, generated, fps, FrameTime(publish, fps, k))), publish)
  }

  method BlendWithCurrentMotion(current: Motion, generated: Motion, publish: real, fps: real) returns (blended: Motion)
    requires ValidMotion(current) && ValidMotion(generated) && fps > 0.0
    ensures blended == Published(current, generated, publish, fps)
  {
    hide BlendedFrame, SampleMotion;
    if EndOf(generated, fps) < publish {
      return generated;
    }
    var count := BlendedCount(generated, fps, publish);
    var frames: seq<Frame> := [];
    for k := 0 to count
      invariant |frames| == k
      invariant forall i | 0 <= i < k :: frames[i] == BlendedFrame(current, generated, fps, FrameTime(publish, fps, i))
    {
      frames := frames + [BlendedFrame(current, generated, fps, FrameTime(publish, fps, k))];
    }
    blended := Motion(frames, publish);
  }

  /** At the time of a frame a motion shows that frame. */
  lemma FrameIsShown(m: Motion, fps: real, k: nat)
    requires ValidMotion(m) && fps > 0.0 && k < |m.frames|
    ensures SampleMotion(m, fps, FrameTime(m.start, fps, k)) == m.frames[k]
  {
    Regain(k as real, fps);
    var next := if k + 1 <= |m.frames| - 1 then k + 1 else |m.frames| - 1;
    assert FrameTime(m.start, fps, k) - m.start == k as real / fps;
    assert ValidFrame(m.frames[k]) && ValidFrame(m.frames[next]);
    MixEnds(m.frames[k], m.frames[next]);
  }

  lemma Regain(x: real, fps: real)
    requires fps > 0.0
    ensures Times(x / fps, fps) == x
  {}

  /** The share of the generated motion in what is shown at the time of publication. */
  function PublishedWeight(generated: Motion, publish: real, fps: real): (w: real)
    requires fps > 0.0 && generated.frames != []
    ensures 0.0 <= w <= 1.0
  {
    if EndOf(generated, fps) < publish then 1.0 else NewWeight(generated, fps, publish)
  }

  /** What the tracker is shown at the time of publication. */
  lemma ShownAtPublication(current: Motion, generated: Motion, publish: real, fps: real)
    requires ValidMotion(current) && ValidMotion(generated) && fps > 0.0
    ensures var older, newer := SampleMotion(current, fps, publish), SampleMotion(generated, fps, publish);
            var w := PublishedWeight(generated, publish, fps);
            SampleMotion(Published(current, generated, publish, fps), fps, publish) ==
            Frame(MixPose(older.pos, newer.pos, w), MixPose(older.vel, newer.vel, w))
  {
    hide SampleMotion, NewWeight;
    var older, newer := SampleMotion(current, fps, publish), SampleMotion(generated, fps, publish);
    var m := Published(current, generated, publish, fps);
    if EndOf(generated, fps) < publish {
      MixEnds(older, newer);
    } else {
      FrameIsShown(m, fps, 0);
      assert FrameTime(publish, fps, 0) == publish;
    }
  }

  /** The share is positive exactly if publication comes after the generated motion's start. */
  lemma WeightPositive(generated: Motion, publish: real, fps: real)
    requires fps > 0.0 && generated.frames != []
    ensures PublishedWeight(generated, publish, fps) > 0.0 <==> publish > generated.start
  {
    var d := publish - generated.start;
    QuotientOrder(0.0, (|generated.frames| - 1) as real, fps);
    if d <= 0.0 {
      WindowWeights(generated, fps, publish);
    } else {
      Positive(d, fps);
      PositiveQuotient(Times(d, fps), BLEND_FRAMES);
      hide Times;
    }
  }

  lemma PositiveQuotient(x: real, d: real)
    requires x > 0.0 && d > 0.0
    ensures x / d > 0.0
  {}

  /** At publication each joint jumps by the share of the generated motion times the distance
      between the two motions there. */
  lemma JumpIsShare(current: Motion, generated: Motion, publish: real, fps: real, j: nat)
    requires ValidMotion(current) && ValidMotion(generated) && fps > 0.0 && j < JOINTS
    ensures var older, newer := SampleMotion(current, fps, publish), SampleMotion(generated, fps, publish);
            var shown := SampleMotion(Published(current, generated, publish, fps), fps, publish);
            var w := PublishedWeight(generated, publish, fps);
            && shown.pos[j] - older.pos[j] == Times(w, newer.pos[j] - older.pos[j])
            && shown.vel[j] - older.vel[j] == Times(w, newer.vel[j] - older.vel[j])
  {
    hide SampleMotion, Published, PublishedWeight;
    ShownAtPublication(current, generated, publish, fps);
  }

  /** The tracked reference goes on without a jump exactly if the motion is published no later than
      its own start, or the two motions happen to meet at that time. */
  lemma ContinuesExactly(current: Motion, generated: Motion, publish: real, fps: real)
    requires ValidMotion(current) && ValidMotion(generated) && fps > 0.0
    ensures SampleMotion(Published(current, generated, publish, fps), fps, publish) == SampleMotion(current, fps, publish) <==>
            publish <= generated.start || SampleMotion(generated, fps, publish) == SampleMotion(current, fps, publish)
  {
    hide SampleMotion, Published, PublishedWeight, Times;
    var older, newer := SampleMotion(current, fps, publish), SampleMotion(generated, fps, publish);
    ShownAtPublication(current, generated, publish, fps);
    WeightPositive(generated, publish, fps);
    MixStays(older, newer, PublishedWeight(generated, publish, fps));
  }

  lemma MixStays(a: Frame, b: Frame, w: real)
    requires ValidFrame(a) && ValidFrame(b) && 0.0 <= w
    ensures Frame(MixPose(a.pos, b.pos, w), MixPose(a.vel, b.vel, w)) == a <==> w <= 0.0 || b == a
  {
    var mixed := Frame(MixPose(a.pos, b.pos, w), MixPose(a.vel, b.vel, w));
    if w <= 0.0 {
      MixEnds(a, b);
    } else if mixed == a {
      PoseStays(a.pos, b.pos, w);
      PoseStays(a.vel, b.vel, w);
    }
  }

  lemma PoseStays(a: seq<real>, b: seq<real>, w: real)
    requires |a| == |b| && w > 0.0 && MixPose(a, b, w) == a
    ensures b == a
  {
    forall j | 0 <= j < |a|
      ensures b[j] == a[j]
    {
      assert MixPose(a, b, w)[j] == a[j];
      JointStays(a[j], b[j], w);
    }
  }

  lemma JointStays(a: real, b: real, w: real)
    requires w > 0.0 && Mix(a, b, w) == a
    ensures b == a
  {
    assert Times(w, b - a) == 0.0;
  }

  /** No generated motion makes the reference jump, exactly if the time from the snapshot to the
      publication is within the lookahead at which generated motions start. */
  lemma NeverJumpsExactly(snapshot: real, lookahead: real, publish: real, fps: real)
    requires fps > 0.0
    ensures (forall current, generated | ValidMotion(current) && ValidMotion(generated) && generated.start == snapshot + lookahead ::
               SampleMotion(Published(current, generated, publish, fps), fps, publish) == SampleMotion(current, fps, publish)) <==>
            publish - snapshot <= lookahead
  {
    hide SampleMotion, Published, ValidMotion;
    if publish - snapshot <= lookahead {
      forall current, generated | ValidMotion(current) && ValidMotion(generated) && generated.start == snapshot + lookahead
        ensures SampleMotion(Published(current, generated, publish, fps), fps, publish) == SampleMotion(current, fps, publish)
      {
        ContinuesExactly(current, generated, publish, fps);
      }
    } else {
      var current, generated := Still(0.0, snapshot), Still(1.0, snapshot + lookahead);
      StillShows(0.0, snapshot, fps, publish);
      StillShows(1.0, snapshot + lookahead, fps, publish);
      ContinuesExactly(current, generated, publish, fps);
      assert SampleMotion(current, fps, publish).pos[0] != SampleMotion(generated, fps, publish).pos[0];
    }
  }

  /** All joints at one position. */
  function Still(position: real, start: real): (m: Motion) {
    Motion([Frame(seq(JOINTS, _ => position), Zeros(JOINTS))], start)
  }

  lemma StillShows(position: real, start: real, fps: real, time: real)
    ensures ValidMotion(Still(position, start))
    ensures SampleMotion(Still(position, start), fps, time).pos[0] == position
  {}

  /** Once the blend window is over, every published frame is the generated motion's. */
  lemma BlendEnds(current: Motion, generated: Motion, publish: real, fps: real, k: nat)
    requires ValidMotion(current) && ValidMotion(generated) && fps > 0.0
    requires var m := Published(current, generated, publish, fps);
             k < |m.frames| && FrameTime(m.start, fps, k) >= generated.start + BLEND_FRAMES / fps
    ensures var m := Published(current, generated, publish, fps);
            m.frames[k] == SampleMotion(generated, fps, FrameTime(m.start, fps, k))
  {
    var m := Published(current, generated, publish, fps);
    var time := FrameTime(m.start, fps, k);
    hide SampleMotion, NewWeight;
    if EndOf(generated, fps) < publish {
      FrameIsShown(generated, fps, k);
    } else {
      WindowWeights(generated, fps, time);
      MixEnds(SampleMotion(current, fps, time), SampleMotion(generated, fps, time));
    }
  }

  lemma WindowWeights(generated: Motion, fps: real, time: real)
    requires fps > 0.0
    ensures time <= generated.start ==> NewWeight(generated, fps, time) == 0.0
    ensures time >= generated.start + BLEND_FRAMES / fps ==> NewWeight(generated, fps, time) == 1.0
  {
    var d := time - generated.start;
    if d <= 0.0 {
      Scale(d, 0.0, fps);
    } else if d >= BLEND_FRAMES / fps {
      Scale(BLEND_FRAMES / fps, d, fps);
      assert Times(BLEND_FRAMES / fps, fps) == BLEND_FRAMES;
    }
  }

  lemma MixEnds(a: Frame, b: Frame)
    requires ValidFrame(a) && ValidFrame(b)
    ensures Frame(MixPose(a.pos, b.pos, 0.0), MixPose(a.vel, b.vel, 0.0)) == a
    ensures Frame(MixPose(a.pos, b.pos, 1.0), MixPose(a.vel, b.vel, 1.0)) == b
  {}

  /** In between every joint lies between the two motions. */
  lemma BlendBetween(current: Motion, generated: Motion, fps: real, time: real, j: nat)
    requires ValidMotion(current) && ValidMotion(generated) && j < JOINTS
    ensures var x, y := SampleMotion(current, fps, time).pos[j], SampleMotion(generated, fps, time).pos[j];
            Min(x, y) <= BlendedFrame(current, generated, fps, time).pos[j] <= Max(x, y)
  {
    var x, y := SampleMotion(current, fps, time).pos[j], SampleMotion(generated, fps, time).pos[j];
    var w := NewWeight(generated, fps, time);
    hide SampleMotion, NewWeight;
    MixWithin(x, y, w, Min(x, y), Max(x, y));
  }

  /** The blended frames reach to the generated motion's end, and not past it unless two frames
      are forced. */
  lemma BlendCovers(generated: Motion, fps: real, publish: real)
    requires fps > 0.0 && generated.frames != [] && EndOf(generated, fps) >= publish
    ensures var last := FrameTime(publish, fps, BlendedCount(generated, fps, publish) - 1);
            && EndOf(generated, fps) - 1.0 / fps < last
            && (last <= EndOf(generated, fps) || (BlendedCount(generated, fps, publish) == 2 && last == publish + 1.0 / fps))
  {
    var span := EndOf(generated, fps) - publish;
    Nonnegative(span, fps);
    var n := Times(span, fps).Floor;
    SpanOf(span, fps, n);
    hide EndOf, Times;
  }

  lemma SpanOf(span: real, fps: real, n: int)
    requires fps > 0.0 && n as real <= Times(span, fps) < n as real + 1.0
    ensures n as real / fps <= span < n as real / fps + 1.0 / fps
  {
    QuotientOrder(n as real, Times(span, fps), fps);
    assert Times(span, fps) / fps == span;
    assert (n as real + 1.0) / fps == n as real / fps + 1.0 / fps;
    StrictQuotient(Times(span, fps), n as real + 1.0, fps);
  }

  lemma StrictQuotient(x: real, y: real, d: real)
    requires x < y && d > 0.0
    ensures x / d < y / d
  {}
}
