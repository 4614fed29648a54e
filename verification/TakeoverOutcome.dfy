/** What a request, a measured entry and one composed action of the takeover come to, in joint
    positions and in the times since the phases began. */
module TakeoverOutcome {
  import opened Curves
  import opened RobotBase
  import opened Takeover
  import P = Player
  import F = PlayerOutcome
  import R = TakeoverRuns

  // ---------------------------------------------------------------- units

  /** A value of the action in the joint's unit. */
  function InPosition(b: Binding, value: real): real { b.centre + b.scale * value }

  /** Normalizing a position can be undone. */
  lemma NormalizedExactly(b: Binding, position: real, value: real)
    requires b.scale != 0.0
    ensures ToNormalized(b, position) == value <==> InPosition(b, value) == position
  {}

  /** Blending in the action's unit is blending positions. */
  lemma BlendsPositions(b: Binding, x: real, y: real, weight: real)
    ensures InPosition(b, Mix(x, y, weight)) == Mix(InPosition(b, x), InPosition(b, y), weight)
  {
    var s, c := b.scale, b.centre;
    assert s * Mix(x, y, weight) == (1.0 - weight) * (s * x) + weight * (s * y);
  }

  // ---------------------------------------------------------------- phases

  predicate Entering(s: State) {
    s.status.phase == BlendIn && s.entryDuration > 0.0 && s.last - s.phaseStart < s.entryDuration
  }

  predicate Running(s: State) { s.status.phase in {Playing, Holding} || (s.status.phase == BlendIn && !Entering(s)) }

  lemma FractionEnds(cfg: Config, x: real)
    ensures BlendFraction(cfg, x) >= 1.0 <==> x >= 1.0
  {
    hide Cubic;
    F.CubicEnds(UnitClamp(x));
  }

  /** The share of a blend whose time has partly passed. */
  lemma ShareIs(cfg: Config, passed: real, duration: real)
    requires 0.0 <= passed <= duration && duration > 0.0
    ensures var x := passed / duration; BlendFraction(cfg, x) == if cfg.linear then x else 3.0 * x * x - 2.0 * x * x * x
  {
    var x := passed / duration;
    assert x * duration == passed;
    assert 0.0 <= x <= 1.0;
    F.CubicIs(x);
  }

  lemma ShareEnds(cfg: Config, passed: real, duration: real)
    requires duration > 0.0
    ensures BlendFraction(cfg, passed / duration) >= 1.0 <==> passed >= duration
  {
    hide BlendFraction;
    var x := passed / duration;
    assert x * duration == passed;
    FractionEnds(cfg, x);
    if x < 1.0 { F.Below(x, 1.0, duration); } else { Scale(1.0, x, duration); }
  }

  lemma RunsExactly(cfg: Config, s: State)
    ensures Runs(cfg, s) <==> Running(s)
    ensures Entering(s) ==> EntryBlend(cfg, s) == BlendFraction(cfg, (s.last - s.phaseStart) / s.entryDuration)
  {
    hide BlendFraction;
    if s.status.phase == BlendIn && s.entryDuration > 0.0 {
      ShareEnds(cfg, s.last - s.phaseStart, s.entryDuration);
    }
  }

  /** A clip at its end may still be held. */
  predicate StillHeld(c: ActionClip, s: State) {
    c.clip.config.hold && (c.maxHold <= 0.0 || !F.AtEnd(c.clip, s.last - s.playbackStart - c.maxHold))
  }

  /** Time since playback began. */
  function Since(s: State): real { if s.last >= s.playbackStart then s.last - s.playbackStart else 0.0 }

  predicate AtEnd(c: ActionClip, s: State) { F.AtEnd(c.clip, Since(s)) }

  lemma PhaseExactly(cfg: Config, s: State)
    requires ValidConfig(cfg) && Valid(cfg, s) && s.active.Some?
    ensures var c := Clip(cfg, s);
            && ValidClip(c, cfg.dim)
            && PhaseNow(cfg, s) == (if Running(s) && AtEnd(c, s) then if StillHeld(c, s) then Holding else BlendOut
                                    else if Running(s) && s.status.phase == BlendIn then Playing else s.status.phase)
            && (EndsNow(cfg, s) <==> Running(s) && AtEnd(c, s) && !StillHeld(c, s))
            && PlaybackNow(cfg, s) == (if !Running(s) then 0.0 else if AtEnd(c, s) then P.Duration(c.clip) else Since(s))
  {
    hide EntryBlend, P.Duration, F.AtEnd;
    var c := Clip(cfg, s);
    assert ValidClip(c, cfg.dim);
    RunsExactly(cfg, s);
    ClipEnds(c, cfg.dim, Since(s));
    ClipEnds(c, cfg.dim, s.last - s.playbackStart - c.maxHold);
    EntryRuns(cfg, s);
  }

  lemma EntryRuns(cfg: Config, s: State)
    ensures s.status.phase == BlendIn ==> (Running(s) <==> EntryBlend(cfg, s) >= 1.0)
  {
    RunsExactly(cfg, s);
    hide EntryBlend;
  }

  lemma ClipEnds(c: ActionClip, dim: nat, since: real)
    requires ValidClip(c, dim)
    ensures since >= P.Duration(c.clip) <==> F.AtEnd(c.clip, since)
    ensures F.AtEnd(c.clip, P.Duration(c.clip)) && P.Duration(c.clip) >= 0.0
  {
    hide P.Duration, F.AtEnd;
    var dof := Above(c.clip.config.joints);
    assert P.ValidClip(c.clip, dof);
    F.EndExactly(c.clip, dof, since);
  }

  /** A number above all entries. */
  function Above(joints: seq<nat>): (n: nat)
    ensures forall i | 0 <= i < |joints| :: joints[i] < n
  {
    if joints == [] then 0
    else
      var last, rest := joints[|joints| - 1], Above(joints[..|joints| - 1]);
      if last < rest then rest else last + 1
  }

  // ---------------------------------------------------------------- one action

  /** An action of the right size while a clip is active. */
  ghost predicate Composes(cfg: Config, s: State, action: seq<real>) {
    ValidConfig(cfg) && Valid(cfg, s) && s.active.Some? && |action| == cfg.dim
  }

  lemma AppliedAt(cfg: Config, s: State, action: seq<real>, i: nat)
    requires Composes(cfg, s, action) && i < |Clip(cfg, s).bindings|
    ensures ValidClip(Clip(cfg, s), cfg.dim)
    ensures OnAction(cfg, s, action).previous == Applied(cfg, s, action)
    ensures Applied(cfg, s, action)[Clip(cfg, s).bindings[i].action] == Compose(cfg, s, action).0[i]
    ensures var t := OnAction(cfg, s, action); t == Compose(cfg, s, action).1.(previous := t.previous)
  {
    hide Compose;
    var c := Clip(cfg, s);
    assert ValidClip(c, cfg.dim);
    assert Actions(c)[i] == c.bindings[i].action;
  }

  lemma TargetAt(c: ActionClip, elapsed: real, dim: nat, i: nat)
    requires ValidClip(c, dim) && i < |c.bindings|
    ensures InPosition(c.bindings[i], Target(c, elapsed, dim)[i]) == P.Position(c.clip, i, elapsed)
  {
    hide P.Position, ToNormalized;
    NormalizedExactly(c.bindings[i], P.Position(c.clip, i, elapsed), Target(c, elapsed, dim)[i]);
  }

  /** During the blend-in the joint moves from the captured action to the first frame. */
  lemma EntryAction(cfg: Config, s: State, action: seq<real>, i: nat)
    requires Composes(cfg, s, action) && Entering(s) && i < |Clip(cfg, s).bindings|
    ensures var c, t := Clip(cfg, s), OnAction(cfg, s, action); var b := c.bindings[i];
            var share := BlendFraction(cfg, (s.last - s.phaseStart) / s.entryDuration);
            && ValidClip(c, cfg.dim) && |t.previous| == cfg.dim && |t.source| == |c.bindings|
            && t.active == s.active && t.status == s.status && t.gain == (if cfg.measuredVelocity > 0.0 then 1.0 else share)
            && t.source[i] == (if s.source == [] then s.previous[b.action] else s.source[i])
            && InPosition(b, t.previous[b.action]) == Mix(InPosition(b, t.source[i]), F.Stored(c.clip, 0, i), share)
  {
    hide EntryBlend, BlendFraction, P.Position, Applied, OnAction, Mix, PhaseNow, PlaybackNow, EndsNow, InPosition,
      Target, ProgressNow;
    var c := Clip(cfg, s);
    AppliedAt(cfg, s, action, i);
    PhaseExactly(cfg, s);
    RunsExactly(cfg, s);
    KeepsProgress(cfg, s);
    F.ShowsFrames(c.clip, i, 0.0, 0);
    TargetAt(c, 0.0, cfg.dim, i);
    BlendsPositions(c.bindings[i], OnAction(cfg, s, action).source[i], Target(c, 0.0, cfg.dim)[i], EntryBlend(cfg, s));
  }

  lemma KeepsProgress(cfg: Config, s: State)
    requires ValidConfig(cfg) && Valid(cfg, s) && s.active.Some?
    ensures !Running(s) ==> ProgressNow(cfg, s) == s.status.progress
  {
    hide P.Duration;
    RunsExactly(cfg, s);
  }

  /** A running clip applies the frames of its time; when they are over it holds the last one, or
      returns from it to the policy's action. */
  lemma RunningAction(cfg: Config, s: State, action: seq<real>, i: nat)
    requires Composes(cfg, s, action) && Running(s) && i < |Clip(cfg, s).bindings|
    ensures var c, t := Clip(cfg, s), OnAction(cfg, s, action); var b := c.bindings[i];
            && ValidClip(c, cfg.dim) && |t.previous| == cfg.dim
            && (if !AtEnd(c, s) then
                  && t.status.phase == (if s.status.phase == BlendIn then Playing else s.status.phase) && t.active == s.active
                  && t.gain == 1.0 && InPosition(b, t.previous[b.action]) == P.Position(c.clip, i, Since(s))
                else if StillHeld(c, s) then
                  && t.status.phase == Holding && t.active == s.active && t.gain == 1.0
                  && InPosition(b, t.previous[b.action]) == F.Stored(c.clip, c.clip.frames - 1, i)
                else if cfg.blendOut > 0.0 then
                  && t.status.phase == BlendOut && t.active == s.active && t.gain == 1.0
                  && t.phaseStart == s.last && t.sourceWeight == 1.0 && |t.source| == |c.bindings|
                  && InPosition(b, t.source[i]) == InPosition(b, t.previous[b.action]) == F.Stored(c.clip, c.clip.frames - 1, i)
                else t.status.phase == Finished && t.active.None? && t.gain == 0.0 && t.previous[b.action] == action[b.action])
  {
    hide P.Duration, BlendFraction, P.Position, Applied, OnAction, Mix, PhaseNow, PlaybackNow, EndsNow, InPosition,
      Target, ProgressNow, F.AtEnd, EntryBlend;
    var c := Clip(cfg, s);
    AppliedAt(cfg, s, action, i);
    PhaseExactly(cfg, s);
    LastFrame(c, cfg.dim, i);
    TargetAt(c, PlaybackNow(cfg, s), cfg.dim, i);
    if EndsNow(cfg, s) {
      EndAction(cfg, s, action, i);
    }
  }

  lemma LastFrame(c: ActionClip, dim: nat, i: nat)
    requires ValidClip(c, dim) && i < |c.bindings|
    ensures P.Position(c.clip, i, P.Duration(c.clip)) == F.Stored(c.clip, c.clip.frames - 1, i)
  {
    hide P.Duration, P.Position;
    ClipEnds(c, dim, 0.0);
    F.ShowsFrames(c.clip, i, P.Duration(c.clip), 0);
  }

  /** The action in which a clip ends. */
  lemma EndAction(cfg: Config, s: State, action: seq<real>, i: nat)
    requires Composes(cfg, s, action) && EndsNow(cfg, s) && i < |Clip(cfg, s).bindings|
    ensures var c, t := Clip(cfg, s), Compose(cfg, s, action); var from := Target(c, PlaybackNow(cfg, s), cfg.dim);
            if cfg.blendOut > 0.0 then t.0[i] == from[i] && t.1.source == from && t.1.gain == 1.0
              && t.1.active == s.active && t.1.status.phase == BlendOut
            else t.0[i] == action[c.bindings[i].action] && t.1.gain == 0.0 && t.1.active.None? && t.1.status.phase == Finished
  {
    hide ReturnBlend, Mix, PlaybackNow, Target, ProgressNow, Times, EntryBlend, ReachesEnd, Holds;
    var turned := Turned(cfg, s);
    assert turned.sourceWeight == 1.0 && turned.phaseStart == turned.last;
    FreshReturn(cfg, turned);
    F.MixIsLine(turned.source[i], action[Clip(cfg, s).bindings[i].action], 0.0);
    assert PhaseNow(cfg, s) == BlendOut;
  }

  /** A return moves from its source to the policy's action, and is over exactly when its time has
      passed; the action is then the policy's. */
  lemma ReturnAction(cfg: Config, s: State, action: seq<real>, i: nat)
    requires Composes(cfg, s, action) && s.status.phase == BlendOut && i < |Clip(cfg, s).bindings|
    ensures var c, t := Clip(cfg, s), OnAction(cfg, s, action); var j := c.bindings[i].action;
            && ValidClip(c, cfg.dim) && |t.previous| == cfg.dim
            && (if cfg.blendOut <= 0.0 || s.last - s.phaseStart >= cfg.blendOut then
                  t.active.None? && t.status.phase == Finished && t.gain == 0.0 && t.previous[j] == action[j]
                else
                  var share := BlendFraction(cfg, (s.last - s.phaseStart) / cfg.blendOut);
                  && t.active == s.active && t.status.phase == BlendOut && t.source == s.source
                  && t.gain == s.sourceWeight * (1.0 - share) && t.previous[j] == Mix(s.source[i], action[j], share))
  {
    hide BlendFraction, P.Position, P.Duration, Applied, OnAction, Mix, PlaybackNow, Target, ProgressNow, EntryBlend;
    AppliedAt(cfg, s, action, i);
    PhaseExactly(cfg, s);
    var j := Clip(cfg, s).bindings[i].action;
    ReturnBlendUnit(cfg, s);
    F.MixIsLine(s.source[i], action[j], 1.0);
    if cfg.blendOut > 0.0 {
      ShareEnds(cfg, s.last - s.phaseStart, cfg.blendOut);
    }
  }

  // ---------------------------------------------------------------- a measured entry

  /** The longest of these ways, at the permitted speed. */
  lemma {:induction false} EntryTimeExactly(c: ActionClip, positions: seq<real>, velocity: real, dim: nat, n: nat)
    requires ValidClip(c, dim) && Covers(c, positions) && velocity > 0.0 && n <= |c.bindings|
    ensures var d := EntryTime(c, positions, velocity, dim, n);
            && (forall i | 0 <= i < n :: d >= Abs(F.Stored(c.clip, 0, i) - positions[c.bindings[i].joint]) / velocity)
            && (d == 0.0 || exists i :: 0 <= i < n && d == Abs(F.Stored(c.clip, 0, i) - positions[c.bindings[i].joint]) / velocity)
  {
    hide P.Position;
    if n > 0 {
      EntryTimeExactly(c, positions, velocity, dim, n - 1);
      F.ShowsFrames(c.clip, n - 1, 0.0, 0);
    }
  }

  /** A measured entry starts from the measured positions, and takes as long as the joint with the
      longest way needs at the permitted speed; playback begins when it is over. */
  lemma EntryMeasured(cfg: Config, s: State, elapsed: real, positions: seq<real>)
    requires ValidConfig(cfg) && Valid(cfg, s) && Measures(cfg, s) && Covers(Clip(cfg, s), positions)
    ensures var c, t := Clip(cfg, s), PrepareInputs(cfg, s, elapsed, positions); var v := cfg.measuredVelocity;
            && ValidClip(c, cfg.dim) && |t.source| == |c.bindings| && t.last == elapsed && t.status == s.status
            && (forall i | 0 <= i < |c.bindings| :: InPosition(c.bindings[i], t.source[i]) == positions[c.bindings[i].joint])
            && (forall i | 0 <= i < |c.bindings| ::
                 t.entryDuration >= Abs(F.Stored(c.clip, 0, i) - positions[c.bindings[i].joint]) / v)
            && (t.entryDuration == 0.0 ||
                exists i :: 0 <= i < |c.bindings|
                  && t.entryDuration == Abs(F.Stored(c.clip, 0, i) - positions[c.bindings[i].joint]) / v)
            && t.playbackStart == s.phaseStart + t.entryDuration
  {
    hide EntryTime, ToNormalized, InPosition;
    var c, t := Clip(cfg, s), PrepareInputs(cfg, s, elapsed, positions);
    assert ValidClip(c, cfg.dim);
    EntryTimeExactly(c, positions, cfg.measuredVelocity, cfg.dim, |c.bindings|);
    forall i | 0 <= i < |c.bindings| ensures InPosition(c.bindings[i], t.source[i]) == positions[c.bindings[i].joint] {
      NormalizedExactly(c.bindings[i], positions[c.bindings[i].joint], t.source[i]);
    }
  }

  // ---------------------------------------------------------------- requests

  predicate Fresh(s: State, r: Interaction) { r.operation != NoOperation && r.sequence > s.sequence }

  predicate Known(cfg: Config, name: Name) { exists c :: 0 <= c < |cfg.clips| && cfg.clips[c].clip.config.name == name }

  /** The source of a blend is what was applied to the clip's actions last. */
  predicate CapturedFrom(cfg: Config, t: State, applied: seq<real>) {
    && t.active.Some? && t.active.value < |cfg.clips| && |t.source| == |Clip(cfg, t).bindings|
    && forall i | 0 <= i < |t.source| ::
         Clip(cfg, t).bindings[i].action < |applied| && t.source[i] == applied[Clip(cfg, t).bindings[i].action]
  }

  /** A cancel of any phase starts a return at the present gain; without an active clip it only ends
      what is shown. */
  lemma CancelHeard(cfg: Config, s: State, r: Interaction, elapsed: real)
    requires ValidConfig(cfg) && Valid(cfg, s) && Fresh(s, r) && r.operation == Cancel
    ensures var t := HandleInteractionRequest(cfg, s, r, elapsed);
            && t.sequence == t.status.sequence == r.sequence && t.status.accepted && t.active == s.active
            && t.previous == s.previous
            && t.gain == s.gain
            && (if s.active.None? then t.status.phase == Idle && t.status.action == ""
                else
                  && t.status.phase == BlendOut && t.status.action == s.status.action && t.phaseStart == elapsed
                  && t.sourceWeight == s.gain && CapturedFrom(cfg, t, s.previous))
  {
    if s.active.Some? {
      assert ValidClip(Clip(cfg, s), cfg.dim);
    }
  }

  /** A start needs a known clip and no active one; it then captures its source with the first action. */
  lemma StartHeard(cfg: Config, s: State, r: Interaction, elapsed: real)
    requires ValidConfig(cfg) && Valid(cfg, s) && Fresh(s, r) && r.operation == Start
    ensures var t := HandleInteractionRequest(cfg, s, r, elapsed);
            && t.sequence == t.status.sequence == r.sequence && t.previous == s.previous
            && (t.status.accepted <==> s.active.None? && Known(cfg, r.action))
            && (s.active.Some? ==> t == s.(sequence := r.sequence, status := s.status.(sequence := r.sequence, accepted := false)))
            && (s.active.None? ==>
                  t.status.action == r.action && t.status.phase == if Known(cfg, r.action) then BlendIn else Rejected)
            && (t.status.accepted ==>
                  && t.active.Some? && t.active.value < |cfg.clips| && cfg.clips[t.active.value].clip.config.name == r.action
                  && t.gain == 0.0 && t.source == [] && t.phaseStart == elapsed
                  && t.entryDuration == cfg.blendIn && t.playbackStart == elapsed + cfg.blendIn)
  {}

  // ---------------------------------------------------------------- a whole action

  function PhaseAt(c: ActionClip, entry: real, passed: real): Phase {
    if passed < entry then BlendIn else if F.AtEnd(c.clip, passed - entry) then Holding else Playing
  }

  /** An action that was started at `at`, with this source and this entry time, is under way; the last
      inference was `passed` later. */
  ghost predicate Underway(cfg: Config, s: State, clip: nat, source: seq<real>, entry: real, at: real, passed: real)
    requires ValidConfig(cfg)
  {
    && Valid(cfg, s) && s.active == Some(clip) && s.source == source != [] && s.phaseStart == at && s.entryDuration == entry
    && s.playbackStart == at + entry && s.last == at + passed && passed >= 0.0 && entry >= 0.0
    && s.status.phase == PhaseAt(cfg.clips[clip], entry, passed)
  }

  /** The action is not over: the clip runs, or its last frame is still held. */
  predicate Ongoing(c: ActionClip, entry: real, passed: real) {
    passed < entry || !F.AtEnd(c.clip, passed - entry)
    || (c.clip.config.hold && (c.maxHold <= 0.0 || !F.AtEnd(c.clip, passed - entry - c.maxHold)))
  }

  /** What the joint of an action shows some time after its start. */
  function Showing(cfg: Config, c: ActionClip, from: real, i: nat, entry: real, passed: real): real
    requires ValidClip(c, cfg.dim) && i < |c.bindings| && passed >= 0.0
  {
    if passed < entry then Mix(from, F.Stored(c.clip, 0, i), BlendFraction(cfg, passed / entry))
      else P.Position(c.clip, i, passed - entry)
  }

  lemma Shows(cfg: Config, s: State, action: seq<real>, clip: nat, source: seq<real>, entry: real, at: real, passed: real, i: nat)
    requires Composes(cfg, s, action) && s.active == Some(clip) && i < |Clip(cfg, s).bindings|
    requires s.phaseStart == at && s.entryDuration == entry && s.playbackStart == at + entry && s.last == at + passed
    requires passed >= 0.0 && entry >= 0.0 && |source| == |Clip(cfg, s).bindings|
    requires source == Captured(cfg, s)
    requires s.status.phase == BlendIn || (passed >= entry && s.status.phase in {Playing, Holding})
    requires s.status.phase == Holding ==> F.AtEnd(Clip(cfg, s).clip, passed - entry)
    requires Ongoing(Clip(cfg, s), entry, passed)
    ensures var c, t := Clip(cfg, s), OnAction(cfg, s, action); var b := c.bindings[i];
            && ValidClip(c, cfg.dim) && |t.previous| == cfg.dim
            && InPosition(b, t.previous[b.action]) == Showing(cfg, c, InPosition(b, source[i]), i, entry, passed)
            && t.status.phase == PhaseAt(c, entry, passed)
  {
    hide OnAction, F.AtEnd, P.Position, BlendFraction, Mix, InPosition, P.Duration;
    var c := Clip(cfg, s);
    assert ValidClip(c, cfg.dim);
    if passed < entry {
      EntryAction(cfg, s, action, i);
    } else {
      RunningAction(cfg, s, action, i);
      AtLastFrame(c, cfg.dim, i, passed - entry);
    }
  }

  lemma AtLastFrame(c: ActionClip, dim: nat, i: nat, since: real)
    requires ValidClip(c, dim) && i < |c.bindings|
    ensures F.AtEnd(c.clip, since) ==> P.Position(c.clip, i, since) == F.Stored(c.clip, c.clip.frames - 1, i)
  {
    hide P.Position;
    F.ShowsFrames(c.clip, i, since, 0);
  }

  /** The clip stays, and with it what the action began with. */
  lemma Remains(cfg: Config, s: State, action: seq<real>)
    requires Composes(cfg, s, action) && s.status.phase in {BlendIn, Playing, Holding} && s.entryDuration >= 0.0
    requires Entering(s) || !AtEnd(Clip(cfg, s), s) || StillHeld(Clip(cfg, s), s)
    ensures var t := OnAction(cfg, s, action);
            && t.active == s.active && t.source == Captured(cfg, s) && t.phaseStart == s.phaseStart
            && t.entryDuration == s.entryDuration
            && t.playbackStart == s.playbackStart && t.last == s.last && t.sequence == s.sequence
  {
    hide PhaseNow, EndsNow, P.Duration, F.AtEnd, P.Position, BlendFraction, Mix, Applied, ProgressNow, PlaybackNow, Captured;
    PhaseExactly(cfg, s);
  }

  /** The state before the first action of an inference that begins this clip. */
  ghost predicate Begun(cfg: Config, s: State, t: State, inf: R.Inference)
    requires ValidConfig(cfg) && Valid(cfg, s)
  {
    && Valid(cfg, t) && t.active.Some? && Clip(cfg, t).clip.config.name == inf.request.action
    && t.status.phase == BlendIn && t.previous == s.previous && t.sequence == inf.request.sequence
    && t.phaseStart == t.last == inf.at && t.playbackStart == inf.at + t.entryDuration && t.entryDuration >= 0.0
    && BeginsFrom(cfg, t, s.previous, inf.positions)
  }

  /** A measured entry begins from the measured positions, any other from the last action. */
  predicate BeginsFrom(cfg: Config, t: State, previous: seq<real>, positions: seq<real>)
    requires ValidConfig(cfg) && Valid(cfg, t) && t.active.Some? && |previous| == cfg.dim
  {
    var c := Clip(cfg, t);
    assert ValidClip(c, cfg.dim);
    && (if cfg.measuredVelocity > 0.0 then
          Covers(c, positions) && forall i | 0 <= i < |c.bindings| ::
            InPosition(c.bindings[i], Captured(cfg, t)[i]) == positions[c.bindings[i].joint]
        else
          t.entryDuration == cfg.blendIn && forall i | 0 <= i < |c.bindings| ::
            Captured(cfg, t)[i] == previous[c.bindings[i].action])
  }

  predicate BeginsClip(cfg: Config, s: State, inf: R.Inference) {
    && !inf.switching && Fresh(s, inf.request) && inf.request.operation == Start && Known(cfg, inf.request.action)
    && (forall c | 0 <= c < |cfg.clips| :: cfg.measuredVelocity > 0.0 ==> Covers(cfg.clips[c], inf.positions))
  }

  lemma FirstPrepared(cfg: Config, s: State, inf: R.Inference)
    requires ValidConfig(cfg) && Valid(cfg, s) && s.active.None? && BeginsClip(cfg, s, inf)
    ensures Begun(cfg, s, R.Prepared(cfg, s, inf), inf)
  {
    hide InPosition, ToNormalized, EntryTime;
    var h := HandleInteractionRequest(cfg, s, inf.request, inf.at);
    HandleKeepsValid(cfg, s, inf.request, inf.at);
    StartHeard(cfg, s, inf.request, inf.at);
    hide HandleInteractionRequest;
    assert R.Heard(cfg, s, inf) == h;
    assert ValidClip(Clip(cfg, h), cfg.dim);
    PrepareKeepsValid(cfg, h, false, inf.at, inf.positions);
    if cfg.measuredVelocity > 0.0 {
      EntryMeasured(cfg, h, inf.at, inf.positions);
    }
  }

  /** Inferences that neither switch nor ask for anything new, of one clock. */
  predicate Quiet(cfg: Config, run: seq<R.Inference>, from: nat, sequence: nat) {
    && (forall k | 0 <= k < |run| :: run[k].action.Some? && |run[k].action.value| == cfg.dim)
    && (forall k | from <= k < |run| ::
         !run[k].switching && (run[k].request.operation == NoOperation || run[k].request.sequence <= sequence))
    && (forall k, l | 0 <= k < l < |run| :: run[k].at <= run[l].at)
  }

  lemma QuietPrepared(cfg: Config, s: State, inf: R.Inference)
    requires ValidConfig(cfg) && Valid(cfg, s) && s.active.Some? && s.source != [] && !inf.switching && !Fresh(s, inf.request)
    ensures R.Prepared(cfg, s, inf) == s.(last := inf.at)
  {}

  lemma LaterAtEnd(c: ActionClip, dim: nat, x: real, y: real)
    requires ValidClip(c, dim) && x <= y && F.AtEnd(c.clip, x)
    ensures F.AtEnd(c.clip, y)
  {
    hide P.Duration, F.AtEnd;
    ClipEnds(c, dim, x);
    ClipEnds(c, dim, y);
  }

  /** One action of an action that goes on. */
  lemma GoesOn(cfg: Config, s: State, action: seq<real>, clip: nat, source: seq<real>, entry: real, at: real, passed: real, i: nat)
    requires Composes(cfg, s, action) && s.active == Some(clip) && i < |Clip(cfg, s).bindings|
    requires s.phaseStart == at && s.entryDuration == entry && s.playbackStart == at + entry && s.last == at + passed
    requires passed >= 0.0 && entry >= 0.0 && source == Captured(cfg, s) != []
    requires s.status.phase == BlendIn || (passed >= entry && s.status.phase in {Playing, Holding})
    requires s.status.phase == Holding ==> F.AtEnd(Clip(cfg, s).clip, passed - entry)
    requires Ongoing(Clip(cfg, s), entry, passed)
    ensures var c, t := Clip(cfg, s), OnAction(cfg, s, action); var b := c.bindings[i];
            && ValidClip(c, cfg.dim) && |t.previous| == cfg.dim && Underway(cfg, t, clip, source, entry, at, passed)
            && t.sequence == s.sequence
            && InPosition(b, t.previous[b.action]) == Showing(cfg, c, InPosition(b, source[i]), i, entry, passed)
  {
    hide OnAction, F.AtEnd, Showing, InPosition, P.Duration, Captured;
    ComposeKeepsValid(cfg, s, action);
    Shows(cfg, s, action, clip, source, entry, at, passed, i);
    Remains(cfg, s, action);
  }

  /** From its accepted start until it is over an action shows, in joint positions, what the time since
      its start says, whatever the policy's actions are meanwhile: the blend from the measured or the
      last applied pose, then its frames, then the last one held. */
  lemma {:induction false} ActionShows(cfg: Config, s: State, run: seq<R.Inference>, n: nat, i: nat)
    requires ValidConfig(cfg) && Valid(cfg, s) && s.active.None? && 0 < n <= |run|
    requires BeginsClip(cfg, s, run[0]) && Quiet(cfg, run, 1, run[0].request.sequence)
    requires var p := R.Prepared(cfg, s, run[0]);
             && Begun(cfg, s, p, run[0]) && i < |Clip(cfg, p).bindings|
             && forall k | 0 <= k < n :: Ongoing(Clip(cfg, p), p.entryDuration, run[k].at - run[0].at)
    ensures var p, t := R.Prepared(cfg, s, run[0]), R.AfterRun(cfg, s, run, n);
            var c, source, passed := Clip(cfg, p), Captured(cfg, p), run[n - 1].at - run[0].at; var b := c.bindings[i];
            && ValidClip(c, cfg.dim) && t.sequence == run[0].request.sequence && passed >= 0.0
            && Underway(cfg, t, p.active.value, source, p.entryDuration, run[0].at, passed)
            && InPosition(b, t.previous[b.action]) == Showing(cfg, c, InPosition(b, source[i]), i, p.entryDuration, passed)
  {
    hide OnAction, F.AtEnd, Showing, InPosition, Captured, BeginsClip, BeginsFrom, R.Prepared, Ongoing;
    var p, last := R.Prepared(cfg, s, run[0]), run[n - 1];
    var c, source, entry, passed := Clip(cfg, p), Captured(cfg, p), p.entryDuration, last.at - run[0].at;
    assert Ongoing(c, entry, passed) && ValidClip(c, cfg.dim) && |source| == |c.bindings|;
    var before := R.AfterRun(cfg, s, run, n - 1);
    if n == 1 {
      GoesOn(cfg, p, last.action.value, p.active.value, source, entry, run[0].at, 0.0, i);
    } else {
      ActionShows(cfg, s, run, n - 1, i);
      QuietPrepared(cfg, before, last);
      var q := R.Prepared(cfg, before, last);
      CapturedIs(cfg, q);
      if before.status.phase == Holding {
        LaterAtEnd(c, cfg.dim, run[n - 2].at - run[0].at - entry, passed - entry);
      }
      GoesOn(cfg, q, last.action.value, p.active.value, source, entry, run[0].at, passed, i);
    }
  }

  lemma CapturedIs(cfg: Config, s: State)
    requires ValidConfig(cfg) && Valid(cfg, s) && s.active.Some? && s.source != []
    ensures Captured(cfg, s) == s.source
  {}
}
