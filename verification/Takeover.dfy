/** Selective joint takeover inside RL: joint_trajectory_policy_adapter.cpp. A clip is blended
    into the policy's normalized action and out of it again, with a weight for its gains. */
module Takeover {
  import opened Curves
  import opened RobotBase
  import P = Player

  /** Where a clip's column goes in the action, and how positions are normalized there. */
  datatype Binding = Binding(action: nat, joint: nat, scale: real, centre: real)

  datatype ActionClip = ActionClip(
    clip: P.Clip, bindings: seq<Binding>, maxHold: real, kp: seq<real>, kd: seq<real>)

  datatype Config = Config(
    blendIn: real, blendOut: real, measuredVelocity: real, linear: bool, dim: nat, clips: seq<ActionClip>)

  function Actions(c: ActionClip): (r: seq<nat>)
    ensures |r| == |c.bindings| && forall i | 0 <= i < |r| :: r[i] == c.bindings[i].action
  {
    seq(|c.bindings|, i requires 0 <= i < |c.bindings| => c.bindings[i].action)
  }

  predicate ValidClip(c: ActionClip, dim: nat) {
    && c.clip.frames > 0 && c.clip.config.fps > 0.0 && c.clip.config.speed > 0.0
    && |c.clip.positions| == c.clip.frames * |c.clip.config.joints|
    && |c.bindings| == |c.clip.config.joints| && c.bindings != []
    && (forall i | 0 <= i < |c.bindings| :: c.bindings[i].action < dim && c.bindings[i].scale != 0.0)
    && (forall i | 0 <= i < |c.bindings| :: c.bindings[i].joint == c.clip.config.joints[i])
    && P.Distinct(Actions(c)) && P.Distinct(c.clip.config.joints)
    && (c.kp != [] ==> |c.kp| == |c.kd| == |c.bindings|)
  }

  ghost predicate ValidConfig(cfg: Config) {
    && cfg.blendIn >= 0.0 && cfg.blendOut >= 0.0 && cfg.measuredVelocity >= 0.0
    && (forall c | 0 <= c < |cfg.clips| :: ValidClip(cfg.clips[c], cfg.dim))
  }

  datatype State = State(
    active: Option<nat>, source: seq<real>, previous: seq<real>, phaseStart: real, playbackStart: real,
    entryDuration: real, last: real, gain: real, sourceWeight: real, sequence: nat, status: InteractionStatus)

  /** The state after Reset; the entry duration of an earlier action is kept. */
  function Reset(cfg: Config, s: State): State {
    State(None, [], Zeros(cfg.dim), 0.0, 0.0, s.entryDuration, 0.0, 0.0, 0.0, 0, NO_STATUS)
  }

  function Clip(cfg: Config, s: State): ActionClip
    requires s.active.Some? && s.active.value < |cfg.clips|
  {
    cfg.clips[s.active.value]
  }

  /** A clip is active exactly in the busy phases, and weights are shares. */
  ghost predicate Valid(cfg: Config, s: State) {
    && |s.previous| == cfg.dim
    && 0.0 <= s.gain <= 1.0 && 0.0 <= s.sourceWeight <= 1.0
    && (s.active.Some? <==> P.Busy(s.status.phase))
    && (s.active.None? ==> s.gain == 0.0)
    && (s.active.Some? ==>
          && s.active.value < |cfg.clips|
          && (s.source == [] || |s.source| == |Clip(cfg, s).bindings|)
          && (s.status.phase == BlendOut ==> s.source != []))
  }

  // ---------------------------------------------------------------- requests

  function BlendFraction(cfg: Config, fraction: real): real {
    if cfg.linear then UnitClamp(fraction) else SmoothStep(fraction)
  }

  function BeginBlendOut(cfg: Config, s: State, elapsed: real, sequence: nat): State
    requires ValidConfig(cfg) && Valid(cfg, s)
  {
    if s.active.None? then s.(status := s.status.(sequence := sequence, phase := Idle, progress := 0.0, action := ""))
    else
      s.(source := P.Pick(s.previous, Actions(Clip(cfg, s))), sourceWeight := s.gain, phaseStart := elapsed,
         status := s.status.(sequence := sequence, phase := BlendOut, progress := 1.0))
  }

  function Find(clips: seq<ActionClip>, name: Name, from: nat): (found: Option<nat>)
    requires from <= |clips|
    ensures found.Some? ==> from <= found.value < |clips| && clips[found.value].clip.config.name == name
    ensures found.None? ==> forall c | from <= c < |clips| :: clips[c].clip.config.name != name
    decreases |clips| - from
  {
    if from == |clips| then None
    else if clips[from].clip.config.name == name then Some(from) else Find(clips, name, from + 1)
  }

  function HandleInteractionRequest(cfg: Config, s: State, r: Interaction, elapsed: real): State
    requires ValidConfig(cfg) && Valid(cfg, s)
  {
    var heard := s.(sequence := r.sequence);
    var found := Find(cfg.clips, r.action, 0);
    if r.operation == NoOperation || r.sequence == 0 || r.sequence <= s.sequence then s
    else if r.operation == Cancel then
      BeginBlendOut(cfg, heard.(status := s.status.(accepted := true)), elapsed, r.sequence)
    else if s.active.Some? then heard.(status := s.status.(sequence := r.sequence, accepted := false))
    else if found.None? then heard.(status := InteractionStatus(r.sequence, false, Rejected, 0.0, r.action))
    else
      heard.(active := found, gain := 0.0, source := [], phaseStart := elapsed,
             playbackStart := elapsed + cfg.blendIn, entryDuration := cfg.blendIn,
             status := InteractionStatus(r.sequence, true, BlendIn, 0.0, r.action))
  }

  function PreparePolicySwitch(cfg: Config, s: State, requested: bool, elapsed: real): State
    requires ValidConfig(cfg) && Valid(cfg, s)
  {
    if requested && s.active.Some? && s.status.phase != BlendOut
    then BeginBlendOut(cfg, s, elapsed, s.status.sequence) else s
  }

  function ToNormalized(b: Binding, position: real): real
    requires b.scale != 0.0
  {
    (position - b.centre) / b.scale
  }

  // ---------------------------------------------------------------- inputs

  /** An entry from the measured pose, at a limited speed. */
  predicate Measures(cfg: Config, s: State) {
    s.active.Some? && s.status.phase == BlendIn && s.source == [] && cfg.measuredVelocity > 0.0
  }

  predicate Covers(c: ActionClip, positions: seq<real>) {
    forall i | 0 <= i < |c.bindings| :: c.bindings[i].joint < |positions|
  }

  /** The time the first n joints need to their first frame. */
  function EntryTime(c: ActionClip, positions: seq<real>, velocity: real, dim: nat, n: nat): (duration: real)
    requires ValidClip(c, dim) && Covers(c, positions) && velocity > 0.0 && n <= |c.bindings|
    ensures duration >= 0.0
  {
    if n == 0 then 0.0
    else
      Max(EntryTime(c, positions, velocity, dim, n - 1),
          Abs(P.Position(c.clip, n - 1, 0.0) - positions[c.bindings[n - 1].joint]) / velocity)
  }

  /** Measured positions in the action's units. */
  function Measured(c: ActionClip, positions: seq<real>, dim: nat): (r: seq<real>)
    requires ValidClip(c, dim) && Covers(c, positions)
    ensures |r| == |c.bindings|
  {
    seq(|c.bindings|, i requires 0 <= i < |c.bindings| => ToNormalized(c.bindings[i], positions[c.bindings[i].joint]))
  }

  function PrepareInputs(cfg: Config, s: State, elapsed: real, positions: seq<real>): State
    requires ValidConfig(cfg) && Valid(cfg, s) && (Measures(cfg, s) ==> Covers(Clip(cfg, s), positions))
  {
    var timed := s.(last := elapsed);
    if !Measures(cfg, s) then timed
    else
      assert ValidClip(Clip(cfg, s), cfg.dim);
      var entry := EntryTime(Clip(cfg, s), positions, cfg.measuredVelocity, cfg.dim, |Clip(cfg, s).bindings|);
      timed.(source := Measured(Clip(cfg, s), positions, cfg.dim), entryDuration := entry,
             playbackStart := s.phaseStart + entry)
  }

  // ---------------------------------------------------------------- actions

  function InteractionWeight(cfg: Config, s: State): real {
    if s.active.None? then 0.0
    else if s.status.phase == BlendOut then
      Times(s.sourceWeight, if cfg.blendOut <= 0.0 then 0.0
                            else 1.0 - BlendFraction(cfg, (s.last - s.phaseStart) / cfg.blendOut))
    else if s.status.phase == BlendIn && cfg.measuredVelocity <= 0.0 then
      if s.entryDuration <= 0.0 then 1.0 else BlendFraction(cfg, (s.last - s.phaseStart) / s.entryDuration)
    else 1.0
  }

  function EntryBlend(cfg: Config, s: State): real {
    if s.status.phase != BlendIn || s.entryDuration <= 0.0 then 1.0
    else BlendFraction(cfg, (s.last - s.phaseStart) / s.entryDuration)
  }

  /** The clip runs in this tick, possibly right after its blend-in. */
  predicate Runs(cfg: Config, s: State) {
    s.status.phase in {Playing, Holding} || (s.status.phase == BlendIn && EntryBlend(cfg, s) >= 1.0)
  }

  function Playback(s: State): real { Max(0.0, s.last - s.playbackStart) }

  predicate ReachesEnd(cfg: Config, s: State)
    requires ValidConfig(cfg) && Valid(cfg, s) && s.active.Some?
  {
    assert ValidClip(Clip(cfg, s), cfg.dim);
    Runs(cfg, s) && Playback(s) >= P.Duration(Clip(cfg, s).clip)
  }

  predicate Holds(cfg: Config, s: State)
    requires ValidConfig(cfg) && Valid(cfg, s) && s.active.Some?
  {
    var c := Clip(cfg, s);
    assert ValidClip(c, cfg.dim);
    c.clip.config.hold && (c.maxHold <= 0.0 || s.last - s.playbackStart - P.Duration(c.clip) < c.maxHold)
  }

  /** The clip ends by itself in this tick. */
  predicate EndsNow(cfg: Config, s: State)
    requires ValidConfig(cfg) && Valid(cfg, s) && s.active.Some?
  {
    ReachesEnd(cfg, s) && !Holds(cfg, s)
  }

  function PhaseNow(cfg: Config, s: State): Phase
    requires ValidConfig(cfg) && Valid(cfg, s) && s.active.Some?
  {
    if ReachesEnd(cfg, s) then if Holds(cfg, s) then Holding else BlendOut
    else if s.status.phase == BlendIn && EntryBlend(cfg, s) >= 1.0 then Playing else s.status.phase
  }

  function ProgressNow(cfg: Config, s: State): real
    requires ValidConfig(cfg) && Valid(cfg, s) && s.active.Some?
  {
    assert ValidClip(Clip(cfg, s), cfg.dim);
    var duration := P.Duration(Clip(cfg, s).clip);
    if !Runs(cfg, s) then s.status.progress
    else if duration <= 0.0 then 1.0 else Clamp(Playback(s) / duration, 0.0, 1.0)
  }

  function PlaybackNow(cfg: Config, s: State): real
    requires ValidConfig(cfg) && Valid(cfg, s) && s.active.Some?
  {
    assert ValidClip(Clip(cfg, s), cfg.dim);
    if !Runs(cfg, s) then 0.0 else if ReachesEnd(cfg, s) then P.Duration(Clip(cfg, s).clip) else Playback(s)
  }

  /** One frame of a clip in the action's units. */
  function Target(c: ActionClip, elapsed: real, dim: nat): (r: seq<real>)
    requires ValidClip(c, dim)
    ensures |r| == |c.bindings|
    ensures forall i | 0 <= i < |r| :: r[i] == ToNormalized(c.bindings[i], P.Position(c.clip, i, elapsed))
  {
    seq(|c.bindings|, i requires 0 <= i < |c.bindings| => ToNormalized(c.bindings[i], P.Position(c.clip, i, elapsed)))
  }

  function ReturnBlend(cfg: Config, s: State): real {
    if cfg.blendOut <= 0.0 then 1.0 else BlendFraction(cfg, (s.last - s.phaseStart) / cfg.blendOut)
  }

  /** Without a captured source the last applied action is where a blend starts. */
  function Captured(cfg: Config, s: State): (r: seq<real>)
    requires ValidConfig(cfg) && Valid(cfg, s) && s.active.Some?
    ensures |r| == |Clip(cfg, s).bindings|
  {
    if s.source == [] then P.Pick(s.previous, Actions(Clip(cfg, s))) else s.source
  }

  /** The state in which a return goes on; a clip that ends now starts its return here. */
  function Turned(cfg: Config, s: State): (t: State)
    requires ValidConfig(cfg) && Valid(cfg, s) && s.active.Some?
    ensures t.active == s.active && |t.source| == |Clip(cfg, s).bindings|
  {
    assert ValidClip(Clip(cfg, s), cfg.dim);
    if EndsNow(cfg, s) then
      s.(source := Target(Clip(cfg, s), PlaybackNow(cfg, s), cfg.dim), sourceWeight := 1.0, phaseStart := s.last)
    else s.(source := Captured(cfg, s))
  }

  /** Composition while a clip is active: the values at the bound actions, and the new state. */
  function Compose(cfg: Config, s: State, action: seq<real>): (r: (seq<real>, State))
    requires ValidConfig(cfg) && Valid(cfg, s) && s.active.Some? && |action| == cfg.dim
    ensures |r.0| == |Clip(cfg, s).bindings|
  {
    var c, phase := Clip(cfg, s), PhaseNow(cfg, s);
    var turned, status := Turned(cfg, s), s.status.(phase := phase, progress := ProgressNow(cfg, s));
    if phase == BlendOut then
      var alpha := ReturnBlend(cfg, turned);
      var over := alpha >= 1.0;
      (MixPose(turned.source, P.Pick(action, Actions(c)), alpha),
       turned.(gain := Times(turned.sourceWeight, 1.0 - alpha),
               active := if over then None else s.active,
               source := if over then [] else turned.source,
               status := if over then status.(phase := Finished, progress := 1.0) else status))
    else
      assert ValidClip(c, cfg.dim);
      var target := Target(c, PlaybackNow(cfg, s), cfg.dim);
      (if phase == BlendIn then MixPose(turned.source, target, EntryBlend(cfg, s)) else target,
       turned.(gain := if phase == BlendIn && cfg.measuredVelocity <= 0.0 then EntryBlend(cfg, s) else 1.0,
               status := status))
  }

  function Applied(cfg: Config, s: State, action: seq<real>): (r: seq<real>)
    requires ValidConfig(cfg) && Valid(cfg, s) && |action| == cfg.dim
    ensures |r| == cfg.dim
  {
    if s.active.None? then action
    else
      assert ValidClip(Clip(cfg, s), cfg.dim);
      P.Place(action, Actions(Clip(cfg, s)), Compose(cfg, s, action).0)
  }

  /** An action of the wrong dimension is an error and changes nothing. */
  function OnAction(cfg: Config, s: State, action: seq<real>): State
    requires ValidConfig(cfg) && Valid(cfg, s)
  {
    if |action| != cfg.dim then s
    else (if s.active.None? then s else Compose(cfg, s, action).1).(previous := Applied(cfg, s, action))
  }

  /** Gains of the clip's joints, moved from the policy's towards the clip's. */
  function JointGains(joints: seq<nat>, policy: seq<real>, clip: seq<real>, weight: real): (r: seq<real>)
    requires |clip| == |joints| && P.Distinct(joints) && forall i | 0 <= i < |joints| :: joints[i] < |policy|
    ensures |r| == |policy|
  {
    P.Place(policy, joints, MixPose(P.Pick(policy, joints), clip, weight))
  }

  // ---------------------------------------------------------------- invariant

  lemma FractionUnit(cfg: Config, x: real)
    ensures 0.0 <= BlendFraction(cfg, x) <= 1.0
    ensures x <= 0.0 ==> BlendFraction(cfg, x) == 0.0
  {
    CubicUnit(UnitClamp(x));
  }

  lemma FractionRises(cfg: Config, x: real, y: real)
    requires x <= y
    ensures BlendFraction(cfg, x) <= BlendFraction(cfg, y)
  {
    CubicRises(UnitClamp(x), UnitClamp(y));
  }

  lemma Share(w: real, x: real)
    requires 0.0 <= w <= 1.0 && 0.0 <= x <= 1.0
    ensures 0.0 <= Times(w, x) <= w
    ensures x == 1.0 ==> Times(w, x) == w
    ensures x == 0.0 ==> Times(w, x) == 0.0
  {
    Nonnegative(w, x);
    Nonnegative(w, 1.0 - x);
    assert Times(w, 1.0 - x) == w - Times(w, x);
  }

  lemma HandleKeepsValid(cfg: Config, s: State, r: Interaction, elapsed: real)
    requires ValidConfig(cfg) && Valid(cfg, s)
    ensures Valid(cfg, HandleInteractionRequest(cfg, s, r, elapsed))
  {}

  lemma PrepareKeepsValid(cfg: Config, s: State, requested: bool, elapsed: real, positions: seq<real>)
    requires ValidConfig(cfg) && Valid(cfg, s)
    ensures Valid(cfg, PreparePolicySwitch(cfg, s, requested, elapsed))
    ensures (Measures(cfg, s) ==> Covers(Clip(cfg, s), positions)) ==> Valid(cfg, PrepareInputs(cfg, s, elapsed, positions))
  {}

  lemma GainOf(cfg: Config, s: State, action: seq<real>)
    requires ValidConfig(cfg) && Valid(cfg, s) && |action| == cfg.dim && s.active.Some?
    ensures OnAction(cfg, s, action).gain ==
            if PhaseNow(cfg, s) == BlendOut then
              Times(Turned(cfg, s).sourceWeight, 1.0 - ReturnBlend(cfg, Turned(cfg, s)))
            else if PhaseNow(cfg, s) == BlendIn && cfg.measuredVelocity <= 0.0 then EntryBlend(cfg, s) else 1.0
  {
    assert ValidClip(Clip(cfg, s), cfg.dim);
    hide PhaseNow, Turned, ReturnBlend, EntryBlend, ProgressNow, PlaybackNow, Target, Applied, ValidClip, ValidConfig,
         MixPose, Times;
  }

  lemma GainUnit(cfg: Config, s: State, action: seq<real>)
    requires ValidConfig(cfg) && Valid(cfg, s) && |action| == cfg.dim && s.active.Some?
    ensures 0.0 <= OnAction(cfg, s, action).gain <= 1.0
    ensures PhaseNow(cfg, s) == BlendOut && ReturnBlend(cfg, Turned(cfg, s)) >= 1.0 ==> OnAction(cfg, s, action).gain == 0.0
  {
    var turned := Turned(cfg, s);
    GainOf(cfg, s, action);
    hide OnAction, PhaseNow, Target, PlaybackNow, EndsNow, BlendFraction, Times;
    if cfg.blendOut > 0.0 {
      FractionUnit(cfg, (turned.last - turned.phaseStart) / cfg.blendOut);
    }
    if s.entryDuration > 0.0 {
      FractionUnit(cfg, (s.last - s.phaseStart) / s.entryDuration);
    }
    Share(turned.sourceWeight, 1.0 - ReturnBlend(cfg, turned));
  }

  lemma ComposeKeepsValid(cfg: Config, s: State, action: seq<real>)
    requires ValidConfig(cfg) && Valid(cfg, s)
    ensures Valid(cfg, OnAction(cfg, s, action))
  {
    if |action| == cfg.dim && s.active.Some? {
      GainUnit(cfg, s, action);
      hide ReturnBlend, EntryBlend, ProgressNow, PlaybackNow, Holds, ReachesEnd, Target, Applied, ValidConfig, MixPose, Times;
    }
  }

  // ---------------------------------------------------------------- weight and gain

  /** The weight shown before inference is the gain that composition leaves at the same time,
      with one exception: without a blend-out time, a clip that ends in this very tick. */
  lemma WeightIsGain(cfg: Config, s: State, action: seq<real>)
    requires ValidConfig(cfg) && Valid(cfg, s) && |action| == cfg.dim
    ensures OnAction(cfg, s, action).gain == InteractionWeight(cfg, s) <==>
            s.active.None? || cfg.blendOut > 0.0 || !EndsNow(cfg, s)
  {
    if s.active.Some? {
      GainOf(cfg, s, action);
      EntryBlendIsFraction(cfg, s);
      hide OnAction, Target, PlaybackNow, BlendFraction, EntryBlend, Playback, Holds, ValidConfig, Times;
      if EndsNow(cfg, s) {
        FreshReturn(cfg, Turned(cfg, s));
      }
    }
  }

  lemma EntryBlendIsFraction(cfg: Config, s: State)
    ensures EntryBlend(cfg, s) <= 1.0
    ensures s.status.phase == BlendIn && s.active.Some? && cfg.measuredVelocity <= 0.0 ==>
              InteractionWeight(cfg, s) == EntryBlend(cfg, s)
  {
    if s.entryDuration > 0.0 {
      FractionUnit(cfg, (s.last - s.phaseStart) / s.entryDuration);
    }
  }

  /** A return that starts now has its full weight, unless it has no time at all. */
  lemma FreshReturn(cfg: Config, s: State)
    requires s.phaseStart == s.last
    ensures ReturnBlend(cfg, s) == if cfg.blendOut <= 0.0 then 1.0 else 0.0
    ensures s.sourceWeight == 1.0 ==> Times(s.sourceWeight, 1.0 - ReturnBlend(cfg, s)) == 1.0 - ReturnBlend(cfg, s)
  {
    if cfg.blendOut > 0.0 {
      assert (s.last - s.phaseStart) / cfg.blendOut == 0.0;
      FractionUnit(cfg, 0.0);
    }
  }

  lemma WeightUnit(cfg: Config, s: State)
    requires Valid(cfg, s)
    ensures 0.0 <= InteractionWeight(cfg, s) <= 1.0
    ensures s.active.Some? && s.status.phase == BlendOut ==> InteractionWeight(cfg, s) <= s.sourceWeight
  {
    if s.active.Some? {
      EntryBlendIsFraction(cfg, s);
      if cfg.blendOut > 0.0 {
        FractionUnit(cfg, (s.last - s.phaseStart) / cfg.blendOut);
        Share(s.sourceWeight, 1.0 - BlendFraction(cfg, (s.last - s.phaseStart) / cfg.blendOut));
      } else {
        Share(s.sourceWeight, 0.0);
      }
      if s.entryDuration > 0.0 {
        FractionUnit(cfg, (s.last - s.phaseStart) / s.entryDuration);
      }
    }
  }

  // ---------------------------------------------------------------- calls in sequence

  datatype Call =
    | DoHandle(request: Interaction, elapsed: real)
    | DoSwitch(requested: bool, elapsed: real)
    | DoPrepare(elapsed: real, positions: seq<real>)
    | DoAction(action: seq<real>)

  function Perform(cfg: Config, s: State, c: Call): (t: State)
    requires ValidConfig(cfg) && Valid(cfg, s)
    ensures Valid(cfg, t)
  {
    match c
    case DoHandle(r, elapsed) => HandleKeepsValid(cfg, s, r, elapsed); HandleInteractionRequest(cfg, s, r, elapsed)
    case DoSwitch(requested, elapsed) =>
      PrepareKeepsValid(cfg, s, requested, elapsed, []); PreparePolicySwitch(cfg, s, requested, elapsed)
    case DoPrepare(elapsed, positions) =>
      PrepareKeepsValid(cfg, s, false, elapsed, positions);
      if Measures(cfg, s) && !Covers(Clip(cfg, s), positions) then s else PrepareInputs(cfg, s, elapsed, positions)
    case DoAction(action) => ComposeKeepsValid(cfg, s, action); OnAction(cfg, s, action)
  }

  function After(cfg: Config, s: State, calls: seq<Call>, n: nat): (t: State)
    requires ValidConfig(cfg) && Valid(cfg, s) && n <= |calls|
    ensures Valid(cfg, t)
  {
    if n == 0 then s else Perform(cfg, After(cfg, s, calls, n - 1), calls[n - 1])
  }

  /** Control time does not run backwards. */
  predicate Forward(s: State, c: Call) {
    match c
    case DoHandle(_, elapsed) => elapsed >= s.last
    case DoSwitch(_, elapsed) => elapsed >= s.last
    case DoPrepare(elapsed, _) => elapsed >= s.last
    case DoAction(_) => true
  }

  /** A return is under way, and the gain has not fallen below what its clock says. */
  ghost predicate Fading(cfg: Config, s: State) {
    s.active.Some? && s.status.phase == BlendOut && InteractionWeight(cfg, s) <= s.gain
  }

  /** A cancel of any phase, a repeated one included, starts a return at the present gain. */
  lemma BlendOutStarts(cfg: Config, s: State, elapsed: real, sequence: nat)
    requires ValidConfig(cfg) && Valid(cfg, s) && s.active.Some?
    ensures var t := BeginBlendOut(cfg, s, elapsed, sequence);
            && Valid(cfg, t) && Fading(cfg, t) && t.gain == s.gain && t.last == s.last
            && (cfg.blendOut > 0.0 && elapsed >= s.last ==> InteractionWeight(cfg, t) == s.gain)
  {
    var t := BeginBlendOut(cfg, s, elapsed, sequence);
    assert ValidClip(Clip(cfg, s), cfg.dim);
    WeightUnit(cfg, t);
    if cfg.blendOut > 0.0 && elapsed >= s.last {
      QuotientOrder(t.last - t.phaseStart, 0.0, cfg.blendOut);
      FractionUnit(cfg, (t.last - t.phaseStart) / cfg.blendOut);
      Share(t.sourceWeight, 1.0);
    }
  }

  /** So does the natural end of a clip, at full weight; without a blend-out time the return is
      over at once. */
  lemma EndStartsFading(cfg: Config, s: State, action: seq<real>)
    requires ValidConfig(cfg) && Valid(cfg, s) && |action| == cfg.dim && s.active.Some? && EndsNow(cfg, s)
    ensures var t := OnAction(cfg, s, action);
            && (cfg.blendOut > 0.0 ==> Fading(cfg, t) && t.gain == InteractionWeight(cfg, t) == 1.0)
            && (cfg.blendOut <= 0.0 ==> t.active.None? && t.gain == 0.0)
  {
    var turned := Turned(cfg, s);
    GainOf(cfg, s, action);
    FreshReturn(cfg, turned);
    EndedState(cfg, s, action);
    hide OnAction, BlendFraction, EndsNow, Target, PlaybackNow, Times;
    Share(1.0, 1.0 - ReturnBlend(cfg, turned));
  }

  /** The state that composition leaves when the clip ends. */
  lemma EndedState(cfg: Config, s: State, action: seq<real>)
    requires ValidConfig(cfg) && Valid(cfg, s) && |action| == cfg.dim && s.active.Some? && EndsNow(cfg, s)
    ensures var t := OnAction(cfg, s, action); var over := ReturnBlend(cfg, Turned(cfg, s)) >= 1.0;
            && t.active == (if over then None else s.active) && (!over ==> t.status.phase == BlendOut)
            && t.sourceWeight == 1.0 && t.phaseStart == t.last == s.last
  {
    hide ReturnBlend, EntryBlend, ProgressNow, PlaybackNow, Target, Applied, ValidConfig, MixPose, Times;
  }

  lemma PrepareFades(cfg: Config, s: State, elapsed: real, positions: seq<real>)
    requires ValidConfig(cfg) && Valid(cfg, s) && Fading(cfg, s) && elapsed >= s.last
    ensures var t := PrepareInputs(cfg, s, elapsed, positions);
            Fading(cfg, t) && t.gain == s.gain && InteractionWeight(cfg, t) <= InteractionWeight(cfg, s)
  {
    hide BlendFraction, Times, EntryTime, Measured, ValidClip;
    if cfg.blendOut > 0.0 {
      var x, y := (s.last - s.phaseStart) / cfg.blendOut, (elapsed - s.phaseStart) / cfg.blendOut;
      QuotientOrder(s.last - s.phaseStart, elapsed - s.phaseStart, cfg.blendOut);
      FractionRises(cfg, x, y);
      Smaller(s.sourceWeight, 1.0 - BlendFraction(cfg, y), 1.0 - BlendFraction(cfg, x));
    }
  }

  lemma Smaller(w: real, x: real, y: real)
    requires w >= 0.0 && x <= y
    ensures Times(w, x) <= Times(w, y)
  {
    Scale(x, y, w);
  }

  lemma ActionFades(cfg: Config, s: State, action: seq<real>)
    requires ValidConfig(cfg) && Valid(cfg, s) && Fading(cfg, s)
    ensures var t := OnAction(cfg, s, action);
            && t.gain <= s.gain && (Fading(cfg, t) || (t.active.None? && t.gain == 0.0 && t.status.phase == Finished))
  {
    if |action| == cfg.dim {
      ComposeKeepsValid(cfg, s, action);
      WeightIsGain(cfg, s, action);
      assert !EndsNow(cfg, s) && PhaseNow(cfg, s) == BlendOut;
      var t := OnAction(cfg, s, action);
      if t.active.Some? {
        hide BlendFraction, Times;
        assert InteractionWeight(cfg, t) == InteractionWeight(cfg, s);
      }
    }
  }

  lemma CallFades(cfg: Config, s: State, c: Call)
    requires ValidConfig(cfg) && Valid(cfg, s) && Fading(cfg, s) && Forward(s, c)
    ensures var t := Perform(cfg, s, c);
            t.gain <= s.gain && (Fading(cfg, t) || (t.active.None? && t.gain == 0.0))
  {
    hide InteractionWeight, Compose;
    match c
    case DoHandle(r, elapsed) =>
      if HandleInteractionRequest(cfg, s, r, elapsed) != s && r.operation == Cancel {
        var heard := s.(sequence := r.sequence, status := s.status.(accepted := true));
        BlendOutStarts(cfg, heard, elapsed, r.sequence);
      } else {
        SameReturn(cfg, s, HandleInteractionRequest(cfg, s, r, elapsed));
      }
    case DoSwitch(_, _) =>
    case DoPrepare(elapsed, positions) => PrepareFades(cfg, s, elapsed, positions);
    case DoAction(action) => ActionFades(cfg, s, action);
  }

  /** Sequence and acceptance do not matter for the weight. */
  lemma SameReturn(cfg: Config, s: State, t: State)
    requires t == s.(sequence := t.sequence, status := t.status) && t.status.phase == s.status.phase
    ensures InteractionWeight(cfg, t) == InteractionWeight(cfg, s)
  {}

  /** From the start of a return until it has finished, whatever is requested in between, the
      gain never rises, and the weight shown never exceeds the gain left by any earlier action. */
  lemma {:induction false} GainNeverRises(cfg: Config, s: State, calls: seq<Call>, m: nat, n: nat)
    requires ValidConfig(cfg) && Valid(cfg, s) && Fading(cfg, s) && m <= n <= |calls|
    requires forall k | 0 <= k < n :: Forward(After(cfg, s, calls, k), calls[k])
    requires forall k | 0 <= k < n :: After(cfg, s, calls, k).active.Some?
    ensures After(cfg, s, calls, n).gain <= After(cfg, s, calls, m).gain
    ensures After(cfg, s, calls, n).active.Some? ==>
              Fading(cfg, After(cfg, s, calls, n)) &&
              InteractionWeight(cfg, After(cfg, s, calls, n)) <= After(cfg, s, calls, m).gain
    ensures After(cfg, s, calls, n).active.None? ==> After(cfg, s, calls, n).gain == 0.0
  {
    hide Perform, InteractionWeight, Forward;
    if n > 0 {
      GainNeverRises(cfg, s, calls, if m < n then m else n - 1, n - 1);
      assert Forward(After(cfg, s, calls, n - 1), calls[n - 1]);
      CallFades(cfg, After(cfg, s, calls, n - 1), calls[n - 1]);
    }
  }

  // ---------------------------------------------------------------- action and gains

  /** Actions outside the clip are the policy's, and so is everything once the return is over. */
  lemma OthersKeepAction(cfg: Config, s: State, action: seq<real>, j: nat)
    requires ValidConfig(cfg) && Valid(cfg, s) && |action| == cfg.dim && j < cfg.dim
    ensures s.active.None? || j !in Actions(Clip(cfg, s)) ==> Applied(cfg, s, action)[j] == action[j]
    ensures OnAction(cfg, s, action).active.None? ==> Applied(cfg, s, action)[j] == action[j]
  {
    if s.active.Some? {
      var c := Clip(cfg, s);
      assert ValidClip(c, cfg.dim);
      if OnAction(cfg, s, action).active.None? && j in Actions(c) {
        var i :| 0 <= i < |Actions(c)| && Actions(c)[i] == j;
        ReturnBlendUnit(cfg, Turned(cfg, s));
        assert Applied(cfg, s, action)[Actions(c)[i]] == Compose(cfg, s, action).0[i];
      }
    }
  }

  lemma ReturnBlendUnit(cfg: Config, s: State)
    ensures 0.0 <= ReturnBlend(cfg, s) <= 1.0
  {
    if cfg.blendOut > 0.0 {
      FractionUnit(cfg, (s.last - s.phaseStart) / cfg.blendOut);
    }
  }

  /** Overlaid gains lie between the policy's and the clip's; other joints keep the policy's. */
  lemma GainsBetween(joints: seq<nat>, policy: seq<real>, clip: seq<real>, weight: real, j: nat)
    requires |clip| == |joints| && P.Distinct(joints) && j < |policy| && 0.0 <= weight <= 1.0
    requires forall i | 0 <= i < |joints| :: joints[i] < |policy|
    ensures j !in joints ==> JointGains(joints, policy, clip, weight)[j] == policy[j]
    ensures forall i | 0 <= i < |joints| && joints[i] == j ::
              Min(policy[j], clip[i]) <= JointGains(joints, policy, clip, weight)[j] <= Max(policy[j], clip[i])
  {
    forall i | 0 <= i < |joints| && joints[i] == j
      ensures Min(policy[j], clip[i]) <= JointGains(joints, policy, clip, weight)[j] <= Max(policy[j], clip[i])
    {
      assert JointGains(joints, policy, clip, weight)[joints[i]] == Mix(policy[j], clip[i], weight);
      MixWithin(policy[j], clip[i], weight, Min(policy[j], clip[i]), Max(policy[j], clip[i]));
    }
  }
}
