/** Joint-space trajectory playback of joint_trajectory.cpp: blend in, play, hold, blend out. */
module Player {
  import opened Curves
  import opened RobotBase

  datatype ActionConfig = ActionConfig(name: Name, joints: seq<nat>, fps: real, speed: real, hold: bool)

  /** Frames of joint positions, row by row. */
  datatype Clip = Clip(config: ActionConfig, frames: nat, positions: seq<real>)

  datatype Config = Config(blendIn: real, blendOut: real, maxVelocity: real, dof: nat, clips: seq<Clip>)

  predicate Distinct(joints: seq<nat>) {
    forall i, j | 0 <= i < j < |joints| :: joints[i] != joints[j]
  }

  predicate ValidClip(clip: Clip, dof: nat) {
    && clip.frames > 0 && clip.config.fps > 0.0 && clip.config.speed > 0.0
    && |clip.positions| == clip.frames * |clip.config.joints|
    && (forall i | 0 <= i < |clip.config.joints| :: clip.config.joints[i] < dof)
    && Distinct(clip.config.joints)
  }

  /** What the constructor accepts. */
  ghost predicate ValidConfig(cfg: Config) {
    && cfg.blendIn >= 0.0 && cfg.blendOut >= 0.0 && cfg.maxVelocity >= 0.0
    && (forall c | 0 <= c < |cfg.clips| :: ValidClip(cfg.clips[c], cfg.dof))
  }

  function Duration(clip: Clip): real
    requires clip.config.fps > 0.0 && clip.config.speed > 0.0 && clip.frames > 0
  {
    Scale(0.0, clip.config.fps, clip.config.speed);
    (clip.frames - 1) as real / Times(clip.config.fps, clip.config.speed)
  }

  lemma CellInRange(row: nat, rows: nat, column: nat, width: nat)
    requires row < rows && column < width
    ensures row * width + column < rows * width
  {
    WholeRows(row + 1, rows, width);
    assert (row + 1) * width == row * width + width;
  }

  lemma WholeRows(some: nat, all: nat, width: nat)
    requires some <= all
    ensures some * width <= all * width
  {}

  function Cell(clip: Clip, row: nat, column: nat): real
    requires row < clip.frames && column < |clip.config.joints|
    requires |clip.positions| == clip.frames * |clip.config.joints|
  {
    CellInRange(row, clip.frames, column, |clip.config.joints|);
    clip.positions[row * |clip.config.joints| + column]
  }

  /** The clip's time in frames, clamped to the clip. */
  function Sample(clip: Clip, elapsed: real): (sample: real)
    requires clip.frames > 0
    ensures 0.0 <= sample <= (clip.frames - 1) as real
  {
    Clamp(elapsed * clip.config.fps * clip.config.speed, 0.0, (clip.frames - 1) as real)
  }

  /** One column between the two frames nearest to a sample. */
  function Between(clip: Clip, column: nat, sample: real): real
    requires 0.0 <= sample <= (clip.frames - 1) as real && column < |clip.config.joints|
    requires |clip.positions| == clip.frames * |clip.config.joints|
  {
    var first := sample.Floor;
    var second := if first + 1 <= clip.frames - 1 then first + 1 else clip.frames - 1;
    Mix(Cell(clip, first, column), Cell(clip, second, column), sample - first as real)
  }

  function Position(clip: Clip, column: nat, elapsed: real): real
    requires clip.frames > 0 && column < |clip.config.joints|
    requires |clip.positions| == clip.frames * |clip.config.joints|
  {
    Between(clip, column, Sample(clip, elapsed))
  }

  // ---------------------------------------------------------------- state

  /** `active` is the index of the clip being played; a negative return duration is not yet set. */
  datatype State = State(
    active: Option<nat>, previous: seq<real>, source: seq<real>,
    phaseStart: real, playbackStart: real, returnDuration: real, sequence: nat, status: InteractionStatus)

  function Initial(cfg: Config): State {
    State(None, Zeros(cfg.dof), [], 0.0, 0.0, -1.0, 0, NO_STATUS)
  }

  predicate Busy(phase: Phase) { phase in {BlendIn, Playing, Holding, BlendOut} }

  /** The shape every run keeps: a clip is active exactly in the four busy phases. */
  ghost predicate Valid(cfg: Config, s: State) {
    && |s.previous| == cfg.dof
    && (s.active.Some? <==> Busy(s.status.phase))
    && (s.active.Some? ==> s.active.value < |cfg.clips| && |s.source| == |Joints(cfg, s)|)
  }

  function Joints(cfg: Config, s: State): seq<nat>
    requires s.active.Some? && s.active.value < |cfg.clips|
  {
    cfg.clips[s.active.value].config.joints
  }

  /** Entries of a pose at the given joints. */
  function Pick(pose: seq<real>, joints: seq<nat>): (r: seq<real>)
    requires forall i | 0 <= i < |joints| :: joints[i] < |pose|
    ensures |r| == |joints| && forall i | 0 <= i < |r| :: r[i] == pose[joints[i]]
  {
    seq(|joints|, i requires 0 <= i < |joints| => pose[joints[i]])
  }

  function Find(clips: seq<Clip>, name: Name, from: nat): (found: Option<nat>)
    requires from <= |clips|
    ensures found.Some? ==> from <= found.value < |clips| && clips[found.value].config.name == name
    ensures found.None? ==> forall c | from <= c < |clips| :: clips[c].config.name != name
    decreases |clips| - from
  {
    if from == |clips| then None
    else if clips[from].config.name == name then Some(from) else Find(clips, name, from + 1)
  }

  /** A pose of the wrong dimension is an error and changes nothing. */
  function Reset(cfg: Config, s: State, position: seq<real>): State {
    if |position| != cfg.dof then s
    else s.(previous := position, active := None, source := [], sequence := 0, status := NO_STATUS)
  }

  datatype RequestDecision = Ignore | CancelIdle | CancelAgain | CancelActive | RefuseBusy | RefuseUnknown | Begin(clip: nat)

  function DecideRequest(cfg: Config, s: State, r: Interaction): RequestDecision {
    if r.operation == NoOperation || r.sequence == 0 || r.sequence <= s.sequence then Ignore
    else if r.operation == Cancel then
      if s.active.None? then CancelIdle else if s.status.phase == BlendOut then CancelAgain else CancelActive
    else if s.active.Some? then RefuseBusy
    else
      var found := Find(cfg.clips, r.action, 0);
      if found.None? then RefuseUnknown else Begin(found.value)
  }

  function StatusAfterRequest(status: InteractionStatus, r: Interaction, d: RequestDecision): InteractionStatus {
    match d
    case Ignore => status
    case CancelIdle => InteractionStatus(r.sequence, true, Idle, 0.0, "")
    case CancelAgain => status.(sequence := r.sequence, accepted := true)
    case CancelActive => InteractionStatus(r.sequence, true, BlendOut, 1.0, status.action)
    case RefuseBusy => status.(sequence := r.sequence, accepted := false)
    case RefuseUnknown => InteractionStatus(r.sequence, false, Rejected, 0.0, r.action)
    case Begin(_) => InteractionStatus(r.sequence, true, BlendIn, 0.0, r.action)
  }

  /** Negative time is an error and changes nothing. */
  function Request(cfg: Config, s: State, r: Interaction, elapsed: real): State
    requires ValidConfig(cfg) && Valid(cfg, s)
  {
    var d := DecideRequest(cfg, s, r);
    if elapsed < 0.0 || d.Ignore? then s
    else
      s.(sequence := r.sequence,
         status := StatusAfterRequest(s.status, r, d),
         active := if d.Begin? then Some(d.clip) else s.active,
         source := if d.Begin? then Pick(s.previous, cfg.clips[d.clip].config.joints)
                   else if d.CancelActive? then Pick(s.previous, Joints(cfg, s)) else s.source,
         phaseStart := if d.Begin? || d.CancelActive? then elapsed else s.phaseStart,
         playbackStart := if d.Begin? then elapsed + cfg.blendIn else s.playbackStart,
         returnDuration := if d.CancelActive? then -1.0 else s.returnDuration)
  }

  // ---------------------------------------------------------------- one tick

  function Fraction(elapsed: real, start: real, duration: real): real {
    if duration == 0.0 then 1.0 else (elapsed - start) / duration
  }

  function EntryBlend(cfg: Config, s: State, elapsed: real): real {
    if s.status.phase == BlendIn then SmoothStep(Fraction(elapsed, s.phaseStart, cfg.blendIn)) else 1.0
  }

  /** Where the playback clock puts this tick. */
  datatype Progress = Progress(phase: Phase, playback: real, shown: real, ended: bool)

  function Advance(cfg: Config, s: State, elapsed: real): Progress
    requires ValidConfig(cfg) && s.active.Some? && s.active.value < |cfg.clips|
  {
    var clip := cfg.clips[s.active.value];
    var phase := if s.status.phase == BlendIn && EntryBlend(cfg, s, elapsed) >= 1.0 then Playing else s.status.phase;
    if phase != Playing && phase != Holding then Progress(phase, 0.0, s.status.progress, false)
    else
      var playback, duration := Max(0.0, elapsed - s.playbackStart), Duration(clip);
      var shown := if duration == 0.0 then 1.0 else Clamp(playback / duration, 0.0, 1.0);
      if playback < duration then Progress(phase, playback, shown, false)
      else if clip.config.hold then Progress(Holding, duration, shown, false)
      else Progress(BlendOut, duration, shown, true)
  }

  /** All columns of a clip at one time. */
  function Frame(clip: Clip, elapsed: real): (r: seq<real>)
    requires clip.frames > 0 && |clip.positions| == clip.frames * |clip.config.joints|
    ensures |r| == |clip.config.joints| && forall i | 0 <= i < |r| :: r[i] == Position(clip, i, elapsed)
  {
    seq(|clip.config.joints|, i requires 0 <= i < |clip.config.joints| => Position(clip, i, elapsed))
  }

  /** The configured blend-out time, stretched until no joint among the first n is too fast. */
  function ReturnTime(cfg: Config, source: seq<real>, goal: seq<real>, n: nat): (duration: real)
    requires n <= |source| == |goal| && cfg.maxVelocity > 0.0
    ensures duration >= cfg.blendOut
    ensures forall i | 0 <= i < n :: duration >= 1.875 * Abs(goal[i] - source[i]) / cfg.maxVelocity
  {
    if n == 0 then cfg.blendOut
    else
      Max(ReturnTime(cfg, source, goal, n - 1), 1.875 * Abs(goal[n - 1] - source[n - 1]) / cfg.maxVelocity)
  }

  function ReturnDuration(cfg: Config, source: seq<real>, goal: seq<real>): real
    requires |source| == |goal| && cfg.maxVelocity >= 0.0
  {
    if cfg.maxVelocity > 0.0 then ReturnTime(cfg, source, goal, |source|) else cfg.blendOut
  }

  function ReturnBlend(cfg: Config, elapsed: real, start: real, duration: real): real {
    var progress := UnitClamp(Fraction(elapsed, start, duration));
    if cfg.maxVelocity > 0.0 then Quintic(progress) else SmoothStep(progress)
  }

  /** The pose with new values at the given joints. */
  function Place(pose: seq<real>, joints: seq<nat>, values: seq<real>): (r: seq<real>)
    requires |values| == |joints| && Distinct(joints)
    requires forall i | 0 <= i < |joints| :: joints[i] < |pose|
    ensures |r| == |pose|
    ensures forall i | 0 <= i < |joints| :: r[joints[i]] == values[i]
    ensures forall j | 0 <= j < |pose| :: j !in joints ==> r[j] == pose[j]
    decreases |joints|
  {
    if joints == [] then pose
    else
      var n := |joints| - 1;
      Place(pose, joints[..n], values[..n])[joints[n] := values[n]]
  }

  /** One tick while a clip is active: the values of its joints and the new state, except for
      the remembered output. */
  function Play(cfg: Config, s: State, elapsed: real, input: seq<real>): (r: (seq<real>, State))
    requires ValidConfig(cfg) && Valid(cfg, s) && s.active.Some? && |input| == cfg.dof
    ensures |r.0| == |Joints(cfg, s)|
  {
    var clip, p, goal := cfg.clips[s.active.value], Advance(cfg, s, elapsed), Pick(input, Joints(cfg, s));
    if p.phase == BlendOut then
      var source := if p.ended then Frame(clip, p.playback) else s.source;
      var start := if p.ended then elapsed else s.phaseStart;
      var duration := if p.ended || s.returnDuration < 0.0 then ReturnDuration(cfg, source, goal) else s.returnDuration;
      var alpha := ReturnBlend(cfg, elapsed, start, duration);
      var over := alpha >= 1.0;
      (MixPose(source, goal, alpha),
       s.(source := source, phaseStart := start, returnDuration := duration,
          active := if over then None else s.active,
          status := s.status.(phase := if over then Finished else BlendOut, progress := if over then 1.0 else p.shown)))
    else
      var target := Frame(clip, p.playback);
      (if p.phase == BlendIn then MixPose(s.source, target, EntryBlend(cfg, s, elapsed)) else target,
       s.(status := s.status.(phase := p.phase, progress := p.shown)))
  }

  predicate Applicable(cfg: Config, elapsed: real, input: seq<real>) { elapsed >= 0.0 && |input| == cfg.dof }

  function Output(cfg: Config, s: State, elapsed: real, input: seq<real>): (output: seq<real>)
    requires ValidConfig(cfg) && Valid(cfg, s)
    ensures |output| == |input|
  {
    if !Applicable(cfg, elapsed, input) || s.active.None? then input
    else Place(input, Joints(cfg, s), Play(cfg, s, elapsed, input).0)
  }

  /** Negative time or a wrong dimension is an error and changes nothing. */
  function Apply(cfg: Config, s: State, elapsed: real, input: seq<real>): State
    requires ValidConfig(cfg) && Valid(cfg, s)
  {
    if !Applicable(cfg, elapsed, input) then s
    else (if s.active.None? then s else Play(cfg, s, elapsed, input).1).(previous := Output(cfg, s, elapsed, input))
  }

  // ---------------------------------------------------------------- phases

  lemma RequestKeepsValid(cfg: Config, s: State, r: Interaction, elapsed: real)
    requires ValidConfig(cfg) && Valid(cfg, s)
    ensures Valid(cfg, Request(cfg, s, r, elapsed))
  {
    match DecideRequest(cfg, s, r)
    case Ignore =>
    case CancelIdle =>
    case CancelAgain =>
    case CancelActive =>
    case RefuseBusy =>
    case RefuseUnknown =>
    case Begin(_) =>
  }

  lemma ApplyKeepsValid(cfg: Config, s: State, elapsed: real, input: seq<real>)
    requires ValidConfig(cfg) && Valid(cfg, s)
    ensures Valid(cfg, Apply(cfg, s, elapsed, input))
  {
    hide Quintic, Cubic, Duration, Sample;
  }

  /** Every call keeps the shape: a clip is active exactly in the four busy phases. */
  lemma CallsKeepValid(cfg: Config, s: State, position: seq<real>, r: Interaction, elapsed: real)
    requires ValidConfig(cfg) && Valid(cfg, s)
    ensures Valid(cfg, Reset(cfg, s, position))
    ensures Valid(cfg, Request(cfg, s, r, elapsed))
    ensures Valid(cfg, Apply(cfg, s, elapsed, position))
  {
    RequestKeepsValid(cfg, s, r, elapsed);
    ApplyKeepsValid(cfg, s, elapsed, position);
    hide Request, Apply;
  }

  /** Joints outside the active clip keep their input, and so do all joints without one. */
  lemma OthersKeepInput(cfg: Config, s: State, elapsed: real, input: seq<real>, j: nat)
    requires ValidConfig(cfg) && Valid(cfg, s) && j < |input|
    ensures s.active.None? || j !in Joints(cfg, s) ==> Output(cfg, s, elapsed, input)[j] == input[j]
  {}

  // ---------------------------------------------------------------- calls in sequence

  datatype Call =
    | DoReset(position: seq<real>)
    | DoRequest(request: Interaction, elapsed: real)
    | DoApply(elapsed: real, input: seq<real>)

  function Perform(cfg: Config, s: State, c: Call): (t: State)
    requires ValidConfig(cfg) && Valid(cfg, s)
    ensures Valid(cfg, t)
  {
    CallsKeepValid(cfg, s, if c.DoReset? then c.position else if c.DoApply? then c.input else [],
      if c.DoRequest? then c.request else NO_INTERACTION, if c.DoReset? then 0.0 else c.elapsed);
    match c
    case DoReset(position) => Reset(cfg, s, position)
    case DoRequest(r, elapsed) => Request(cfg, s, r, elapsed)
    case DoApply(elapsed, input) => Apply(cfg, s, elapsed, input)
  }

  /** The state after the first n calls. */
  function After(cfg: Config, s: State, calls: seq<Call>, n: nat): (t: State)
    requires ValidConfig(cfg) && Valid(cfg, s) && n <= |calls|
    ensures Valid(cfg, t)
  {
    if n == 0 then s else Perform(cfg, After(cfg, s, calls, n - 1), calls[n - 1])
  }

  // ---------------------------------------------------------------- limits

  datatype Limits = Limits(lower: seq<real>, upper: seq<real>)

  predicate Within(l: Limits, pose: seq<real>) {
    |pose| == |l.lower| == |l.upper| && forall j | 0 <= j < |pose| :: l.lower[j] <= pose[j] <= l.upper[j]
  }

  /** Every frame of every clip keeps the limits of the joint it is for. */
  ghost predicate ClipsWithin(cfg: Config, l: Limits)
    requires ValidConfig(cfg)
  {
    && |l.lower| == |l.upper| == cfg.dof
    && forall c, row, column ::
         0 <= c < |cfg.clips| && 0 <= row < cfg.clips[c].frames && 0 <= column < |cfg.clips[c].config.joints| ==>
           var j := cfg.clips[c].config.joints[column];
           l.lower[j] <= Cell(cfg.clips[c], row, column) <= l.upper[j]
  }

  predicate ValuesWithin(l: Limits, joints: seq<nat>, values: seq<real>) {
    && |values| == |joints| && |l.lower| == |l.upper|
    && (forall i | 0 <= i < |joints| :: joints[i] < |l.lower|)
    && (forall i | 0 <= i < |joints| :: l.lower[joints[i]] <= values[i] <= l.upper[joints[i]])
  }

  /** A pose keeps the limits of every joint that some clip moves. */
  ghost predicate PoseWithin(cfg: Config, l: Limits, pose: seq<real>)
    requires ValidConfig(cfg)
  {
    && |l.lower| == |l.upper| == |pose| == cfg.dof
    && forall c, i :: 0 <= c < |cfg.clips| && 0 <= i < |cfg.clips[c].config.joints| ==>
         var j := cfg.clips[c].config.joints[i];
         l.lower[j] <= pose[j] <= l.upper[j]
  }

  lemma WithinPose(cfg: Config, l: Limits, pose: seq<real>)
    requires ValidConfig(cfg) && Within(l, pose) && |pose| == cfg.dof
    ensures PoseWithin(cfg, l, pose)
  {
    forall c, i | 0 <= c < |cfg.clips| && 0 <= i < |cfg.clips[c].config.joints|
      ensures cfg.clips[c].config.joints[i] < |pose|
    {
      assert ValidClip(cfg.clips[c], cfg.dof);
    }
  }

  ghost predicate StateWithin(cfg: Config, l: Limits, s: State)
    requires ValidConfig(cfg) && Valid(cfg, s)
  {
    && PoseWithin(cfg, l, s.previous)
    && (s.active.Some? ==> ValuesWithin(l, Joints(cfg, s), s.source))
  }

  /** Interpolation between frames stays between them. */
  lemma FrameWithin(cfg: Config, l: Limits, c: nat, elapsed: real)
    requires ValidConfig(cfg) && ClipsWithin(cfg, l) && c < |cfg.clips|
    ensures ValuesWithin(l, cfg.clips[c].config.joints, Frame(cfg.clips[c], elapsed))
  {
    var clip := cfg.clips[c];
    assert ValidClip(clip, cfg.dof);
    forall i | 0 <= i < |clip.config.joints|
      ensures l.lower[clip.config.joints[i]] <= Position(clip, i, elapsed) <= l.upper[clip.config.joints[i]]
    {
      PositionWithin(cfg, l, c, i, elapsed);
    }
  }

  lemma PositionWithin(cfg: Config, l: Limits, c: nat, i: nat, elapsed: real)
    requires ValidConfig(cfg) && ClipsWithin(cfg, l) && c < |cfg.clips| && i < |cfg.clips[c].config.joints|
    requires ValidClip(cfg.clips[c], cfg.dof)
    ensures var j := cfg.clips[c].config.joints[i]; l.lower[j] <= Position(cfg.clips[c], i, elapsed) <= l.upper[j]
  {
    var clip := cfg.clips[c];
    var j, first := clip.config.joints[i], Sample(clip, elapsed).Floor;
    var second := if first + 1 <= clip.frames - 1 then first + 1 else clip.frames - 1;
    hide Cell, Mix, Sample, ValidClip;
    MixWithin(Cell(clip, first, i), Cell(clip, second, i), Sample(clip, elapsed) - first as real, l.lower[j], l.upper[j]);
  }

  lemma MixPoseWithin(l: Limits, joints: seq<nat>, a: seq<real>, b: seq<real>, weight: real)
    requires ValuesWithin(l, joints, a) && ValuesWithin(l, joints, b) && 0.0 <= weight <= 1.0
    ensures ValuesWithin(l, joints, MixPose(a, b, weight))
  {
    forall i | 0 <= i < |joints|
      ensures l.lower[joints[i]] <= MixPose(a, b, weight)[i] <= l.upper[joints[i]]
    {
      MixWithin(a[i], b[i], weight, l.lower[joints[i]], l.upper[joints[i]]);
    }
  }

  lemma PlaceWithin(l: Limits, pose: seq<real>, joints: seq<nat>, values: seq<real>)
    requires Within(l, pose) && ValuesWithin(l, joints, values) && Distinct(joints)
    ensures Within(l, Place(pose, joints, values))
  {
    var placed := Place(pose, joints, values);
    forall j | 0 <= j < |pose|
      ensures l.lower[j] <= placed[j] <= l.upper[j]
    {
      if j in joints {
        var i :| 0 <= i < |joints| && joints[i] == j;
        assert placed[joints[i]] == values[i];
      }
    }
  }

  lemma PlayWithin(cfg: Config, l: Limits, s: State, elapsed: real, input: seq<real>)
    requires ValidConfig(cfg) && Valid(cfg, s) && ClipsWithin(cfg, l) && StateWithin(cfg, l, s)
    requires Within(l, input) && s.active.Some?
    ensures var (values, next) := Play(cfg, s, elapsed, input);
            && ValuesWithin(l, Joints(cfg, s), values)
            && ValuesWithin(l, Joints(cfg, s), next.source)
            && (next.active == s.active || next.active.None?)
  {
    var clip, p, joints := cfg.clips[s.active.value], Advance(cfg, s, elapsed), Joints(cfg, s);
    assert ValidClip(clip, cfg.dof);
    FrameWithin(cfg, l, s.active.value, p.playback);
    var goal := Pick(input, joints);
    assert ValuesWithin(l, joints, goal);
    if p.phase == BlendOut {
      var source := if p.ended then Frame(clip, p.playback) else s.source;
      var start := if p.ended then elapsed else s.phaseStart;
      var duration := if p.ended || s.returnDuration < 0.0 then ReturnDuration(cfg, source, goal) else s.returnDuration;
      ReturnBlendUnit(cfg, elapsed, start, duration);
      MixPoseWithin(l, joints, source, goal, ReturnBlend(cfg, elapsed, start, duration));
    } else {
      EntryBlendUnit(cfg, s, elapsed);
      MixPoseWithin(l, joints, s.source, Frame(clip, p.playback), EntryBlend(cfg, s, elapsed));
    }
  }

  lemma EntryBlendUnit(cfg: Config, s: State, elapsed: real)
    ensures 0.0 <= EntryBlend(cfg, s, elapsed) <= 1.0
  {
    hide Cubic, Fraction;
    CubicUnit(UnitClamp(Fraction(elapsed, s.phaseStart, cfg.blendIn)));
  }

  lemma ReturnBlendUnit(cfg: Config, elapsed: real, start: real, duration: real)
    ensures 0.0 <= ReturnBlend(cfg, elapsed, start, duration) <= 1.0
  {
    var progress := UnitClamp(Fraction(elapsed, start, duration));
    hide Quintic, Cubic, Fraction;
    QuinticUnit(progress);
    CubicUnit(UnitClamp(progress));
  }

  predicate CallWithin(l: Limits, c: Call) {
    match c
    case DoReset(position) => Within(l, position)
    case DoRequest(_, _) => true
    case DoApply(_, input) => Within(l, input)
  }

  lemma ApplyWithin(cfg: Config, l: Limits, s: State, elapsed: real, input: seq<real>)
    requires ValidConfig(cfg) && Valid(cfg, s) && ClipsWithin(cfg, l) && StateWithin(cfg, l, s) && Within(l, input)
    ensures Within(l, Output(cfg, s, elapsed, input))
    ensures Valid(cfg, Apply(cfg, s, elapsed, input)) && StateWithin(cfg, l, Apply(cfg, s, elapsed, input))
  {
    hide Play, Place, Pick, PoseWithin, Request, Reset, Cell;
    CallsKeepValid(cfg, s, input, NO_INTERACTION, elapsed);
    WithinPose(cfg, l, input);
    if s.active.Some? {
      PlayWithin(cfg, l, s, elapsed, input);
      assert ValidClip(cfg.clips[s.active.value], cfg.dof);
      PlaceWithin(l, input, Joints(cfg, s), Play(cfg, s, elapsed, input).0);
      WithinPose(cfg, l, Place(input, Joints(cfg, s), Play(cfg, s, elapsed, input).0));
    }
  }

  lemma RequestWithin(cfg: Config, l: Limits, s: State, r: Interaction, elapsed: real)
    requires ValidConfig(cfg) && Valid(cfg, s) && ClipsWithin(cfg, l) && StateWithin(cfg, l, s)
    ensures Valid(cfg, Request(cfg, s, r, elapsed)) && StateWithin(cfg, l, Request(cfg, s, r, elapsed))
  {
    CallsKeepValid(cfg, s, [], r, elapsed);
    forall c | 0 <= c < |cfg.clips|
      ensures ValuesWithin(l, cfg.clips[c].config.joints, Pick(s.previous, cfg.clips[c].config.joints))
    {
      assert ValidClip(cfg.clips[c], cfg.dof);
    }
  }

  /** From a position that is within limits at the joints of the clips, whatever is called with
      poses within limits, every output is within limits. */
  lemma {:induction false} TargetsStayInLimits(cfg: Config, l: Limits, s: State, calls: seq<Call>, n: nat)
    requires ValidConfig(cfg) && Valid(cfg, s) && ClipsWithin(cfg, l) && StateWithin(cfg, l, s)
    requires n <= |calls| && forall i | 0 <= i < |calls| :: CallWithin(l, calls[i])
    ensures StateWithin(cfg, l, After(cfg, s, calls, n))
    ensures n < |calls| && calls[n].DoApply? ==>
              Within(l, Output(cfg, After(cfg, s, calls, n), calls[n].elapsed, calls[n].input))
  {
    if n > 0 {
      TargetsStayInLimits(cfg, l, s, calls, n - 1);
      var before := After(cfg, s, calls, n - 1);
      match calls[n - 1]
      case DoReset(position) => if |position| == cfg.dof { WithinPose(cfg, l, position); }
      case DoRequest(r, elapsed) => RequestWithin(cfg, l, before, r, elapsed);
      case DoApply(elapsed, input) => ApplyWithin(cfg, l, before, elapsed, input);
    }
    if n < |calls| && calls[n].DoApply? {
      ApplyWithin(cfg, l, After(cfg, s, calls, n), calls[n].elapsed, calls[n].input);
    }
  }

  // ---------------------------------------------------------------- a player that was never reset

  /** Whatever is called with poses within limits, every output is within limits. */
  ghost predicate AlwaysWithin(cfg: Config, l: Limits, s: State)
    requires ValidConfig(cfg) && Valid(cfg, s)
  {
    forall calls: seq<Call>, n: nat :: n < |calls| && calls[n].DoApply? && (forall i | 0 <= i < |calls| :: CallWithin(l, calls[i]))
      ==> Within(l, Output(cfg, After(cfg, s, calls, n), calls[n].elapsed, calls[n].input))
  }

  predicate Instant(cfg: Config) { cfg.blendIn == 0.0 && cfg.blendOut == 0.0 && cfg.maxVelocity == 0.0 }

  /** Names are unique in an accepted configuration. */
  ghost predicate Unambiguous(cfg: Config) {
    forall a, b | 0 <= a < b < |cfg.clips| :: cfg.clips[a].config.name != cfg.clips[b].config.name
  }

  lemma FindNamed(cfg: Config, c: nat)
    requires Unambiguous(cfg) && c < |cfg.clips|
    ensures Find(cfg.clips, cfg.clips[c].config.name, 0) == Some(c)
  {}

  /** Without blends a return ends with the tick in which it is first seen. */
  predicate Prompt(s: State) { s.active.Some? && s.status.phase == BlendOut ==> s.returnDuration < 0.0 }

  lemma InstantApply(cfg: Config, l: Limits, s: State, elapsed: real, input: seq<real>)
    requires ValidConfig(cfg) && Valid(cfg, s) && ClipsWithin(cfg, l) && Within(l, input) && Instant(cfg) && Prompt(s)
    ensures Within(l, Output(cfg, s, elapsed, input)) && Prompt(Apply(cfg, s, elapsed, input))
  {
    if Applicable(cfg, elapsed, input) && s.active.Some? {
      var clip, p, joints := cfg.clips[s.active.value], Advance(cfg, s, elapsed), Joints(cfg, s);
      assert ValidClip(clip, cfg.dof);
      FrameWithin(cfg, l, s.active.value, p.playback);
      hide Frame, Within, ValidClip, Place, ClipsWithin, Duration;
      WholeMix(if p.ended then Frame(clip, p.playback) else s.source, Pick(input, joints));
      PickWithin(cfg, l, s, input);
      PlaceWithin(l, input, joints, Play(cfg, s, elapsed, input).0);
    }
  }

  lemma PickWithin(cfg: Config, l: Limits, s: State, input: seq<real>)
    requires ValidConfig(cfg) && Valid(cfg, s) && s.active.Some? && Within(l, input) && |input| == cfg.dof
    ensures Distinct(Joints(cfg, s)) && (forall i | 0 <= i < |Joints(cfg, s)| :: Joints(cfg, s)[i] < |input|)
    ensures ValuesWithin(l, Joints(cfg, s), Pick(input, Joints(cfg, s)))
  {
    assert ValidClip(cfg.clips[s.active.value], cfg.dof);
  }

  lemma WholeMix(a: seq<real>, b: seq<real>)
    requires |a| == |b|
    ensures MixPose(a, b, 1.0) == b
  {}

  lemma NoMix(a: seq<real>, b: seq<real>)
    requires |a| == |b|
    ensures MixPose(a, b, 0.0) == a
  {}

  lemma {:induction false} InstantStays(cfg: Config, l: Limits, calls: seq<Call>, n: nat)
    requires ValidConfig(cfg) && ClipsWithin(cfg, l) && Instant(cfg)
    requires n <= |calls| && forall i | 0 <= i < |calls| :: CallWithin(l, calls[i])
    ensures Prompt(After(cfg, Initial(cfg), calls, n))
  {
    if n > 0 {
      InstantStays(cfg, l, calls, n - 1);
      var before := After(cfg, Initial(cfg), calls, n - 1);
      hide Apply;
      match calls[n - 1]
      case DoReset(_) =>
      case DoRequest(_, _) =>
      case DoApply(elapsed, input) => InstantApply(cfg, l, before, elapsed, input);
    }
  }

  /** The zero pose a new player starts from comes out at the joints of a clip. */
  lemma FreshEscapes(cfg: Config, l: Limits, pose: seq<real>, c: nat) returns (calls: seq<Call>)
    requires ValidConfig(cfg) && Unambiguous(cfg) && !Instant(cfg) && Within(l, pose) && |pose| == cfg.dof
    requires c < |cfg.clips| && !ValuesWithin(l, cfg.clips[c].config.joints, Zeros(|cfg.clips[c].config.joints|))
    ensures forall i | 0 <= i < |calls| :: CallWithin(l, calls[i])
    ensures calls != [] && var n := |calls| - 1;
            calls[n].DoApply? && !Within(l, Output(cfg, After(cfg, Initial(cfg), calls, n), calls[n].elapsed, calls[n].input))
  {
    hide Request, Output, Within, ValuesWithin, Initial, Valid, After;
    var start, stop := Interaction(1, Start, cfg.clips[c].config.name), Interaction(2, Cancel, "");
    FreshStart(cfg, c, start, stop);
    var begun := Request(cfg, Initial(cfg), start, 0.0);
    if cfg.blendIn > 0.0 {
      calls := [DoRequest(start, 0.0), DoApply(0.0, pose)];
      AfterOne(cfg, Initial(cfg), calls);
      EntryShowsSource(cfg, l, begun, pose);
    } else {
      calls := [DoRequest(start, 0.0), DoRequest(stop, 0.0), DoApply(0.0, pose)];
      AfterOne(cfg, Initial(cfg), calls);
      ReturnShowsSource(cfg, l, Request(cfg, begun, stop, 0.0), pose);
    }
  }

  /** A new player that starts a clip, and one that cancels it before its first tick. */
  lemma FreshStart(cfg: Config, c: nat, start: Interaction, stop: Interaction)
    requires ValidConfig(cfg) && Unambiguous(cfg) && c < |cfg.clips|
    requires start == Interaction(1, Start, cfg.clips[c].config.name) && stop == Interaction(2, Cancel, "")
    ensures Valid(cfg, Initial(cfg))
    ensures var s := Request(cfg, Initial(cfg), start, 0.0);
            && Valid(cfg, s) && s.active == Some(c) && s.source == Zeros(|cfg.clips[c].config.joints|)
            && s.status.phase == BlendIn && s.phaseStart == 0.0
            && var t := Request(cfg, s, stop, 0.0);
               && Valid(cfg, t) && t.active == Some(c) && t.source == Zeros(|cfg.clips[c].config.joints|)
               && t.status.phase == BlendOut && t.phaseStart == 0.0 && t.returnDuration < 0.0
  {
    FindNamed(cfg, c);
    assert ValidClip(cfg.clips[c], cfg.dof);
  }

  lemma AfterOne(cfg: Config, s: State, calls: seq<Call>)
    requires ValidConfig(cfg) && Valid(cfg, s) && calls != [] && calls[0].DoRequest?
    ensures After(cfg, s, calls, 1) == Request(cfg, s, calls[0].request, calls[0].elapsed)
    ensures |calls| > 1 && calls[1].DoRequest? ==>
              After(cfg, s, calls, 2) ==
              Request(cfg, Request(cfg, s, calls[0].request, calls[0].elapsed), calls[1].request, calls[1].elapsed)
  {
    hide Request;
    assert After(cfg, s, calls, 0) == s;
  }

  /** Values placed into a pose are out of limits where they were before. */
  lemma PlaceEscapes(l: Limits, pose: seq<real>, joints: seq<nat>, values: seq<real>)
    requires Within(l, pose) && |values| == |joints| && Distinct(joints) && !ValuesWithin(l, joints, values)
    requires forall i | 0 <= i < |joints| :: joints[i] < |pose|
    ensures !Within(l, Place(pose, joints, values))
  {
    var i :| 0 <= i < |joints| && !(l.lower[joints[i]] <= values[i] <= l.upper[joints[i]]);
    assert Place(pose, joints, values)[joints[i]] == values[i];
  }

  lemma EntryShowsSource(cfg: Config, l: Limits, s: State, pose: seq<real>)
    requires ValidConfig(cfg) && Valid(cfg, s) && s.active.Some? && s.status.phase == BlendIn && cfg.blendIn > 0.0
    requires s.phaseStart == 0.0 && Within(l, pose) && |pose| == cfg.dof && !ValuesWithin(l, Joints(cfg, s), s.source)
    ensures !Within(l, Output(cfg, s, 0.0, pose))
  {
    var clip, p := cfg.clips[s.active.value], Advance(cfg, s, 0.0);
    assert ValidClip(clip, cfg.dof);
    assert (0.0 - s.phaseStart) / cfg.blendIn == 0.0;
    assert EntryBlend(cfg, s, 0.0) == 0.0;
    NoMix(s.source, Frame(clip, p.playback));
    PlaceEscapes(l, pose, Joints(cfg, s), s.source);
  }

  lemma ReturnShowsSource(cfg: Config, l: Limits, s: State, pose: seq<real>)
    requires ValidConfig(cfg) && Valid(cfg, s) && s.active.Some? && s.status.phase == BlendOut && s.returnDuration < 0.0
    requires s.phaseStart == 0.0 && Within(l, pose) && |pose| == cfg.dof && !ValuesWithin(l, Joints(cfg, s), s.source)
    requires cfg.blendOut > 0.0 || cfg.maxVelocity > 0.0
    ensures !Within(l, Output(cfg, s, 0.0, pose))
  {
    var joints := Joints(cfg, s);
    assert ValidClip(cfg.clips[s.active.value], cfg.dof);
    var goal := Pick(pose, joints);
    var duration := ReturnDuration(cfg, s.source, goal);
    PositiveReturn(cfg, l, joints, s.source, pose);
    assert (0.0 - s.phaseStart) / duration == 0.0;
    assert ReturnBlend(cfg, 0.0, s.phaseStart, duration) == 0.0;
    NoMix(s.source, goal);
    PlaceEscapes(l, pose, joints, s.source);
  }

  /** A return from outside the limits to a pose within them takes some time. */
  lemma PositiveReturn(cfg: Config, l: Limits, joints: seq<nat>, source: seq<real>, pose: seq<real>)
    requires cfg.blendOut >= 0.0 && cfg.maxVelocity >= 0.0 && (cfg.blendOut > 0.0 || cfg.maxVelocity > 0.0)
    requires Within(l, pose) && |source| == |joints| && (forall i | 0 <= i < |joints| :: joints[i] < |pose|)
    requires !ValuesWithin(l, joints, source)
    ensures ReturnDuration(cfg, source, Pick(pose, joints)) > 0.0
  {
    var goal := Pick(pose, joints);
    if cfg.maxVelocity > 0.0 {
      var i :| 0 <= i < |joints| && !(l.lower[joints[i]] <= source[i] <= l.upper[joints[i]]);
      assert goal[i] == pose[joints[i]] != source[i];
      PositiveQuotient(1.875 * Abs(goal[i] - source[i]), cfg.maxVelocity);
    }
  }

  lemma PositiveQuotient(x: real, y: real)
    requires x > 0.0 && y > 0.0
    ensures x / y > 0.0
  {}

  /** A new player that has not been reset starts from the zero pose. It keeps all limits in all
      runs exactly if zero is allowed at every joint of every clip, or if nothing is blended. */
  lemma FreshExactly(cfg: Config, l: Limits, pose: seq<real>)
    requires ValidConfig(cfg) && Unambiguous(cfg) && ClipsWithin(cfg, l) && Within(l, pose)
    ensures Valid(cfg, Initial(cfg))
    ensures AlwaysWithin(cfg, l, Initial(cfg)) <==> Instant(cfg) || PoseWithin(cfg, l, Zeros(cfg.dof))
  {
    if Instant(cfg) {
      forall calls: seq<Call>, n: nat | n < |calls| && calls[n].DoApply? && (forall i | 0 <= i < |calls| :: CallWithin(l, calls[i]))
        ensures Within(l, Output(cfg, After(cfg, Initial(cfg), calls, n), calls[n].elapsed, calls[n].input))
      {
        InstantStays(cfg, l, calls, n);
        InstantApply(cfg, l, After(cfg, Initial(cfg), calls, n), calls[n].elapsed, calls[n].input);
      }
    } else if PoseWithin(cfg, l, Zeros(cfg.dof)) {
      forall calls: seq<Call>, n: nat | n < |calls| && calls[n].DoApply? && (forall i | 0 <= i < |calls| :: CallWithin(l, calls[i]))
        ensures Within(l, Output(cfg, After(cfg, Initial(cfg), calls, n), calls[n].elapsed, calls[n].input))
      {
        TargetsStayInLimits(cfg, l, Initial(cfg), calls, n);
      }
    } else {
      var c, i :| 0 <= c < |cfg.clips| && 0 <= i < |cfg.clips[c].config.joints| &&
        var j := cfg.clips[c].config.joints[i]; !(l.lower[j] <= Zeros(cfg.dof)[j] <= l.upper[j]);
      var calls := FreshEscapes(cfg, l, pose, c);
      assert calls[|calls| - 1].DoApply?;
    }
  }

  // ---------------------------------------------------------------- return velocity

  /** Where a return from `source` to `goal` is at one time. */
  function Way(cfg: Config, source: seq<real>, goal: seq<real>, start: real, duration: real, elapsed: real): seq<real>
    requires |source| == |goal|
  {
    MixPose(source, goal, ReturnBlend(cfg, elapsed, start, duration))
  }

  /** The return time is long enough for every joint. */
  predicate LongEnough(cfg: Config, source: seq<real>, goal: seq<real>, duration: real) {
    && |source| == |goal| && duration >= 0.0
    && forall i | 0 <= i < |source| :: 1.875 * Abs(goal[i] - source[i]) <= Times(cfg.maxVelocity, duration)
  }

  lemma ReturnTimeIsLongEnough(cfg: Config, source: seq<real>, goal: seq<real>)
    requires |source| == |goal| && cfg.maxVelocity > 0.0 && cfg.blendOut >= 0.0
    ensures LongEnough(cfg, source, goal, ReturnDuration(cfg, source, goal))
  {
    var duration := ReturnTime(cfg, source, goal, |source|);
    forall i | 0 <= i < |source|
      ensures 1.875 * Abs(goal[i] - source[i]) <= Times(cfg.maxVelocity, duration)
    {
      Multiplied(1.875 * Abs(goal[i] - source[i]), cfg.maxVelocity, duration);
    }
  }

  lemma Multiplied(x: real, v: real, d: real)
    requires v > 0.0 && d >= x / v
    ensures x <= Times(v, d)
  {
    Scale(x / v, d, v);
    assert v * (x / v) == x;
  }

  /** Between any two times no joint on its way moves faster than allowed. */
  lemma WaySpeed(cfg: Config, source: seq<real>, goal: seq<real>, start: real, duration: real, t: real, u: real, i: nat)
    requires cfg.maxVelocity > 0.0 && LongEnough(cfg, source, goal, duration) && i < |source| && t <= u
    ensures Abs(Way(cfg, source, goal, start, duration, u)[i] - Way(cfg, source, goal, start, duration, t)[i])
         <= Times(cfg.maxVelocity, u - t)
  {
    hide *;
    var a, b := UnitClamp(Fraction(t, start, duration)), UnitClamp(Fraction(u, start, duration));
    LongEnoughAt(cfg, source, goal, duration, i);
    WayAt(cfg, source, goal, start, duration, t, i);
    WayAt(cfg, source, goal, start, duration, u, i);
    MixGap(source[i], goal[i], Quintic(a), Quintic(b));
    FractionGap(t, u, start, duration);
    QuinticSlope(a, b);
    Steepest(goal[i] - source[i], Quintic(b) - Quintic(a), b - a, cfg.maxVelocity, duration, u - t);
  }

  lemma LongEnoughAt(cfg: Config, source: seq<real>, goal: seq<real>, duration: real, i: nat)
    requires LongEnough(cfg, source, goal, duration) && i < |source|
    ensures |source| == |goal| && duration >= 0.0
    ensures 1.875 * Abs(goal[i] - source[i]) <= Times(cfg.maxVelocity, duration)
  {}

  lemma WayAt(cfg: Config, source: seq<real>, goal: seq<real>, start: real, duration: real, t: real, i: nat)
    requires cfg.maxVelocity > 0.0 && |source| == |goal| && i < |source|
    ensures Way(cfg, source, goal, start, duration, t)[i]
         == Mix(source[i], goal[i], Quintic(UnitClamp(Fraction(t, start, duration))))
  {
    hide Quintic, Mix, Fraction;
  }

  lemma FractionGap(t: real, u: real, start: real, duration: real)
    requires t <= u && duration >= 0.0
    ensures var a, b := UnitClamp(Fraction(t, start, duration)), UnitClamp(Fraction(u, start, duration));
            0.0 <= a <= b <= 1.0 && Times(duration, b - a) <= u - t
  {
    if duration > 0.0 {
      var x, y := (t - start) / duration, (u - start) / duration;
      var a, b := UnitClamp(x), UnitClamp(y);
      QuotientOrder(t - start, u - start, duration);
      assert b - a <= y - x;
      Scale(b - a, y - x, duration);
      QuotientGap(t - start, u - start, duration);
    }
  }

  lemma QuotientGap(x: real, y: real, d: real)
    requires d > 0.0
    ensures d * (y / d - x / d) == y - x
  {}

  /** |gap| * rise, with rise at most 15/8 of the step, stays within the speed limit. */
  lemma Steepest(gap: real, rise: real, step: real, v: real, duration: real, time: real)
    requires 0.0 <= rise <= 1.875 * step && v > 0.0 && duration >= 0.0
    requires 1.875 * Abs(gap) <= Times(v, duration) && Times(duration, step) <= time
    ensures Abs(Times(gap, rise)) <= Times(v, time)
  {
    var size := Abs(gap);
    assert Abs(gap * rise) == size * rise;
    Scale(rise, 1.875 * step, size);
    assert size * (1.875 * step) == (1.875 * size) * step;
    Scale(1.875 * size, Times(v, duration), step);
    assert Times(v, duration) * step == v * Times(duration, step);
    Scale(Times(duration, step), time, v);
  }

  /** A return is under way and its duration is set. */
  ghost predicate Returning(cfg: Config, s: State, ready: seq<real>)
    requires ValidConfig(cfg) && Valid(cfg, s)
  {
    && |ready| == cfg.dof && s.active.Some? && s.status.phase == BlendOut && s.returnDuration >= 0.0
    && LongEnough(cfg, s.source, Goal(cfg, s, ready), s.returnDuration)
  }

  function Goal(cfg: Config, s: State, ready: seq<real>): seq<real>
    requires ValidConfig(cfg) && Valid(cfg, s) && s.active.Some? && |ready| == cfg.dof
  {
    Pick(ready, Joints(cfg, s))
  }

  /** The pose of the whole robot at one time of the return. */
  function Pose(cfg: Config, s: State, ready: seq<real>, elapsed: real): (pose: seq<real>)
    requires ValidConfig(cfg) && Valid(cfg, s) && s.active.Some? && |ready| == cfg.dof
    ensures |pose| == cfg.dof
  {
    Place(ready, Joints(cfg, s), Way(cfg, s.source, Goal(cfg, s, ready), s.phaseStart, s.returnDuration, elapsed))
  }

  lemma PoseSpeed(cfg: Config, s: State, ready: seq<real>, t: real, u: real, j: nat)
    requires ValidConfig(cfg) && Valid(cfg, s) && cfg.maxVelocity > 0.0 && Returning(cfg, s, ready) && j < cfg.dof
    requires t <= u
    ensures Abs(Pose(cfg, s, ready, u)[j] - Pose(cfg, s, ready, t)[j]) <= Times(cfg.maxVelocity, u - t)
  {
    var joints, goal := Joints(cfg, s), Goal(cfg, s, ready);
    if j in joints {
      var i :| 0 <= i < |joints| && joints[i] == j;
      assert Pose(cfg, s, ready, t)[joints[i]] == Way(cfg, s.source, goal, s.phaseStart, s.returnDuration, t)[i];
      assert Pose(cfg, s, ready, u)[joints[i]] == Way(cfg, s.source, goal, s.phaseStart, s.returnDuration, u)[i];
      WaySpeed(cfg, s.source, goal, s.phaseStart, s.returnDuration, t, u, i);
    } else {
      Nonnegative(cfg.maxVelocity, u - t);
    }
  }

  /** The same return, whatever has been requested meanwhile. */
  predicate SameReturn(s: State, t: State) {
    && t.active == s.active && t.source == s.source && t.phaseStart == s.phaseStart
    && t.returnDuration == s.returnDuration && t.status.phase == s.status.phase
  }

  /** Nothing that is requested during a return changes it, a repeated cancel included. */
  lemma RequestKeepsReturn(cfg: Config, s: State, r: Interaction, elapsed: real)
    requires ValidConfig(cfg) && Valid(cfg, s) && s.active.Some? && s.status.phase == BlendOut
    ensures SameReturn(s, Request(cfg, s, r, elapsed))
  {}

  /** A tick during a return puts out the return's pose and either goes on or finishes. */
  lemma ApplyFollowsReturn(cfg: Config, s: State, ready: seq<real>, elapsed: real)
    requires ValidConfig(cfg) && Valid(cfg, s) && Returning(cfg, s, ready) && elapsed >= 0.0
    ensures Output(cfg, s, elapsed, ready) == Pose(cfg, s, ready, elapsed)
    ensures var t := Apply(cfg, s, elapsed, ready); SameReturn(s, t) || t.active.None?
  {
    assert Advance(cfg, s, elapsed).phase == BlendOut && !Advance(cfg, s, elapsed).ended;
  }

  /** The tick that enters the return, after a cancel or at the clip's natural end, fixes a
      duration that is long enough and puts out the return's pose. */
  lemma EntryStartsReturn(cfg: Config, s: State, ready: seq<real>, elapsed: real)
    requires ValidConfig(cfg) && Valid(cfg, s) && cfg.maxVelocity > 0.0 && |ready| == cfg.dof && elapsed >= 0.0
    requires s.active.Some? && (s.status.phase == BlendOut ==> s.returnDuration < 0.0)
    requires Apply(cfg, s, elapsed, ready).status.phase == BlendOut
    ensures Valid(cfg, Apply(cfg, s, elapsed, ready)) && Returning(cfg, Apply(cfg, s, elapsed, ready), ready)
    ensures Output(cfg, s, elapsed, ready) == Pose(cfg, Apply(cfg, s, elapsed, ready), ready, elapsed)
  {
    CallsKeepValid(cfg, s, ready, NO_INTERACTION, elapsed);
    var p := Advance(cfg, s, elapsed);
    assert p.phase == BlendOut;
    var source := if p.ended then Frame(cfg.clips[s.active.value], p.playback) else s.source;
    ReturnTimeIsLongEnough(cfg, source, Goal(cfg, s, ready));
  }

  /** Requests of any kind and ticks towards the same ready pose. */
  predicate Undisturbed(calls: seq<Call>, ready: seq<real>) {
    forall i | 0 <= i < |calls| ::
      calls[i].DoRequest? || (calls[i].DoApply? && calls[i].input == ready && calls[i].elapsed >= 0.0)
  }

  /** The clip is still active after each of the first n calls. */
  ghost predicate StillActive(cfg: Config, s: State, calls: seq<Call>, n: nat)
    requires ValidConfig(cfg) && Valid(cfg, s) && n <= |calls|
  {
    forall k | 0 <= k <= n :: After(cfg, s, calls, k).active.Some?
  }

  /** Until the return has finished every tick puts out the pose of the one return. */
  lemma {:induction false} ReturnIsOnePath(cfg: Config, s: State, ready: seq<real>, calls: seq<Call>, n: nat)
    requires ValidConfig(cfg) && Valid(cfg, s) && Returning(cfg, s, ready) && Undisturbed(calls, ready)
    requires n <= |calls| && StillActive(cfg, s, calls, n)
    ensures SameReturn(s, After(cfg, s, calls, n))
    ensures n < |calls| && calls[n].DoApply? ==>
              Output(cfg, After(cfg, s, calls, n), calls[n].elapsed, ready) == Pose(cfg, s, ready, calls[n].elapsed)
  {
    if n > 0 {
      ReturnIsOnePath(cfg, s, ready, calls, n - 1);
      var before := After(cfg, s, calls, n - 1);
      match calls[n - 1]
      case DoRequest(r, elapsed) => RequestKeepsReturn(cfg, before, r, elapsed);
      case DoApply(elapsed, _) => ApplyFollowsReturn(cfg, before, ready, elapsed);
      assert After(cfg, s, calls, n).active.Some?;
    }
    if n < |calls| && calls[n].DoApply? {
      ApplyFollowsReturn(cfg, After(cfg, s, calls, n), ready, calls[n].elapsed);
    }
  }

  /** From the tick that enters the return until the one that finishes it, any two ticks move
      every joint by at most the permitted speed times the time between them. */
  lemma ReturnVelocityBound(cfg: Config, s: State, ready: seq<real>, entered: real, calls: seq<Call>, m: nat, n: nat, j: nat)
    requires ValidConfig(cfg) && Valid(cfg, s) && cfg.maxVelocity > 0.0 && |ready| == cfg.dof && entered >= 0.0
    requires s.active.Some? && (s.status.phase == BlendOut ==> s.returnDuration < 0.0)
    requires Apply(cfg, s, entered, ready).status.phase == BlendOut
    requires Valid(cfg, Apply(cfg, s, entered, ready)) && Undisturbed(calls, ready)
    requires m < |calls| && n < |calls| && calls[m].DoApply? && calls[n].DoApply? && j < cfg.dof
    requires StillActive(cfg, Apply(cfg, s, entered, ready), calls, m) && StillActive(cfg, Apply(cfg, s, entered, ready), calls, n)
    ensures var first := Apply(cfg, s, entered, ready);
            var atM := Output(cfg, After(cfg, first, calls, m), calls[m].elapsed, ready);
            var atN := Output(cfg, After(cfg, first, calls, n), calls[n].elapsed, ready);
            && (calls[m].elapsed <= calls[n].elapsed ==>
                  Abs(atN[j] - atM[j]) <= Times(cfg.maxVelocity, calls[n].elapsed - calls[m].elapsed))
            && (entered <= calls[n].elapsed ==>
                  Abs(atN[j] - Output(cfg, s, entered, ready)[j]) <= Times(cfg.maxVelocity, calls[n].elapsed - entered))
  {
    hide *;
    var first := Apply(cfg, s, entered, ready);
    EntryStartsReturn(cfg, s, ready, entered);
    ReturnIsOnePath(cfg, first, ready, calls, m);
    ReturnIsOnePath(cfg, first, ready, calls, n);
    if calls[m].elapsed <= calls[n].elapsed {
      PoseSpeed(cfg, first, ready, calls[m].elapsed, calls[n].elapsed, j);
    }
    if entered <= calls[n].elapsed {
      PoseSpeed(cfg, first, ready, entered, calls[n].elapsed, j);
    }
  }

  /** A cancelled motion also leaves the last output before the cancel within the speed. */
  lemma CancelVelocityBound(cfg: Config, s: State, ready: seq<real>, r: Interaction, cancelled: real, elapsed: real, i: nat)
    requires ValidConfig(cfg) && Valid(cfg, s) && cfg.maxVelocity > 0.0 && |ready| == cfg.dof
    requires DecideRequest(cfg, s, r).CancelActive? && 0.0 <= cancelled <= elapsed && i < |Joints(cfg, s)|
    ensures var joint := Joints(cfg, s)[i];
            Valid(cfg, Request(cfg, s, r, cancelled)) && joint < cfg.dof &&
            Abs(Output(cfg, Request(cfg, s, r, cancelled), elapsed, ready)[joint] - s.previous[joint])
              <= Times(cfg.maxVelocity, elapsed - cancelled)
  {
    CallsKeepValid(cfg, s, [], r, cancelled);
    var t := Request(cfg, s, r, cancelled);
    var goal := Goal(cfg, t, ready);
    var duration := ReturnDuration(cfg, t.source, goal);
    ReturnTimeIsLongEnough(cfg, t.source, goal);
    assert !Advance(cfg, t, elapsed).ended && Advance(cfg, t, elapsed).phase == BlendOut;
    assert Play(cfg, t, elapsed, ready).0 == Way(cfg, t.source, goal, cancelled, duration, elapsed);
    WaySpeed(cfg, t.source, goal, cancelled, duration, cancelled, elapsed, i);
    WayStart(cfg, t.source, goal, cancelled, duration, i);
  }

  lemma WayStart(cfg: Config, source: seq<real>, goal: seq<real>, start: real, duration: real, i: nat)
    requires |source| == |goal| && i < |source| && cfg.maxVelocity > 0.0
    requires duration >= 0.0 && LongEnough(cfg, source, goal, duration)
    ensures Way(cfg, source, goal, start, duration, start)[i] == source[i]
  {
    if duration > 0.0 {
      QuinticUnit(0.0);
    } else {
      QuinticUnit(1.0);
    }
  }
}
