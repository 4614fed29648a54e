/** Command-routed stance and motion models of stance_motion_policy_adapter.cpp: the velocity
    filter, the mode hysteresis, and the freeze around gestures. */
module Stance {
  import opened Curves
  import opened RobotBase
  import P = Player

  /** Three axes: forward, sideways, turning. */
  datatype Settings = Settings(
    up: seq<real>, down: seq<real>, stand: seq<real>, forward: real, fast: real, turnScale: real,
    stance: seq<real>, hasRun: bool, releaseFrames: nat, indices: seq<nat>, neutral: seq<real>,
    scaledHistory: bool, scale: seq<real>, dim: nat)

  predicate ValidSettings(cfg: Settings) {
    && |cfg.up| == |cfg.down| == |cfg.stand| == |cfg.stance| == 3
    && (forall a | 0 <= a < 3 :: cfg.up[a] > 0.0 && cfg.down[a] > 0.0 && cfg.stand[a] > 0.0)
    && cfg.stand[0] < cfg.forward < cfg.fast && cfg.turnScale > 0.0
    && |cfg.neutral| == |cfg.indices| && P.Distinct(cfg.indices)
    && (forall i | 0 <= i < |cfg.indices| :: cfg.indices[i] < cfg.dim)
    && cfg.dim > 0 && (|cfg.scale| == 1 || |cfg.scale| == cfg.dim)
  }

  /** None stands for a component that is not finite. */
  type Command = seq<Option<real>>

  const ORIGIN := [0.0, 0.0, 0.0]

  const ZERO_BAND := 0.000000001

  predicate Zero(command: Command) {
    forall a | 0 <= a < |command| :: command[a].Some? && Abs(command[a].value) < ZERO_BAND
  }

  datatype Executor = Primary | Motion | Running

  /** `waits` stays set after a gesture until the operator lets go of the stick. */
  datatype State = State(
    filtered: seq<real>, model: seq<real>, mode: nat, name: string, requested: Command, waits: bool,
    observing: bool, releaseLeft: nat, sequence: nat, rejected: InteractionStatus, history: seq<real>)

  predicate Valid(cfg: Settings, s: State) {
    |s.filtered| == 3 && |s.model| == 3 && |s.requested| == 3 && s.mode <= 3 && |s.history| == cfg.dim
  }

  function Reset(cfg: Settings): State {
    State(ORIGIN, cfg.stance, 0, "", [Some(0.0), Some(0.0), Some(0.0)], false, false, 0, 0, NO_STATUS, Zeros(cfg.dim))
  }

  // ---------------------------------------------------------------- velocity filter

  /** One axis moves towards its command, by a step that depends on whether it speeds up. */
  function Step(current: real, command: real, up: real, down: real): real
    requires up > 0.0 && down > 0.0
  {
    var delta := command - current;
    var step := if current == 0.0 || Times(current, delta) >= 0.0 then up else down;
    current + Clamp(delta, -step, step)
  }

  /** The filter after the first n axes of a command. */
  function Filtered(cfg: Settings, filtered: seq<real>, command: Command, n: nat): (r: seq<real>)
    requires ValidSettings(cfg) && |filtered| == 3 && n <= |command| == 3
    requires forall a | 0 <= a < n :: command[a].Some?
    ensures |r| == 3
    ensures forall a | 0 <= a < n :: r[a] == Step(filtered[a], command[a].value, cfg.up[a], cfg.down[a])
    ensures forall a | n <= a < 3 :: r[a] == filtered[a]
  {
    if n == 0 then filtered
    else
      Filtered(cfg, filtered, command, n - 1)[n - 1 := Step(filtered[n - 1], command[n - 1].value, cfg.up[n - 1], cfg.down[n - 1])]
  }

  /** The first axis that is not finite, or three. */
  function Usable(command: Command, from: nat): (n: nat)
    requires from <= |command| == 3
    ensures from <= n <= 3 && (forall a | from <= a < n :: command[a].Some?) && (n < 3 ==> command[n].None?)
    decreases 3 - from
  {
    if from < 3 && command[from].Some? then Usable(command, from + 1) else from
  }

  // ---------------------------------------------------------------- routing

  predicate LinearZero(cfg: Settings, v: seq<real>)
    requires ValidSettings(cfg) && |v| == 3
  {
    Abs(v[0]) < cfg.stand[0] && Abs(v[1]) < cfg.stand[1]
  }

  predicate NearZero(cfg: Settings, v: seq<real>)
    requires ValidSettings(cfg) && |v| == 3
  {
    LinearZero(cfg, v) && Abs(v[2]) < cfg.stand[2]
  }

  function NextMode(cfg: Settings, mode: nat, v: seq<real>): (next: nat)
    requires ValidSettings(cfg) && |v| == 3 && mode <= 3
    ensures next <= 3
  {
    if mode == 0 then if NearZero(cfg, v) then 0 else 1
    else if mode == 1 then if v[0] > cfg.forward then 2 else if NearZero(cfg, v) then 0 else 1
    else if mode == 2 then if v[0] < cfg.forward then 1 else if v[0] > cfg.fast then 3 else 2
    else if v[0] < cfg.fast then 2 else 3
  }

  /** Turning on the spot is done by the stance model. */
  predicate Turns(cfg: Settings, mode: nat, v: seq<real>)
    requires ValidSettings(cfg) && |v| == 3
  {
    mode == 1 && LinearZero(cfg, v) && Abs(v[2]) > cfg.stand[2]
  }

  function Route(cfg: Settings, mode: nat, v: seq<real>): (Executor, seq<real>, string)
    requires ValidSettings(cfg) && |v| == 3 && mode <= 3
  {
    if mode == 0 then (Primary, cfg.stance, "stance")
    else if Turns(cfg, mode, v) then (Primary, v[2 := Times(v[2], cfg.turnScale)], "turn")
    else if mode == 3 && cfg.hasRun then (Running, v, "run")
    else (Motion, v, "motion")
  }

  predicate WaitsNow(s: State, busy: bool, command: Command) { busy || (s.waits && !Zero(command)) }

  /** The executor of one tick; a command that is not finite is an error. The legs stand still
      during a gesture and after it until the command is zero. */
  function SelectExecutor(cfg: Settings, s: State, gestures: bool, busy: bool, command: Command): (r: (State, Option<Executor>))
    requires ValidSettings(cfg) && Valid(cfg, s) && |command| == 3
    ensures Valid(cfg, r.0)
  {
    var heard := s.(requested := command, waits := if gestures then WaitsNow(s, busy, command) else s.waits);
    if gestures && WaitsNow(s, busy, command) then
      (heard.(filtered := ORIGIN, model := cfg.stance, mode := 0, name := "stance"), Some(Primary))
    else
      var n := Usable(command, 0);
      var filtered := Filtered(cfg, s.filtered, command, n);
      if n < 3 then (heard.(filtered := filtered), None)
      else
        var (executor, model, name) := Route(cfg, s.mode, filtered);
        (heard.(filtered := filtered, model := model, mode := NextMode(cfg, s.mode, filtered), name := name), Some(executor))
  }

  // ---------------------------------------------------------------- gestures

  predicate Fresh(s: State, r: Interaction) { r.operation != NoOperation && r.sequence > s.sequence }

  /** Walking legs are never frozen to begin a gesture: the operator has to stop first. */
  predicate Refuses(s: State, busy: bool, r: Interaction) {
    r.operation == Start && !busy && (s.name != "stance" || !Zero(s.requested) || s.waits)
  }

  /** What is kept here of a request; the rest goes to the trajectory adapter. */
  function Hear(s: State, gestures: bool, busy: bool, r: Interaction): State {
    if !gestures || !Fresh(s, r) then s
    else
      s.(sequence := r.sequence,
         rejected := if Refuses(s, busy, r) then InteractionStatus(r.sequence, false, Rejected, 0.0, r.action) else NO_STATUS)
  }

  predicate Forwards(s: State, gestures: bool, busy: bool, r: Interaction) {
    gestures && Fresh(s, r) && !Refuses(s, busy, r)
  }

  // ---------------------------------------------------------------- actions

  /** `weight` is the trajectory's weight of this tick. */
  function Observe(cfg: Settings, s: State, gestures: bool, weight: real): State {
    var observing := gestures && weight > 0.0;
    s.(observing := observing,
       releaseLeft := if observing then cfg.releaseFrames else if s.releaseLeft > 0 then s.releaseLeft - 1 else 0)
  }

  function ScaleAt(cfg: Settings, i: nat): real
    requires ValidSettings(cfg) && i < cfg.dim
  {
    if cfg.scaledHistory then cfg.scale[if |cfg.scale| == 1 then 0 else i] else 1.0
  }

  /** The model's own output, as its history keeps it. */
  function HistoryOf(cfg: Settings, action: seq<real>): (r: seq<real>)
    requires ValidSettings(cfg) && |action| == cfg.dim
    ensures |r| == cfg.dim
  {
    seq(|action|, i requires 0 <= i < |action| => action[i] * ScaleAt(cfg, i))
  }

  predicate Overrides(s: State) { s.observing || s.releaseLeft > 0 }

  /** The action handed on to the trajectory: neutral where a trajectory owns the joints. */
  function HandedOn(cfg: Settings, s: State, action: seq<real>): (r: seq<real>)
    requires ValidSettings(cfg) && |action| == cfg.dim
    ensures |r| == cfg.dim
  {
    if Overrides(s) then P.Place(action, cfg.indices, cfg.neutral) else action
  }

  // ---------------------------------------------------------------- properties of one tick

  /** The filter never overshoots, moves by at most one step, and reaches what is in reach. */
  lemma StepApproaches(current: real, command: real, up: real, down: real)
    requires up > 0.0 && down > 0.0
    ensures var next := Step(current, command, up, down);
            && Min(current, command) <= next <= Max(current, command)
            && Abs(next - current) <= Max(up, down)
            && (Abs(command - current) <= Min(up, down) ==> next == command)
            && (next == current ==> command == current)
  {}

  /** The mode changes by at most one level a tick, and the executor follows the old mode. */
  lemma ModeMovesByOne(cfg: Settings, mode: nat, v: seq<real>)
    requires ValidSettings(cfg) && |v| == 3 && mode <= 3
    ensures var next := NextMode(cfg, mode, v); next <= mode + 1 && mode <= next + 1
    ensures Route(cfg, mode, v).0 == Running ==> mode == 3 && cfg.hasRun
    ensures mode == 0 ==> Route(cfg, mode, v).0 == Primary && Route(cfg, mode, v).1 == cfg.stance
  {}

  // ---------------------------------------------------------------- runs

  /** The calls of inference ticks, with what the trajectory adapter showed at each. */
  datatype Call =
    | DoSelect(busy: bool, command: Command)
    | DoHear(busyThen: bool, request: Interaction)
    | DoObserve(weight: real)
    | DoAction(action: seq<real>)

  predicate Usual(cfg: Settings, c: Call) {
    (c.DoSelect? ==> |c.command| == 3) && (c.DoAction? ==> |c.action| == cfg.dim)
  }

  function Perform(cfg: Settings, s: State, c: Call): (t: State)
    requires ValidSettings(cfg) && Valid(cfg, s) && Usual(cfg, c)
    ensures Valid(cfg, t)
  {
    match c
    case DoSelect(busy, command) => SelectExecutor(cfg, s, true, busy, command).0
    case DoHear(busy, r) => Hear(s, true, busy, r)
    case DoObserve(weight) => Observe(cfg, s, true, weight)
    case DoAction(action) => s.(history := HistoryOf(cfg, action))
  }

  function After(cfg: Settings, s: State, calls: seq<Call>, n: nat): (t: State)
    requires ValidSettings(cfg) && Valid(cfg, s) && n <= |calls| && forall i | 0 <= i < |calls| :: Usual(cfg, calls[i])
    ensures Valid(cfg, t)
  {
    if n == 0 then s else Perform(cfg, After(cfg, s, calls, n - 1), calls[n - 1])
  }

  /** A tick without a gesture in which the operator has let go. */
  predicate Releases(c: Call) { c.DoSelect? && !c.busy && Zero(c.command) }

  ghost predicate Frozen(cfg: Settings, s: State) {
    s.waits && s.filtered == ORIGIN && s.mode == 0 && s.name == "stance" && s.model == cfg.stance
  }

  lemma FreezeStep(cfg: Settings, s: State, c: Call)
    requires ValidSettings(cfg) && Valid(cfg, s) && Usual(cfg, c)
    requires (Frozen(cfg, s) && !Releases(c)) || (c.DoSelect? && c.busy)
    ensures Frozen(cfg, Perform(cfg, s, c))
    ensures c.DoSelect? ==> SelectExecutor(cfg, s, true, c.busy, c.command).1 == Some(Primary)
  {}

  /** From any tick that starts with a gesture until a later tick with no gesture and a zero
      command, every tick selects the stance executor with the stance command, and the velocity
      filter rests at zero. */
  lemma {:induction false} GestureFreezesLegs(cfg: Settings, s: State, calls: seq<Call>, m: nat, n: nat)
    requires ValidSettings(cfg) && Valid(cfg, s) && m < n <= |calls|
    requires forall i | 0 <= i < |calls| :: Usual(cfg, calls[i])
    requires calls[m].DoSelect? && calls[m].busy && forall k | m < k < n :: !Releases(calls[k])
    ensures Frozen(cfg, After(cfg, s, calls, n))
    ensures calls[n - 1].DoSelect? ==>
              SelectExecutor(cfg, After(cfg, s, calls, n - 1), true, calls[n - 1].busy, calls[n - 1].command).1 == Some(Primary)
  {
    if n == m + 1 {
      FreezeStep(cfg, After(cfg, s, calls, m), calls[m]);
    } else {
      GestureFreezesLegs(cfg, s, calls, m, n - 1);
      FreezeStep(cfg, After(cfg, s, calls, n - 1), calls[n - 1]);
    }
  }

  /** The tick that ends the freeze still stands, and starts the filter from zero. */
  lemma ReleaseRestartsFilter(cfg: Settings, s: State, c: Call)
    requires ValidSettings(cfg) && Valid(cfg, s) && Usual(cfg, c) && Frozen(cfg, s) && Releases(c)
    ensures var t := Perform(cfg, s, c);
            && !t.waits && SelectExecutor(cfg, s, true, false, c.command).1 == Some(Primary) && t.model == cfg.stance
            && forall a | 0 <= a < 3 :: t.filtered[a] == Step(0.0, c.command[a].value, cfg.up[a], cfg.down[a])
  {
    assert ORIGIN[0] == ORIGIN[1] == ORIGIN[2] == 0.0;
    assert Usable(c.command, 0) == 3;
  }

  /** A start reaches the trajectory adapter only if it is busy already, which makes it refuse, or
      if the robot stands with nothing commanded and has been released since the last gesture. */
  lemma GestureStartsStanding(s: State, gestures: bool, busy: bool, r: Interaction)
    requires Forwards(s, gestures, busy, r) && r.operation == Start
    ensures busy || (s.name == "stance" && Zero(s.requested) && !s.waits)
  {}

  /** Every fresh request is either refused here or handed on, and never heard twice; refused is
      exactly a start of a first gesture while the robot does not stand with the stick let go. */
  lemma RequestsOnce(s: State, gestures: bool, busy: bool, later: bool, r: Interaction)
    requires gestures
    ensures var t := Hear(s, gestures, busy, r);
            var standing := s.name == "stance" && !s.waits && forall a | 0 <= a < |s.requested| ::
              s.requested[a].Some? && Abs(s.requested[a].value) < ZERO_BAND;
            && (Fresh(s, r) && !Forwards(s, gestures, busy, r) ==>
                  t.rejected == InteractionStatus(r.sequence, false, Rejected, 0.0, r.action))
            && (Fresh(s, r) && !Forwards(s, gestures, busy, r) <==>
                  r.operation == Start && r.sequence > s.sequence && !busy && !standing)
            && (Forwards(s, gestures, busy, r) ==> t.rejected == NO_STATUS)
            && !Forwards(t, gestures, later, r) && t.sequence >= s.sequence
  {}

  /** Inactive observations among the first n calls since the last active one. */
  function Observed(cfg: Settings, s: State, n: nat): State
  {
    if n == 0 then s else Observe(cfg, Observed(cfg, s, n - 1), true, 0.0)
  }

  /** The neutral override outlives the trajectory's weight by the configured frames less one. */
  lemma {:induction false} OverrideLasts(cfg: Settings, s: State, weight: real, n: nat)
    requires weight > 0.0
    ensures var t := Observed(cfg, Observe(cfg, s, true, weight), n);
            && t.releaseLeft == (if n < cfg.releaseFrames then cfg.releaseFrames - n else 0)
            && (Overrides(t) <==> n == 0 || n < cfg.releaseFrames)
  {
    if n > 0 {
      OverrideLasts(cfg, s, weight, n - 1);
    }
  }

  /** Outside the overridden joints the trajectory gets the model's own output. */
  lemma OverrideIsLocal(cfg: Settings, s: State, action: seq<real>, j: nat)
    requires ValidSettings(cfg) && |action| == cfg.dim && j < cfg.dim
    ensures !Overrides(s) || j !in cfg.indices ==> HandedOn(cfg, s, action)[j] == action[j]
    ensures forall i | 0 <= i < |cfg.indices| && cfg.indices[i] == j && Overrides(s) ::
        HandedOn(cfg, s, action)[j] == cfg.neutral[i]
  {
    forall i | 0 <= i < |cfg.indices| && cfg.indices[i] == j && Overrides(s)
      ensures HandedOn(cfg, s, action)[j] == cfg.neutral[i]
    {
      assert HandedOn(cfg, s, action)[cfg.indices[i]] == cfg.neutral[i];
    }
  }
}
