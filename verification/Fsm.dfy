/** The mode machine of behavior_fsm.cpp with the transition rules of the mode states.
    The state objects are held as values; the journal records every change of mode. */
module Fsm {
  import opened RobotBase
  import Home = HomePose
  import Safety_ = SafetyRelease
  import Zero_ = ZeroPose

  datatype FsmConfig = FsmConfig(
    hasRl: bool, hasTrajectory: bool, zero: Zero_.ZeroConfig,
    homeRamp: real, homeMove: real, release: real)

  /** What the RL state shows to the control thread. */
  datatype RlState = RlState(fault: Option<FaultCode>, switchRequested: bool)

  /** A change of mode, with the ZERO visit as it was at that moment. */
  datatype Change = Change(from: Mode, to: Mode, visit: Zero_.Visit)

  datatype FsmState = FsmState(
    mode: Mode, zero: Zero_.Visit, home: Home.HomeClock, safety: Safety_.Release, rl: RlState,
    journal: seq<Change>)

  /** One control tick as the environment chooses it: periods, sensor verdicts, the progress of
      the inference thread and of background work. Faults of the inference thread may be raised
      before the tick reads them, just before the transition check, while RL is entered, or
      while it runs. */
  datatype Tick = Tick(
    dt: real, rlDt: real, now: real,
    stateValid: bool, tilted: bool, spinning: bool,
    rlBefore: Option<FaultCode>, rlMid: Option<FaultCode>, rlEntry: Option<FaultCode>,
    rlTilted: bool, rlRun: Option<FaultCode>,
    switchReady: bool, policyFinished: bool,
    job: JobProgress, launchFails: bool, retirementDone: bool,
    releasable: bool, within: bool)

  datatype JobProgress = Pending | Done | Broken

  /** A tick in which the environment does nothing. */
  const CALM := Tick(0.0, 0.0, 0.0, true, false, false, None, None, None, false, None, false, false,
                     Pending, false, false, false, false)

  const FRESH_RL := RlState(None, false)

  const POWERED_OFF := FsmState(PowerOff, Zero_.FRESH, Home.FRESH, Safety_.EnterSafety(false), FRESH_RL, [])

  /** The first fault of an RL residence sticks. */
  function Raise(r: RlState, code: Option<FaultCode>): RlState {
    if r.fault.None? then r.(fault := code) else r
  }

  function RaiseIn(f: FsmState, code: Option<FaultCode>): FsmState {
    if f.mode == Rl then f.(rl := Raise(f.rl, code)) else f
  }

  function CurrentFault(f: FsmState): FaultStatus {
    if f.mode == Rl && f.rl.fault.Some? then FaultStatus(true, true, Policy, f.rl.fault.value, 0, 0) else NO_FAULT
  }

  predicate Registered(cfg: FsmConfig, mode: Mode) {
    (mode == Rl ==> cfg.hasRl) && (mode == Trajectory ==> cfg.hasTrajectory)
  }

  /** The next mode and the key that is left after the check. */
  function CheckTransition(cfg: FsmConfig, f: FsmState, key: int): (Mode, int) {
    match f.mode
    case PowerOff => if key == 1 then (Damp, 0) else (PowerOff, key)
    case Damp => if key == 4 then (Home, 0) else if key == -1 then (PowerOff, 0) else (Damp, key)
    case Home =>
      if key == 2 && f.home.finished then (Zero, 0)
      else if key == 1 then (Damp, 0) else if key == -1 then (PowerOff, 0) else (Home, key)
    case Zero =>
      if key == 3 && f.zero.finished then (cfg.zero.next, 0)
      else if key == 1 then (Damp, 0) else if key == -1 then (PowerOff, 0) else (Zero, key)
    case Rl =>
      if f.rl.fault.Some? then (Safety, key)
      else if key == 1 then (Damp, 0) else if key == -1 then (PowerOff, 0) else (Rl, key)
    case Safety => if f.safety.finished then (PowerOff, key) else (Safety, key)
    case Trajectory => if key == 1 then (Damp, 0) else if key == -1 then (PowerOff, 0) else (Trajectory, key)
  }

  /** Entering an unregistered mode leaves the machine where it is. */
  function SwitchTo(cfg: FsmConfig, f: FsmState, to: Mode, fault: FaultStatus, tick: Tick): FsmState {
    if !Registered(cfg, to) then f
    else
      f.(mode := to,
         zero := if to == Zero then Zero_.FRESH else f.zero,
         home := if to == Home then Home.FRESH else f.home,
         safety := if to == Safety then
           Safety_.EnterSafety(tick.releasable && Safety_.AllowsControlledRelease(fault)) else f.safety,
         rl := if to == Rl then RlState(tick.rlEntry, false) else f.rl,
         journal := f.journal + [Change(f.mode, to, f.zero)])
  }

  function ForceSwitch(cfg: FsmConfig, f: FsmState, to: Mode, fault: FaultStatus, tick: Tick): FsmState {
    if to == f.mode then f else SwitchTo(cfg, f, to, fault, tick)
  }

  function RunCurrent(cfg: FsmConfig, f: FsmState, key: int, tick: Tick): (FsmState, int) {
    match f.mode
    case Zero => (f.(zero := Zero_.RunZero(cfg.zero, f.zero, tick.dt, tick.within)), key)
    case Home => (f.(home := Home.RunHome(cfg.homeRamp, cfg.homeMove, f.home, tick.dt)), key)
    case Safety => (f.(safety := Safety_.RunSafety(cfg.release, f.safety, tick.dt)), key)
    case Rl =>
      if tick.dt <= 0.0 || tick.rlDt <= 0.0 then (f.(rl := Raise(f.rl, Some(InvalidData))), key)
      else if tick.rlTilted then (f.(rl := Raise(f.rl, Some(LimitExceeded))), key)
      else (f.(rl := Raise(f.rl, tick.rlRun)), if key == 5 then 0 else key)
    case _ => (f, key)
  }

  function StepFsm(cfg: FsmConfig, f: FsmState, key: int, fault: FaultStatus, tick: Tick): (FsmState, int) {
    var (next, left) := CheckTransition(cfg, f, key);
    var g := if next != f.mode then SwitchTo(cfg, f, next, fault, tick) else f;
    RunCurrent(cfg, g, left, tick)
  }

  /** Both states of a new policy are exchanged; the mode itself does not change. */
  function ReplaceStates(f: FsmState, tick: Tick): FsmState {
    f.(zero := Zero_.FRESH, rl := if f.mode == Rl then RlState(tick.rlEntry, false) else FRESH_RL)
  }

  function RequestSwitch(f: FsmState, requested: bool): FsmState {
    if f.mode == Rl then f.(rl := f.rl.(switchRequested := requested)) else f
  }

  predicate ReadyForPolicySwitch(f: FsmState, tick: Tick) {
    f.mode == Rl && f.rl.switchRequested && tick.switchReady
  }

  // ---------------------------------------------------------------- gate to motion

  predicate Motion(m: Mode) { m == Rl || m == Trajectory }

  /** RL and TRAJECTORY are entered from ZERO after a settled block, ZERO from HOME, SAFETY is
      left only to POWER_OFF, and HOME is entered from DAMP or by the fixed-base start-up. */
  ghost predicate Lawful(cfg: FsmConfig, c: Change) {
    && (Motion(c.to) ==> c.from == Zero && Zero_.HasSettledBlock(cfg.zero, c.visit.runs))
    && (c.to == Zero ==> c.from == Home)
    && (c.from == Safety ==> c.to == PowerOff)
    && (c.to == Home ==> c.from == Damp || (c.from == PowerOff && cfg.hasTrajectory))
    && (c.from == PowerOff ==> c.to == Damp || c.to == Home)
  }

  ghost predicate Sound(cfg: FsmConfig, f: FsmState) {
    && Registered(cfg, f.mode)
    && Zero_.Visited(cfg.zero, f.zero)
    && (forall i | 0 <= i < |f.journal| :: Lawful(cfg, f.journal[i]))
    && Linked(f)
  }

  /** Consecutive entries of the journal fit together and end in the present mode. */
  ghost predicate Linked(f: FsmState) {
    && (forall i | 0 <= i < |f.journal| - 1 :: f.journal[i].to == f.journal[i + 1].from)
    && (f.journal != [] ==> f.journal[0].from == PowerOff)
    && f.mode == if f.journal == [] then PowerOff else f.journal[|f.journal| - 1].to
  }

  predicate ValidModes(cfg: FsmConfig) {
    && cfg.zero.next == (if cfg.hasTrajectory then Trajectory else Rl)
    && !(cfg.hasRl && cfg.hasTrajectory)
  }

  lemma FreshIsSound(cfg: FsmConfig)
    ensures Sound(cfg, POWERED_OFF)
  {}

  lemma SwitchKeepsSound(cfg: FsmConfig, f: FsmState, to: Mode, fault: FaultStatus, tick: Tick)
    requires Sound(cfg, f) && Lawful(cfg, Change(f.mode, to, f.zero))
    ensures Sound(cfg, SwitchTo(cfg, f, to, fault, tick))
  {}

  lemma CheckIsLawful(cfg: FsmConfig, f: FsmState, key: int)
    requires ValidModes(cfg) && Sound(cfg, f) && CheckTransition(cfg, f, key).0 != f.mode
    ensures Lawful(cfg, Change(f.mode, CheckTransition(cfg, f, key).0, f.zero))
  {
    if f.mode == Zero {
      Zero_.FinishedIffSettled(cfg.zero, f.zero);
    }
  }

  lemma RunKeepsSound(cfg: FsmConfig, f: FsmState, key: int, tick: Tick)
    requires Sound(cfg, f)
    ensures Sound(cfg, RunCurrent(cfg, f, key, tick).0)
  {
    var g := RunCurrent(cfg, f, key, tick).0;
    assert g.mode == f.mode && g.journal == f.journal;
    if f.mode == Zero {
      Zero_.VisitedStep(cfg.zero, f.zero, tick.dt, tick.within);
    } else {
      assert g.zero == f.zero;
    }
  }

  lemma StepKeepsSound(cfg: FsmConfig, f: FsmState, key: int, fault: FaultStatus, tick: Tick)
    requires ValidModes(cfg) && Sound(cfg, f)
    ensures Sound(cfg, StepFsm(cfg, f, key, fault, tick).0)
  {
    var (next, left) := CheckTransition(cfg, f, key);
    if next != f.mode {
      CheckIsLawful(cfg, f, key);
      SwitchKeepsSound(cfg, f, next, fault, tick);
      RunKeepsSound(cfg, SwitchTo(cfg, f, next, fault, tick), left, tick);
    } else {
      RunKeepsSound(cfg, f, left, tick);
    }
  }

  lemma OthersKeepSound(cfg: FsmConfig, f: FsmState, requested: bool, code: Option<FaultCode>, tick: Tick)
    requires Sound(cfg, f)
    ensures Sound(cfg, ReplaceStates(f, tick))
    ensures Sound(cfg, RequestSwitch(f, requested))
    ensures Sound(cfg, RaiseIn(f, code))
  {}
}
