/** Which conditions a control step takes for a fault, in terms of what driver, sensors and the RL
    state report, and where it leads. */
module StepFaults {
  import opened RobotBase
  import opened Fsm
  import opened Manager
  import opened ManagerInvariant
  import opened ManagerTheorems
  import opened ManagerCatalog

  // ---------------------------------------------------------------- what is reported

  /** The driver's fault has been acknowledged under its sequence. */
  predicate Silenced(m: Manager) {
    var s, a := m.sensorFault, m.desk.acknowledged;
    s.sequence != 0 && a.sequence == s.sequence && a.source == s.source && a.code == s.code && a.native == s.native
  }

  predicate DriverReports(m: Manager) { m.sensorFault.active || (m.sensorFault.latched && !Silenced(m)) }

  /** Invalid data always count; a floating base must not tilt or spin once it is powered. */
  predicate Unsafe(cfg: Config, m: Manager, tick: Tick) {
    !tick.stateValid || (m.fsm.mode != PowerOff && !cfg.fixedBase && (tick.tilted || tick.spinning))
  }

  /** What the safety monitor makes of it. */
  function MonitorReport(tick: Tick): FaultStatus {
    var (code, native) :=
      if !tick.stateValid then (InvalidData, 1) else if tick.tilted then (LimitExceeded, 2) else (LimitExceeded, 3);
    FaultStatus(true, true, SafetyMonitor, code, native, 0)
  }

  /** The first fault of the inference thread, of an RL state that runs. */
  function RlReport(m: Manager, tick: Tick): Option<FaultCode> {
    if m.fsm.mode != Rl then None else if m.fsm.rl.fault.Some? then m.fsm.rl.fault else tick.rlBefore
  }

  predicate ActiveReport(cfg: Config, m: Manager, tick: Tick) {
    m.sensorFault.active || Unsafe(cfg, m, tick) || RlReport(m, tick).Some?
  }

  /** The fault a step goes by: an active one before a latched one, and among the active ones the
      driver's before the monitor's before the RL state's. */
  function RootReport(cfg: Config, m: Manager, tick: Tick): Option<FaultStatus> {
    if m.sensorFault.active then Some(m.sensorFault)
    else if Unsafe(cfg, m, tick) then Some(MonitorReport(tick))
    else if RlReport(m, tick).Some? then Some(FaultStatus(true, true, Policy, RlReport(m, tick).value, 0, 0))
    else if DriverReports(m) then Some(m.sensorFault)
    else None
  }

  /** The RL state runs into a fault after the observations were made. */
  predicate LateTrouble(tick: Tick) {
    || tick.rlMid.Some? || tick.rlEntry.Some? || tick.rlRun.Some? || tick.rlTilted || tick.dt <= 0.0 || tick.rlDt <= 0.0
  }

  // ---------------------------------------------------------------- observations

  function Raised(m: Manager, tick: Tick): Manager { m.(fsm := RaiseIn(m.fsm, tick.rlBefore)) }

  lemma DriverPart(cfg: Config, m: Manager)
    ensures var (desk, seen) := ReportedSensorFault(m.desk, m.sensorFault);
            && seen == (if DriverReports(m) then [m.sensorFault] else [])
            && desk.fault == m.desk.fault && desk.sequence == m.desk.sequence && desk.observed == m.desk.observed
  {}

  lemma MonitorPart(cfg: Config, m: Manager, tick: Tick)
    ensures MonitorFault(cfg, m.fsm.mode, tick) == if Unsafe(cfg, m, tick) then [MonitorReport(tick)] else []
  {}

  lemma StatePart(m: Manager, tick: Tick)
    ensures StateFault(Raised(m, tick).fsm) ==
            if RlReport(m, tick).Some? then [FaultStatus(true, true, Policy, RlReport(m, tick).value, 0, 0)] else []
  {}

  /** Everything a step observes, in the order in which it looks. */
  function Reports(cfg: Config, m: Manager, tick: Tick): seq<FaultStatus> {
    (if DriverReports(m) then [m.sensorFault] else []) + (if Unsafe(cfg, m, tick) then [MonitorReport(tick)] else []) +
    (if RlReport(m, tick).Some? then [FaultStatus(true, true, Policy, RlReport(m, tick).value, 0, 0)] else [])
  }

  lemma ObservesReports(cfg: Config, m: Manager, tick: Tick)
    ensures var (desk, seen) := ObserveBefore(cfg, Raised(m, tick), tick);
            && seen == Reports(cfg, m, tick)
            && desk.fault == m.desk.fault && desk.sequence == m.desk.sequence && desk.observed == m.desk.observed
  {
    DriverPart(cfg, Raised(m, tick));
    MonitorPart(cfg, Raised(m, tick), tick);
    StatePart(m, tick);
    hide ReportedSensorFault, MonitorFault, StateFault;
    assert DriverReports(Raised(m, tick)) == DriverReports(m);
    assert Unsafe(cfg, Raised(m, tick), tick) == Unsafe(cfg, m, tick);
  }

  lemma FindFirst(f: FaultStatus, rest: seq<FaultStatus>, p: FaultStatus -> bool)
    ensures Find([f] + rest, p) == if p(f) then Some(f) else Find(rest, p)
  {
    assert ([f] + rest)[1..] == rest;
  }

  /** What the scans find among the reports. */
  lemma FindsRoot(cfg: Config, m: Manager, tick: Tick)
    ensures var seen := Reports(cfg, m, tick);
            var active := Find(seen, (f: FaultStatus) => f.active); var latched := Find(seen, (f: FaultStatus) => f.latched);
            && (active.Some? <==> ActiveReport(cfg, m, tick))
            && RootReport(cfg, m, tick) == (if active.Some? then active else latched)
  {
    var active, latched := (f: FaultStatus) => f.active, (f: FaultStatus) => f.latched;
    var s := if RlReport(m, tick).Some? then [FaultStatus(true, true, Policy, RlReport(m, tick).value, 0, 0)] else [];
    var ms := (if Unsafe(cfg, m, tick) then [MonitorReport(tick)] else []) + s;
    assert Reports(cfg, m, tick) == (if DriverReports(m) then [m.sensorFault] else []) + ms;
    if Unsafe(cfg, m, tick) {
      FindFirst(MonitorReport(tick), s, active);
      FindFirst(MonitorReport(tick), s, latched);
    }
    if DriverReports(m) {
      FindFirst(m.sensorFault, ms, active);
      FindFirst(m.sensorFault, ms, latched);
    }
    assert !Unsafe(cfg, m, tick) ==> ms == s;
    assert !DriverReports(m) ==> Reports(cfg, m, tick) == ms;
  }

  // ---------------------------------------------------------------- the step

  lemma BeforeDesk(cfg: Config, m: Manager, tick: Tick)
    ensures var (desk, seen) := ObserveBefore(cfg, Raised(m, tick), tick);
            StepBefore(cfg, m, tick).desk == Resolve(desk, seen) && StepBefore(cfg, m, tick).fsm.mode == m.fsm.mode
  {
    hide ObserveBefore, Resolve, DecidePoll, CatalogAfterPoll, HandAfterPoll, PrepAfterPoll, LogAfterPoll, GivesUp,
         CatalogAfterFailure, Concluded, ActionArrives;
  }

  lemma PrepareDesk(cfg: Config, m: Manager, tick: Tick)
    ensures var n := StepPrepare(cfg, m, tick);
            && n.desk == m.desk && (m.fsm.mode == PowerOff ==> n.fsm == m.fsm)
            && (m.desk.fault.latched && m.fsm.mode != PowerOff ==> n.fsm.mode == Safety)
            && (!m.desk.fault.latched ==> n.fsm == m.fsm)
            && (m.desk.fault.latched && m.fsm.mode == PowerOff ==> n.command.key == 0 || n.command.key == -1)
  {
    hide DecideLaunch, Concluded, CatalogAfterFailure, CurrentFault;
  }

  /** Without late trouble the rest of a step leaves the desk alone, and a latched fault in its mode. */
  lemma AfterDesk(cfg: Config, m: Manager, before: seq<FaultStatus>, tick: Tick)
    requires ValidModes(cfg.fsm) && (m.fsm.mode == Rl ==> m.fsm.rl.fault.None?) && !LateTrouble(tick)
    requires m.desk.fault.latched ==>
               m.fsm.mode == Safety || (m.fsm.mode == PowerOff && (m.command.key == 0 || m.command.key == -1))
    ensures var n := StepAfter(cfg, m, before, tick);
            && n.desk == m.desk
            && (m.desk.fault.latched ==> n.fsm.mode == PowerOff || (m.fsm.mode == Safety && n.fsm.mode == Safety))
  {
    hide Book, Resolve;
    var started := PrepareAtStartup(cfg, m, tick);
    assert started.desk == m.desk && (started.fsm.mode == Rl ==> started.fsm == m.fsm);
    assert m.desk.fault.latched ==> started.fsm == m.fsm && started.command.key == m.command.key;
    var ran := RunStates(cfg, started, m.command.key, tick);
    RunsClean(cfg.fsm, started.fsm, started.command.key, m.desk.fault, tick);
    assert LatchStateFault(cfg, ran, before, tick) == ran;
    BookKeepsDesk(cfg, ran, tick);
    BookKeepsFsm(cfg, ran, tick);
  }

  /** A machine without a fault and without late trouble has none after its step. */
  lemma RunsClean(cfg: FsmConfig, f: FsmState, key: int, fault: FaultStatus, tick: Tick)
    requires ValidModes(cfg) && (f.mode == Rl ==> f.rl.fault.None?) && !LateTrouble(tick)
    ensures var g := StepFsm(cfg, RaiseIn(f, tick.rlMid), key, fault, tick).0;
            && StateFault(g) == []
            && (f.mode == Safety ==> g.mode == Safety || g.mode == PowerOff)
            && (f.mode == PowerOff && key != 1 ==> g.mode == PowerOff)
  {}

  /** What one control step latches, for every mode: with nothing latched before, exactly a reported
      fault, the first active one or else the driver's latched one, under the next sequence, and the
      robot is then powered off or released in SAFETY. Trouble that the RL state runs into after the
      reports were read is left to the step after. */
  lemma StepLatchesExactly(cfg: Config, m: Manager, tick: Tick)
    requires ValidConfig(cfg) && Inv(cfg, m) && !m.desk.fault.latched && !LateTrouble(tick)
    ensures var n, root := Step(cfg, m, tick), RootReport(cfg, m, tick);
            if root.Some? then
              && n.desk.fault == root.value.(latched := true, sequence := m.desk.sequence + 1)
              && n.desk.sequence == m.desk.sequence + 1 && n.desk.observed == root.value.sequence
              && (n.fsm.mode == PowerOff || (m.fsm.mode != PowerOff && n.fsm.mode == Safety))
            else n.desk.fault == m.desk.fault && n.desk.sequence == m.desk.sequence
  {
    Resolves(cfg, m, tick);
    RlIsClean(cfg, m);
    hide Inv, ObserveBefore, Resolve, StepBefore, StepPrepare, StepAfter, RootReport;
    var (desk, seen) := ObserveBefore(cfg, Raised(m, tick), tick);
    var polled := StepBefore(cfg, m, tick);
    BeforeDesk(cfg, m, tick);
    PrepareDesk(cfg, polled, tick);
    PolledRl(cfg, m, tick);
    AfterDesk(cfg, StepPrepare(cfg, polled, tick), seen, tick);
  }

  lemma Resolves(cfg: Config, m: Manager, tick: Tick)
    requires !m.desk.fault.latched
    ensures var (desk, seen) := ObserveBefore(cfg, Raised(m, tick), tick);
            var after, root := Resolve(desk, seen), RootReport(cfg, m, tick);
            if root.Some? then
              && after.fault == root.value.(latched := true, sequence := m.desk.sequence + 1)
              && after.sequence == m.desk.sequence + 1 && after.observed == root.value.sequence
            else after.fault == m.desk.fault && after.sequence == m.desk.sequence
  {
    ObservesReports(cfg, m, tick);
    FindsRoot(cfg, m, tick);
    hide ObserveBefore, Reports, Find, RootReport;
  }

  lemma RlIsClean(cfg: Config, m: Manager)
    requires Inv(cfg, m)
    ensures m.fsm.mode == Rl ==> m.fsm.rl.fault.None?
  {}

  /** An RL state that is still unfaulted after the reports were read is so after the poll. */
  lemma PolledRl(cfg: Config, m: Manager, tick: Tick)
    requires (m.fsm.mode == Rl ==> m.fsm.rl.fault.None?) && tick.rlEntry.None?
    ensures var p := StepBefore(cfg, m, tick);
            p.fsm.mode == Rl && RootReport(cfg, m, tick).None? ==> p.fsm.rl.fault.None?
  {
    hide ObserveBefore, Resolve, DecidePoll, CatalogAfterPoll, HandAfterPoll, PrepAfterPoll, LogAfterPoll, GivesUp,
         CatalogAfterFailure, Concluded, ActionArrives;
  }

  /** A fault that is latched already is taken for active exactly while an active one is reported. */
  lemma StepFollowsReports(cfg: Config, m: Manager, tick: Tick)
    requires ValidConfig(cfg) && Inv(cfg, m) && m.desk.fault.latched && !LateTrouble(tick)
    ensures Step(cfg, m, tick).desk.fault.latched && (Step(cfg, m, tick).desk.fault.active <==> ActiveReport(cfg, m, tick))
  {
    ObservesReports(cfg, m, tick);
    FindsRoot(cfg, m, tick);
    ConfinedIsOut(cfg, m);
    hide Inv, ObserveBefore, Reports, StepBefore, StepPrepare, StepAfter, RootReport, Resolve;
    var (desk, seen) := ObserveBefore(cfg, Raised(m, tick), tick);
    LatchesExactly(desk, seen);
    ActiveFound(seen);
    var polled := StepBefore(cfg, m, tick);
    BeforeDesk(cfg, m, tick);
    PrepareDesk(cfg, polled, tick);
    AfterDesk(cfg, StepPrepare(cfg, polled, tick), seen, tick);
  }

  lemma ActiveFound(seen: seq<FaultStatus>)
    ensures Find(seen, (f: FaultStatus) => f.active).Some? <==> exists i :: 0 <= i < |seen| && seen[i].active
  {}

  lemma ConfinedIsOut(cfg: Config, m: Manager)
    requires Inv(cfg, m) && m.desk.fault.latched
    ensures m.fsm.mode == PowerOff || m.fsm.mode == Safety
  {}

  // ---------------------------------------------------------------- trouble while RL runs

  /** What a run of the RL state takes for a fault. */
  function RunReport(tick: Tick): Option<FaultCode> {
    if tick.dt <= 0.0 || tick.rlDt <= 0.0 then Some(InvalidData)
    else if tick.rlTilted then Some(LimitExceeded) else tick.rlRun
  }

  lemma RlRunReports(cfg: FsmConfig, f: FsmState, key: int, fault: FaultStatus, tick: Tick)
    requires f.mode == Rl && f.rl.fault.None? && tick.rlMid.None? && key != 1 && key != -1
    ensures var g := StepFsm(cfg, RaiseIn(f, tick.rlMid), key, fault, tick).0;
            g.mode == Rl && g.rl.fault == RunReport(tick)
  {}

  /** With no key pressed and nothing reported before, a fault that RL runs into in this very step is
      latched in it, and ends RL in SAFETY. */
  lemma RunTroubleLatches(cfg: Config, m: Manager, tick: Tick)
    requires ValidConfig(cfg) && Inv(cfg, m) && m.fsm.mode == Rl && !m.desk.fault.latched && !m.hand.hot
    requires m.command.key == 0 && m.catalog.target == "" && RootReport(cfg, m, tick).None? && !DriverReports(m)
    requires tick.rlMid.None? && tick.rlEntry.None? && RunReport(tick).Some?
    ensures var n := Step(cfg, m, tick);
            && n.fsm.mode == Safety && n.desk.sequence == m.desk.sequence + 1
            && n.desk.fault == FaultStatus(true, true, Policy, RunReport(tick).value, 0, m.desk.sequence + 1)
  {
    Resolves(cfg, m, tick);
    RlIsClean(cfg, m);
    ObservesReports(cfg, m, tick);
    hide Inv, ObserveBefore, Resolve, StepBefore, StepPrepare, StepAfter;
    var (desk, seen) := ObserveBefore(cfg, Raised(m, tick), tick);
    assert seen == [];
    var polled := StepBefore(cfg, m, tick);
    BeforeDesk(cfg, m, tick);
    PolledRl(cfg, m, tick);
    KeyStays(cfg, m, tick);
    PrepareDesk(cfg, polled, tick);
    PreparedKey(cfg, polled, tick);
    TroubleAfter(cfg, StepPrepare(cfg, polled, tick), tick);
  }

  lemma KeyStays(cfg: Config, m: Manager, tick: Tick)
    requires m.command.key == 0 && m.catalog.target == "" && !m.hand.hot
    ensures StepBefore(cfg, m, tick).command.key == 0
  {
    hide ObserveBefore, Resolve, DecidePoll, HandAfterPoll, PrepAfterPoll, LogAfterPoll, Concluded;
  }

  lemma PreparedKey(cfg: Config, m: Manager, tick: Tick)
    requires m.command.key == 0
    ensures StepPrepare(cfg, m, tick).command.key == 0
  {
    hide DecideLaunch, Concluded, CatalogAfterFailure;
  }

  lemma TroubleAfter(cfg: Config, m: Manager, tick: Tick)
    requires m.fsm.mode == Rl && m.fsm.rl.fault.None? && !m.desk.fault.latched && m.command.key == 0
    requires tick.rlMid.None? && RunReport(tick).Some?
    ensures var n := StepAfter(cfg, m, [], tick);
            && n.fsm.mode == Safety && n.desk.sequence == m.desk.sequence + 1
            && n.desk.fault == FaultStatus(true, true, Policy, RunReport(tick).value, 0, m.desk.sequence + 1)
  {
    hide Book;
    var started := PrepareAtStartup(cfg, m, tick);
    assert started.fsm == m.fsm && started.desk == m.desk && started.command.key == 0;
    var ran := RunStates(cfg, started, 0, tick);
    RlRunReports(cfg.fsm, m.fsm, 0, m.desk.fault, tick);
    var report := FaultStatus(true, true, Policy, RunReport(tick).value, 0, 0);
    assert StateFault(ran.fsm) == [report] && [] + [report] == [report];
    FindFirst(report, [], (f: FaultStatus) => f.active);
    assert [report] + [] == [report];
    var latched := LatchStateFault(cfg, ran, [], tick);
    BookKeepsDesk(cfg, latched, tick);
    BookKeepsFsm(cfg, latched, tick);
  }
}
