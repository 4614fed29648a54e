/** The joint invariant of the supervisory controller, kept by every stage of every API call. */
module ManagerInvariant {
  import opened RobotBase
  import opened Fsm
  import opened Manager

  // ---------------------------------------------------------------- what the log must say

  /** A chain target was refused while an older switch was still pending: that switch goes on
      without waiting for the running policy. */
  ghost predicate Orphaned(log: seq<Note>) {
    exists i :: 0 <= i < |log| && log[i].OutsideGroup? && log[i].pending != log[i].active
  }

  /** Every installation in RL happened with the running policy ready and no latched fault. */
  ghost predicate SafeHandoffs(log: seq<Note>) {
    forall i | 0 <= i < |log| :: log[i].Installed? && log[i].mode == Rl ==> log[i].ready && !log[i].latched
  }

  /** Every prerequisite belongs to the same nonempty switch group as its target. */
  predicate PrerequisitesShareGroup(cfg: Config) {
    forall p | p in cfg.prerequisites :: SameSwitchGroup(cfg, p, cfg.prerequisites[p].policy)
  }

  ghost predicate NoteSound(cfg: Config, n: Note) {
    match n
    case Installed(policy, pending, _, _, _) => policy == pending
    case Launched(_, blocked) => !blocked
    case Retired(blocked) => !blocked
    case OutsideGroup(_, _) => !PrerequisitesShareGroup(cfg)
    case Advanced(target, policy, residence) =>
      && target in cfg.prerequisites && policy == cfg.prerequisites[target].policy
      && residence >= cfg.prerequisites[target].duration
    case _ => true
  }

  /** The policy of the last installation, or the one loaded at start. */
  function LastInstalled(cfg: Config, log: seq<Note>): Name {
    if log == [] then cfg.initialPolicy
    else
      var last := log[|log| - 1];
      if last.Installed? then last.policy else LastInstalled(cfg, log[..|log| - 1])
  }

  ghost predicate LogSound(cfg: Config, log: seq<Note>, sequence: nat) {
    && (forall i | 0 <= i < |log| :: NoteSound(cfg, log[i]))
    && (forall i, j | 0 <= i < j < |log| :: log[i].Latched? && log[j].Latched? ==> log[i].sequence < log[j].sequence)
    && (forall i | 0 <= i < |log| :: log[i].Latched? ==> 0 < log[i].sequence <= sequence)
    && (Orphaned(log) || SafeHandoffs(log))
  }

  lemma OrphanedAppend(log: seq<Note>, n: Note)
    ensures Orphaned(log + [n]) <==> Orphaned(log) || (n.OutsideGroup? && n.pending != n.active)
  {
    var all := log + [n];
    assert all[|log|] == n;
    if Orphaned(log) {
      var i :| 0 <= i < |log| && log[i].OutsideGroup? && log[i].pending != log[i].active;
      assert all[i].OutsideGroup?;
    }
  }

  lemma SafeAppend(log: seq<Note>, n: Note)
    ensures SafeHandoffs(log + [n]) <==> SafeHandoffs(log) && (n.Installed? && n.mode == Rl ==> n.ready && !n.latched)
  {
    var all := log + [n];
    assert all[|log|] == n && forall i | 0 <= i < |log| :: all[i] == log[i];
  }

  lemma LastAppend(cfg: Config, log: seq<Note>, n: Note)
    ensures LastInstalled(cfg, log + [n]) == if n.Installed? then n.policy else LastInstalled(cfg, log)
  {
    assert (log + [n])[..|log|] == log;
  }

  lemma AppendNote(cfg: Config, log: seq<Note>, n: Note, sequence: nat)
    requires LogSound(cfg, log, sequence) && NoteSound(cfg, n)
    requires n.Latched? ==> n.sequence > sequence
    requires n.Installed? && n.mode == Rl ==> Orphaned(log) || (n.ready && !n.latched)
    ensures LogSound(cfg, log + [n], if n.Latched? then n.sequence else sequence)
    ensures LastInstalled(cfg, log + [n]) == if n.Installed? then n.policy else LastInstalled(cfg, log)
    ensures Orphaned(log + [n]) <==> Orphaned(log) || (n.OutsideGroup? && n.pending != n.active)
  {
    hide NoteSound, Orphaned, SafeHandoffs, LastInstalled;
    OrphanedAppend(log, n);
    SafeAppend(log, n);
    LastAppend(cfg, log, n);
  }

  // ---------------------------------------------------------------- the invariant

  ghost predicate JobsSound(mode: Mode, h: Handoff, p: Preparation) {
    && p.running == p.job.Some?
    && !(p.running && p.prepared.Some?)
    && (p.runtimeReady ==> !p.failed && p.job != Some(h.active) && p.prepared != Some(h.active))
    && (mode == Rl ==> p.runtimeReady)
  }

  /** On the way from DAMP to RL the requested policy is installed and nothing is outstanding. */
  ghost predicate PathReady(cfg: Config, m: Manager) {
    && (m.startupPending ==> cfg.fsm.hasTrajectory)
    && (cfg.fsm.hasRl && (m.fsm.mode == Home || m.fsm.mode == Zero) ==> RequestedPolicyReady(m))
    && (m.previousMode == Rl ==> m.fsm.mode !in {Home, Zero, Trajectory})
  }

  predicate NamesSound(h: Handoff) {
    (h.pending != h.active ==> h.pending != "") && (h.waiting ==> h.final != "")
  }

  ghost predicate ChainSound(cfg: Config, m: Manager) {
    var h := m.hand;
    && 0.0 <= h.timer && 0.0 <= m.residence
    && (m.fsm.mode == Rl ==> h.timer <= m.residence)
    && (m.previousMode != Rl ==> m.residence == 0.0 && (m.prep.runtimeReady ==> h.timer == 0.0))
    && (h.waiting && h.timer > 0.0 && m.prep.runtimeReady ==>
          h.final in cfg.prerequisites && h.active == cfg.prerequisites[h.final].policy)
  }

  predicate DeskSound(desk: FaultDesk) {
    desk.fault.latched ==> desk.fault.sequence == desk.sequence && desk.sequence > 0
  }

  /** The part about the present fields. In RL a different pending policy is always the object of
      a running switch, unless a switch was orphaned. */
  ghost predicate Flat(cfg: Config, m: Manager, orphaned: bool) {
    && JobsSound(m.fsm.mode, m.hand, m.prep) && PathReady(cfg, m)
    && NamesSound(m.hand) && ChainSound(cfg, m) && DeskSound(m.desk)
    && (m.fsm.mode == Rl ==> m.hand.pending == m.hand.active || m.hand.hot || orphaned)
  }

  /** The part about the histories. */
  ghost predicate Deep(cfg: Config, m: Manager) {
    && Sound(cfg.fsm, m.fsm)
    && LogSound(cfg, m.log, m.desk.sequence)
    && m.hand.active == LastInstalled(cfg, m.log)
  }

  ghost predicate Core(cfg: Config, m: Manager) {
    Deep(cfg, m) && Flat(cfg, m, Orphaned(m.log))
  }

  ghost predicate Confined(m: Manager) {
    m.desk.fault.latched ==> m.fsm.mode == PowerOff || m.fsm.mode == Safety
  }

  ghost predicate Inv(cfg: Config, m: Manager) {
    && Core(cfg, m) && Confined(m) && m.previousMode == m.fsm.mode
    && (m.fsm.mode == Rl ==> m.fsm.rl.fault.None?)
  }

  /** A stage that leaves the histories alone keeps what they say. */
  ghost predicate SameHistories(m: Manager, n: Manager) {
    n.fsm == m.fsm && n.log == m.log && n.hand.active == m.hand.active && n.desk.sequence == m.desk.sequence
  }

  lemma Frame(cfg: Config, m: Manager, n: Manager)
    requires Core(cfg, m) && SameHistories(m, n) && Flat(cfg, n, Orphaned(m.log))
    ensures Core(cfg, n)
  {}

  // ---------------------------------------------------------------- stages

  lemma InitialHolds(cfg: Config)
    requires ValidConfig(cfg)
    ensures Inv(cfg, Initial(cfg))
  {
    FreshIsSound(cfg.fsm);
  }

  lemma RaiseKeeps(cfg: Config, m: Manager, code: Option<FaultCode>)
    requires Core(cfg, m)
    ensures Core(cfg, m.(fsm := RaiseIn(m.fsm, code)))
  {
    OthersKeepSound(cfg.fsm, m.fsm, false, code, CALM);
  }

  lemma ResolveGrows(desk: FaultDesk, seen: seq<FaultStatus>)
    requires desk.fault.latched ==> desk.fault.sequence == desk.sequence && desk.sequence > 0
    ensures var after := Resolve(desk, seen);
            && (after.sequence == desk.sequence || after.sequence == desk.sequence + 1)
            && (after.fault.latched ==> after.fault.sequence == after.sequence && after.sequence > 0)
  {}

  lemma ResolveKeeps(cfg: Config, m: Manager, desk: FaultDesk, seen: seq<FaultStatus>)
    requires Core(cfg, m) && desk.fault == m.desk.fault && desk.sequence == m.desk.sequence
    ensures Core(cfg, ResolveIn(m, desk, seen))
  {
    ResolveGrows(desk, seen);
    var after := Resolve(desk, seen);
    if after.sequence != desk.sequence {
      AppendNote(cfg, m.log, Latched(after.sequence), m.desk.sequence);
    }
  }

  lemma CancelKeeps(cfg: Config, m: Manager, now: real)
    requires Core(cfg, m)
    ensures var n := CancelRunningSwitch(cfg, m, now);
            && Core(cfg, n) && SameHistories(m, n) && n.previousMode == m.previousMode
            && (n.fsm.mode == Rl && n.hand.hot ==> !n.desk.fault.latched)
  {
    Frame(cfg, m, CancelRunningSwitch(cfg, m, now));
  }

  lemma HandoffRequestKeeps(cfg: Config, m: Manager)
    requires Core(cfg, m)
    ensures Core(cfg, RequestHandoff(m))
  {
    OthersKeepSound(cfg.fsm, m.fsm, m.hand.hot && m.prep.prepared.Some? && m.hand.pending != m.hand.active, None, CALM);
  }

  /** What a decision of the poll says about the background work it was made on. */
  lemma PollReasons(m: Manager, tick: Tick)
    ensures var d, p := DecidePoll(m, tick), m.prep;
            && (p.retiring && !tick.retirementDone ==> d.Wait?)
            && (d.Discard? ==> p.prepared.Some?)
            && (d.Install? ==> p.prepared == Some(m.hand.pending) && d.policy == m.hand.pending)
            && (d.Stale? || d.Cancelled? || d.Outdated? ==> p.prepared.None? && p.job.Some?)
            && (d.Unavailable? || d.Keep? ==> p.prepared.None? && p.job == Some(m.hand.pending) && d.policy == m.hand.pending)
  {}

  lemma PollFlat(cfg: Config, m: Manager, tick: Tick, orphaned: bool)
    requires Flat(cfg, m, orphaned)
    ensures var n := PollPolicyPreparation(cfg, m, tick);
            && Flat(cfg, n, orphaned) && n.desk == m.desk
            && n.fsm.mode == m.fsm.mode && n.previousMode == m.previousMode
  {
    hide DecidePoll, LogAfterPoll, CatalogAfterPoll, ActionArrives, Concluded, DeskSound;
    PollReasons(m, tick);
  }

  /** An installation in RL is announced to the running policy, which has agreed. */
  lemma InstallIsSafe(cfg: Config, m: Manager, tick: Tick)
    requires Flat(cfg, m, Orphaned(m.log)) && DecidePoll(m, tick).Install?
    requires m.fsm.mode == Rl && m.hand.hot ==> !m.desk.fault.latched
    ensures DecidePoll(m, tick).policy == m.hand.pending
    ensures m.fsm.mode == Rl ==> Orphaned(m.log) || (ReadyForPolicySwitch(m.fsm, tick) && !m.desk.fault.latched)
  {}

  lemma PollLog(cfg: Config, m: Manager, tick: Tick)
    requires Core(cfg, m)
    requires m.fsm.mode == Rl && m.hand.hot ==> !m.desk.fault.latched
    ensures var d := DecidePoll(m, tick); var log := LogAfterPoll(m, d, tick);
            && LogSound(cfg, log, m.desk.sequence) && Orphaned(log) == Orphaned(m.log)
            && LastInstalled(cfg, log) == HandAfterPoll(m.hand, d).active
  {
    hide DecidePoll, LogSound, Orphaned, LastInstalled, Flat;
    PollReasons(m, tick);
    var d := DecidePoll(m, tick);
    if d.Install? {
      InstallIsSafe(cfg, m, tick);
      InstallLog(cfg, m, d.policy, ReadyForPolicySwitch(m.fsm, tick));
    } else if d.Discard? || d.Cancelled? || d.Outdated? {
      AppendNote(cfg, m.log, Retired(false), m.desk.sequence);
    }
  }

  lemma InstallLog(cfg: Config, m: Manager, policy: Name, ready: bool)
    requires LogSound(cfg, m.log, m.desk.sequence) && policy == m.hand.pending
    requires m.fsm.mode == Rl ==> Orphaned(m.log) || (ready && !m.desk.fault.latched)
    ensures var note := Installed(policy, m.hand.pending, m.fsm.mode, ready, m.desk.fault.latched);
            var log := m.log + [note] + [Retired(false)];
            && LogSound(cfg, log, m.desk.sequence) && Orphaned(log) == Orphaned(m.log)
            && LastInstalled(cfg, log) == policy
  {
    var note := Installed(policy, m.hand.pending, m.fsm.mode, ready, m.desk.fault.latched);
    AppendNote(cfg, m.log, note, m.desk.sequence);
    AppendNote(cfg, m.log + [note], Retired(false), m.desk.sequence);
  }

  lemma PollKeeps(cfg: Config, m: Manager, tick: Tick)
    requires Core(cfg, m)
    requires m.fsm.mode == Rl && m.hand.hot ==> !m.desk.fault.latched
    ensures Core(cfg, PollPolicyPreparation(cfg, m, tick))
  {
    PollFlat(cfg, m, tick, Orphaned(m.log));
    PollLog(cfg, m, tick);
    OthersKeepSound(cfg.fsm, m.fsm, false, None, tick);
  }

  lemma ForceSafetyKeeps(cfg: Config, m: Manager, tick: Tick)
    requires Core(cfg, m) && m.fsm.mode != PowerOff
    ensures Core(cfg, m.(fsm := ForceSwitch(cfg.fsm, m.fsm, Safety, m.desk.fault, tick)))
  {
    if m.fsm.mode != Safety {
      SwitchKeepsSound(cfg.fsm, m.fsm, Safety, m.desk.fault, tick);
    }
  }

  lemma ConfineKeeps(cfg: Config, m: Manager, tick: Tick)
    requires Core(cfg, m) && m.previousMode == m.fsm.mode
    ensures var n := ConfineFault(cfg, m, tick);
            && Core(cfg, n) && Confined(n)
            && (n.desk.fault.latched && n.fsm.mode == PowerOff ==> n.command.key == 0 || n.command.key == -1)
            && (n.previousMode == Rl ==> n.fsm.mode == Rl || n.fsm.mode == Safety)
  {
    if m.desk.fault.latched && m.fsm.mode != PowerOff {
      ForceSafetyKeeps(cfg, m, tick);
      var safe := m.(fsm := ForceSwitch(cfg.fsm, m.fsm, Safety, m.desk.fault, tick));
      Frame(cfg, safe, ConfineFault(cfg, m, tick));
    } else {
      Frame(cfg, m, ConfineFault(cfg, m, tick));
    }
  }

  lemma PreparePendingKeeps(cfg: Config, m: Manager, tick: Tick)
    requires Core(cfg, m)
    ensures var n := PreparePending(cfg, m, tick);
            && Core(cfg, n) && n.fsm == m.fsm && n.command == m.command && n.desk == m.desk
            && n.previousMode == m.previousMode
  {
    LaunchFlat(cfg, m, tick, Orphaned(m.log));
    AppendNote(cfg, m.log, Launched(m.hand.pending, false), m.desk.sequence);
  }

  lemma LaunchFlat(cfg: Config, m: Manager, tick: Tick, orphaned: bool)
    requires Flat(cfg, m, orphaned)
    ensures Flat(cfg, PreparePending(cfg, m, tick), orphaned)
    ensures PreparePending(cfg, m, tick).hand.active == m.hand.active
    ensures DecideLaunch(cfg, m, tick).Launch? ==> m.prep.job.None?
  {
    match DecideLaunch(cfg, m, tick)
    case NoLaunch =>
    case Launch =>
    case LaunchFails =>
  }

  /** What the stages before the state machine's own step have settled. */
  ghost predicate Staged(cfg: Config, m: Manager) {
    && Core(cfg, m) && Confined(m)
    && (m.desk.fault.latched && m.fsm.mode == PowerOff ==> m.command.key == 0 || m.command.key == -1)
    && (cfg.fsm.hasRl && m.fsm.mode == Damp && m.command.key == 4 ==> RequestedPolicyReady(m))
    && (m.previousMode == Rl ==> m.fsm.mode == Rl || m.fsm.mode == Safety)
  }

  lemma StepPrepareKeeps(cfg: Config, m: Manager, tick: Tick)
    requires Core(cfg, m) && m.previousMode == m.fsm.mode
    ensures Staged(cfg, StepPrepare(cfg, m, tick))
  {
    ConfineKeeps(cfg, m, tick);
    var confined := ConfineFault(cfg, m, tick);
    PreparePendingKeeps(cfg, confined, tick);
    var prepared := PreparePending(cfg, confined, tick);
    Frame(cfg, prepared, GateHome(cfg, prepared));
  }

  lemma StartupKeeps(cfg: Config, m: Manager, tick: Tick)
    requires ValidConfig(cfg) && Staged(cfg, m)
    ensures Staged(cfg, PrepareAtStartup(cfg, m, tick))
  {
    var n := PrepareAtStartup(cfg, m, tick);
    if n.fsm != m.fsm {
      SwitchKeepsSound(cfg.fsm, m.fsm, Home, m.desk.fault, tick);
    }
  }

  lemma RunStatesKeeps(cfg: Config, m: Manager, requestedKey: int, tick: Tick)
    requires ValidConfig(cfg) && Staged(cfg, m)
    ensures var n := RunStates(cfg, m, requestedKey, tick);
            && Core(cfg, n) && Confined(n)
            && (n.fsm.mode == Rl && n.fsm.rl.fault.None? ==> tick.dt > 0.0)
  {
    var raised := RaiseIn(m.fsm, tick.rlMid);
    RaiseKeeps(cfg, m, tick.rlMid);
    StepKeepsSound(cfg.fsm, raised, m.command.key, m.desk.fault, tick);
    RunStatesFlat(cfg, m, requestedKey, tick, Orphaned(m.log));
  }

  lemma RunStatesFlat(cfg: Config, m: Manager, requestedKey: int, tick: Tick, orphaned: bool)
    requires Fsm.ValidModes(cfg.fsm) && Flat(cfg, m, orphaned) && Confined(m)
    requires Registered(cfg.fsm, m.fsm.mode)
    requires m.desk.fault.latched && m.fsm.mode == PowerOff ==> m.command.key == 0 || m.command.key == -1
    requires cfg.fsm.hasRl && m.fsm.mode == Damp && m.command.key == 4 ==> RequestedPolicyReady(m)
    requires m.previousMode == Rl ==> m.fsm.mode == Rl || m.fsm.mode == Safety
    ensures var n := RunStates(cfg, m, requestedKey, tick);
            && Flat(cfg, n, orphaned) && Confined(n)
            && (n.fsm.mode == Rl && n.fsm.rl.fault.None? ==> tick.dt > 0.0)
  {
    var f := RaiseIn(m.fsm, tick.rlMid);
    StepModes(cfg.fsm, f, m.command.key, m.desk.fault, tick);
  }

  /** Which modes one step of the machine can lead to, and when. */
  lemma StepModes(cfg: FsmConfig, f: FsmState, key: int, fault: FaultStatus, tick: Tick)
    requires Fsm.ValidModes(cfg)
    ensures var g := StepFsm(cfg, f, key, fault, tick).0;
            && (g.mode == Home ==> f.mode == Home || (f.mode == Damp && key == 4))
            && (g.mode == Zero ==> f.mode == Zero || f.mode == Home)
            && (g.mode == Rl ==> f.mode == Rl || (f.mode == Zero && cfg.hasRl))
            && (g.mode == Trajectory ==> f.mode == Trajectory || f.mode == Zero)
            && (f.mode == PowerOff && key != 1 ==> g.mode == PowerOff)
            && (f.mode == Safety ==> g.mode == Safety || g.mode == PowerOff)
            && (g.mode == Rl && g.rl.fault.None? ==> tick.dt > 0.0)
  {}

  lemma LatchKeeps(cfg: Config, m: Manager, before: seq<FaultStatus>, tick: Tick)
    requires Core(cfg, m) && Confined(m)
    requires m.fsm.mode == Rl && m.fsm.rl.fault.None? ==> tick.dt > 0.0
    ensures var n := LatchStateFault(cfg, m, before, tick);
            && Core(cfg, n) && Confined(n)
            && (n.fsm.mode == Rl ==> tick.dt > 0.0 && n.fsm.rl.fault.None?)
  {
    if StateFault(m.fsm) != [] {
      var seen := before + StateFault(m.fsm);
      ResolveKeeps(cfg, m, m.desk, seen);
      ForceSafetyKeeps(cfg, ResolveIn(m, m.desk, seen), tick);
    }
  }

  lemma AdvanceFlat(cfg: Config, m: Manager, tick: Tick, orphaned: bool)
    requires ValidConfig(cfg) && Flat(cfg, m, orphaned)
    requires m.fsm.mode == Rl ==> tick.dt > 0.0 && m.hand.timer + tick.dt <= m.residence
    ensures var n := AdvanceChain(cfg, m, tick);
            && Flat(cfg, n, orphaned) && n.hand.active == m.hand.active
            && n.fsm == m.fsm && n.desk == m.desk && n.previousMode == m.previousMode
            && (n.log == m.log || (n.log == m.log + [Advanced(m.hand.final, m.hand.active, m.residence)] &&
                                   NoteSound(cfg, Advanced(m.hand.final, m.hand.active, m.residence))))
  {
    if ChainRuns(cfg, m) {
      assert cfg.prerequisites[m.hand.final].duration > 0.0;
    }
  }

  lemma AdvanceKeeps(cfg: Config, m: Manager, tick: Tick)
    requires ValidConfig(cfg) && Core(cfg, m)
    requires m.fsm.mode == Rl ==> tick.dt > 0.0 && m.hand.timer + tick.dt <= m.residence
    ensures var n := AdvanceChain(cfg, m, tick);
            Core(cfg, n) && n.fsm == m.fsm && n.desk == m.desk && n.previousMode == m.previousMode
  {
    AdvanceFlat(cfg, m, tick, Orphaned(m.log));
    if AdvanceChain(cfg, m, tick).log != m.log {
      AppendNote(cfg, m.log, Advanced(m.hand.final, m.hand.active, m.residence), m.desk.sequence);
    }
  }

  /** The books as they stand once the mode of this tick counts as the previous one. */
  lemma LeaveFlat(cfg: Config, m: Manager, tick: Tick, orphaned: bool)
    requires Flat(cfg, m, orphaned) && (m.fsm.mode == Rl ==> tick.dt > 0.0)
    ensures var n := CountResidence(LeaveRl(m), tick.dt).(previousMode := m.fsm.mode);
            && Flat(cfg, n, orphaned) && SameHistories(m, n) && n.desk == m.desk
            && (n.fsm.mode == Rl ==> n.hand.timer + tick.dt <= n.residence)
  {
    if m.previousMode == Rl && m.fsm.mode != Rl {
    } else {
    }
  }

  lemma ReturnKeeps(cfg: Config, m: Manager, tick: Tick)
    requires Core(cfg, m)
    ensures var n := ReturnFinished(cfg, m, tick);
            Core(cfg, n) && n.fsm == m.fsm && n.desk == m.desk && n.previousMode == m.previousMode
  {
    match DecideReturn(cfg, m, tick)
    case Stay =>
    case ToOwner =>
    case ToReturnPolicy(_) =>
    Frame(cfg, m, ReturnFinished(cfg, m, tick));
  }

  /** None of the later bookkeeping looks at the previous mode, except to drop a chain. */
  lemma AdvanceReordered(cfg: Config, m: Manager, tick: Tick, mode: Mode)
    ensures AdvanceChain(cfg, m.(previousMode := mode), tick) == AdvanceChain(cfg, m, tick).(previousMode := mode)
    ensures AdvanceChain(cfg, m, tick).fsm == m.fsm
  {}

  lemma ReturnReordered(cfg: Config, m: Manager, tick: Tick, mode: Mode)
    ensures ReturnFinished(cfg, m.(previousMode := mode), tick) == ReturnFinished(cfg, m, tick).(previousMode := mode)
    ensures ReturnFinished(cfg, m, tick).fsm == m.fsm
  {
    assert DecideReturn(cfg, m.(previousMode := mode), tick) == DecideReturn(cfg, m, tick);
  }

  lemma CancelChainKeeps(cfg: Config, m: Manager, mode: Mode)
    requires Inv(cfg, m.(previousMode := mode)) && m.fsm.mode == mode
    ensures Inv(cfg, CancelChain(m).(previousMode := mode))
  {
    Frame(cfg, m.(previousMode := mode), CancelChain(m).(previousMode := mode));
  }

  lemma BookKeeps(cfg: Config, m: Manager, tick: Tick)
    requires ValidConfig(cfg) && Core(cfg, m) && Confined(m)
    requires m.fsm.mode == Rl ==> tick.dt > 0.0 && m.fsm.rl.fault.None?
    ensures Inv(cfg, Book(cfg, m, tick))
  {
    LeaveFlat(cfg, m, tick, Orphaned(m.log));
    var left, mode := CountResidence(LeaveRl(m), tick.dt), m.fsm.mode;
    var counted := left.(previousMode := mode);
    Frame(cfg, m, counted);
    AdvanceKeeps(cfg, counted, tick);
    AdvanceReordered(cfg, left, tick, mode);
    var advanced := AdvanceChain(cfg, left, tick);
    ReturnKeeps(cfg, advanced.(previousMode := mode), tick);
    ReturnReordered(cfg, advanced, tick, mode);
    CancelChainKeeps(cfg, ReturnFinished(cfg, advanced, tick), mode);
  }

  lemma StepBeforeKeeps(cfg: Config, m: Manager, tick: Tick)
    requires Inv(cfg, m)
    ensures var n := StepBefore(cfg, m, tick);
            Core(cfg, n) && n.fsm.mode == m.fsm.mode && n.previousMode == m.previousMode
  {
    var raised := m.(fsm := RaiseIn(m.fsm, tick.rlBefore));
    RaiseKeeps(cfg, m, tick.rlBefore);
    var (desk, seen) := ObserveBefore(cfg, raised, tick);
    ResolveKeeps(cfg, raised, desk, seen);
    var resolved := ResolveIn(raised, desk, seen);
    CancelKeeps(cfg, resolved, tick.now);
    var cancelled := CancelRunningSwitch(cfg, resolved, tick.now);
    HandoffRequestKeeps(cfg, cancelled);
    var asked := RequestHandoff(cancelled);
    PollKeeps(cfg, asked, tick);
    PollFlat(cfg, asked, tick, Orphaned(asked.log));
  }

  lemma StepKeeps(cfg: Config, m: Manager, tick: Tick)
    requires ValidConfig(cfg) && Inv(cfg, m)
    ensures Inv(cfg, Step(cfg, m, tick))
  {
    var seen := ObserveBefore(cfg, m.(fsm := RaiseIn(m.fsm, tick.rlBefore)), tick).1;
    StepBeforeKeeps(cfg, m, tick);
    var polled := StepBefore(cfg, m, tick);
    StepPrepareKeeps(cfg, polled, tick);
    StepAfterKeeps(cfg, StepPrepare(cfg, polled, tick), seen, tick);
  }

  lemma StepAfterKeeps(cfg: Config, m: Manager, before: seq<FaultStatus>, tick: Tick)
    requires ValidConfig(cfg) && Staged(cfg, m)
    ensures Inv(cfg, StepAfter(cfg, m, before, tick))
  {
    StartupKeeps(cfg, m, tick);
    var started := PrepareAtStartup(cfg, m, tick);
    RunStatesKeeps(cfg, started, m.command.key, tick);
    var ran := RunStates(cfg, started, m.command.key, tick);
    LatchKeeps(cfg, ran, before, tick);
    BookKeeps(cfg, LatchStateFault(cfg, ran, before, tick), tick);
  }

  lemma ActionKeeps(cfg: Config, m: Manager, request: Interaction, now: real)
    requires ValidConfig(cfg) && Inv(cfg, m)
    ensures Inv(cfg, HandlePolicyAction(cfg, m, request, now))
    ensures SameHistories(m, HandlePolicyAction(cfg, m, request, now))
  {
    ActionFlat(cfg, m, request, now, Orphaned(m.log));
    Frame(cfg, m, HandlePolicyAction(cfg, m, request, now));
  }

  /** A policy of the catalog has a name. */
  lemma ActionTargets(cfg: Config, m: Manager, request: Interaction)
    requires ValidConfig(cfg)
    ensures var d := DecideAction(cfg, m, request);
            && (StartsHandoff(d) ==> HandoffTarget(m.catalog, d) != "" && m.fsm.mode == Rl)
            && (d.Begin? ==> RequestedPolicyReady(m))
  {
    hide RequestedPolicyReady;
  }

  lemma ActionFlat(cfg: Config, m: Manager, request: Interaction, now: real, orphaned: bool)
    requires ValidConfig(cfg) && Flat(cfg, m, orphaned)
    ensures var n := HandlePolicyAction(cfg, m, request, now);
            && Flat(cfg, n, orphaned) && SameHistories(m, n) && n.desk == m.desk && n.previousMode == m.previousMode
  {
    hide DecideAction, HandoffTarget, StartsHandoff, CatalogAfterAction, Halted, DeskSound, ValidConfig;
    ActionTargets(cfg, m, request);
  }

  /** A policy request never breaks the invariant silently: a refusal outside the group that
      leaves an older switch pending is on record. */
  lemma SwitchFlat(cfg: Config, m: Manager, policy: Name, sequence: nat, now: real, orphaned: bool)
    requires ValidConfig(cfg) && Flat(cfg, m, orphaned) && policy != ""
    ensures var n := SwitchPolicy(cfg, m, policy, sequence, now);
            && n.fsm == m.fsm && n.hand.active == m.hand.active && n.desk == m.desk && n.previousMode == m.previousMode
            && Flat(cfg, n, orphaned || (DecideSwitch(cfg, m, policy).Outside? && m.hand.pending != m.hand.active))
  {
    hide FinishPolicyAction, DeskSound;
    match DecideSwitch(cfg, m, policy)
    case Inadmissible =>
    case AlreadyActive =>
    case Outside =>
    case Chain(_) =>
    case Direct =>
  }

  lemma SwitchKeeps(cfg: Config, m: Manager, policy: Name, sequence: nat, now: real)
    requires ValidConfig(cfg) && Inv(cfg, m) && policy != ""
    ensures Inv(cfg, SwitchPolicy(cfg, m, policy, sequence, now))
  {
    SwitchFlat(cfg, m, policy, sequence, now, Orphaned(m.log));
    if DecideSwitch(cfg, m, policy).Outside? {
      AppendNote(cfg, m.log, OutsideGroup(m.hand.pending, m.hand.active), m.desk.sequence);
    }
  }

  lemma ToldKeeps(cfg: Config, m: Manager, c: Command, now: real)
    requires ValidConfig(cfg) && Inv(cfg, m)
    ensures Inv(cfg, Told(cfg, m, c, now)) && SameHistories(m, Told(cfg, m, c, now))
  {
    hide Deep, HandlePolicyAction;
    var commanded := m.(command := c);
    Frame(cfg, m, commanded);
    ActionKeeps(cfg, commanded, c.interaction, now);
    Frame(cfg, HandlePolicyAction(cfg, commanded, c.interaction, now), Told(cfg, m, c, now));
  }

  lemma CommandKeeps(cfg: Config, m: Manager, c: Command, now: real)
    requires ValidConfig(cfg) && Inv(cfg, m)
    ensures Inv(cfg, SetCommand(cfg, m, c, now))
  {
    ToldKeeps(cfg, m, c, now);
    if AsksForPolicy(m, c) {
      SwitchKeeps(cfg, Told(cfg, m, c, now), c.switchPolicy, c.requestSequence, now);
    }
  }

  lemma AcknowledgeTouchesDesk(m: Manager, sequence: nat)
    ensures var n := AcknowledgeFault(m, sequence);
            && n == m.(desk := n.desk) && n.desk.sequence == m.desk.sequence
            && (n.desk.fault.latched ==> n.desk.fault == m.desk.fault)
  {}

  lemma DeskKeeps(cfg: Config, m: Manager, desk: FaultDesk)
    requires Inv(cfg, m) && desk.sequence == m.desk.sequence
    requires desk.fault.latched ==> desk.fault == m.desk.fault
    ensures Inv(cfg, m.(desk := desk))
  {
    Frame(cfg, m, m.(desk := desk));
  }

  lemma AcknowledgeKeeps(cfg: Config, m: Manager, sequence: nat)
    requires Inv(cfg, m)
    ensures Inv(cfg, AcknowledgeFault(m, sequence))
  {
    AcknowledgeTouchesDesk(m, sequence);
    DeskKeeps(cfg, m, AcknowledgeFault(m, sequence).desk);
  }

  lemma SensorKeeps(cfg: Config, m: Manager, f: FaultStatus)
    requires Inv(cfg, m)
    ensures Inv(cfg, m.(sensorFault := f)) && Inv(cfg, m.(sensorReceived := true))
  {
    Frame(cfg, m, m.(sensorFault := f));
    Frame(cfg, m, m.(sensorReceived := true));
  }

  lemma ApplyKeeps(cfg: Config, m: Manager, e: Event)
    requires ValidConfig(cfg) && Inv(cfg, m)
    ensures Inv(cfg, Apply(cfg, m, e))
  {
    match e
    case OnTick(tick) => StepKeeps(cfg, m, tick);
    case OnCommand(c, now) => CommandKeeps(cfg, m, c, now);
    case OnAcknowledge(sequence) => AcknowledgeKeeps(cfg, m, sequence);
    case OnSensorFault(f) => SensorKeeps(cfg, m, f);
    case OnSensorData => SensorKeeps(cfg, m, NO_FAULT);
  }

  /** The invariant holds after every run of API calls, whatever the environment does. */
  lemma {:induction false} RunHolds(cfg: Config, events: seq<Event>)
    requires ValidConfig(cfg)
    ensures Inv(cfg, Run(cfg, events))
    decreases |events|
  {
    hide Apply, Inv;
    if events == [] {
      InitialHolds(cfg);
    } else {
      RunHolds(cfg, events[..|events| - 1]);
      ApplyKeeps(cfg, Run(cfg, events[..|events| - 1]), events[|events| - 1]);
    }
  }
}
