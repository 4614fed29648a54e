/** Coming back to RL: what has to happen between two residences, over whole runs. */
module RlResidence {
  import opened RobotBase
  import opened Fsm
  import opened Manager
  import opened ManagerInvariant
  import opened ManagerTheorems
  import opened ManagerCatalog

  /** Entry i of the log is an installation on the way to RL, before HOME. */
  predicate InstalledOutside(log: seq<Note>, i: nat) {
    i < |log| && log[i].Installed? && log[i].mode in {PowerOff, Damp, Safety}
  }

  /** Something was installed there after the first `from` entries. */
  ghost predicate InstalledSince(log: seq<Note>, from: nat) {
    exists i :: from <= i && InstalledOutside(log, i)
  }

  lemma SinceGrows(old_: seq<Note>, new_: seq<Note>, from: nat, start: nat)
    requires old_ <= new_ && start <= from && InstalledSince(old_, from)
    ensures InstalledSince(new_, start)
  {
    var i :| from <= i && InstalledOutside(old_, i);
    assert new_[i] == old_[i];
    assert InstalledOutside(new_, i);
  }

  // ---------------------------------------------------------------- one call

  /** Without a usable policy the robot is not on the way from HOME to RL. */
  lemma VoidIsOutside(cfg: Config, m: Manager)
    requires ValidConfig(cfg) && Inv(cfg, m) && cfg.fsm.hasRl && !m.prep.runtimeReady
    ensures m.fsm.mode in {PowerOff, Damp, Safety}
  {
    assert Registered(cfg.fsm, m.fsm.mode);
  }

  lemma BeforeVoid(cfg: Config, m: Manager, tick: Tick)
    requires !m.prep.runtimeReady && m.fsm.mode in {PowerOff, Damp, Safety}
    ensures var n := StepBefore(cfg, m, tick); n.prep.runtimeReady ==> InstalledSince(n.log, |m.log|)
  {
    var raised := m.(fsm := RaiseIn(m.fsm, tick.rlBefore));
    var (desk, seen) := ObserveBefore(cfg, raised, tick);
    var resolved := ResolveIn(raised, desk, seen);
    assert |m.log| <= |resolved.log| && resolved.fsm.mode == m.fsm.mode && resolved.prep == m.prep;
    var asked := RequestHandoff(CancelRunningSwitch(cfg, resolved, tick.now));
    assert asked.log == resolved.log && asked.fsm.mode == m.fsm.mode && asked.prep == m.prep;
    hide ResolveIn, ObserveBefore, RequestHandoff, CancelRunningSwitch;
    PollVoid(cfg, asked, tick, |m.log|);
  }

  lemma PollVoid(cfg: Config, m: Manager, tick: Tick, from: nat)
    requires !m.prep.runtimeReady && m.fsm.mode in {PowerOff, Damp, Safety} && from <= |m.log|
    ensures var n := PollPolicyPreparation(cfg, m, tick); n.prep.runtimeReady ==> InstalledSince(n.log, from)
  {
    hide DecidePoll, CatalogAfterPoll, HandAfterPoll, ReplaceStates, ActionArrives, Concluded;
    var n := PollPolicyPreparation(cfg, m, tick);
    if DecidePoll(m, tick).Install? {
      assert InstalledOutside(n.log, |m.log|);
    }
  }

  lemma PrepareVoid(cfg: Config, m: Manager, tick: Tick)
    ensures StepPrepare(cfg, m, tick).prep.runtimeReady == m.prep.runtimeReady
  {
    hide DecideLaunch, CatalogAfterFailure, Concluded, ForceSwitch;
  }

  lemma AfterVoid(cfg: Config, m: Manager, before: seq<FaultStatus>, tick: Tick)
    ensures StepAfter(cfg, m, before, tick).prep.runtimeReady ==> m.prep.runtimeReady
  {
    hide PrepareAtStartup, RunStates, LatchStateFault, Book;
    var started := PrepareAtStartup(cfg, m, tick);
    var ran := RunStates(cfg, started, m.command.key, tick);
    StatesKeepPrep(cfg, m, tick);
    LatchKeepsPrep(cfg, ran, before, tick);
    BookVoid(cfg, LatchStateFault(cfg, ran, before, tick), tick);
  }

  lemma StatesKeepPrep(cfg: Config, m: Manager, tick: Tick)
    ensures RunStates(cfg, PrepareAtStartup(cfg, m, tick), m.command.key, tick).prep == m.prep
  {
    hide StepFsm, ForceSwitch;
  }

  lemma LatchKeepsPrep(cfg: Config, m: Manager, before: seq<FaultStatus>, tick: Tick)
    ensures LatchStateFault(cfg, m, before, tick).prep == m.prep
  {
    hide Resolve, ForceSwitch, StateFault;
  }

  lemma BookVoid(cfg: Config, m: Manager, tick: Tick)
    ensures Book(cfg, m, tick).prep.runtimeReady ==> m.prep.runtimeReady
  {
    hide LeaveRl, AdvanceChain, ReturnFinished, CancelChain;
    var counted := CountResidence(LeaveRl(m), tick.dt);
    var advanced := AdvanceChain(cfg, counted, tick);
    LeaveVoid(m);
    AdvanceKeepsPrep(cfg, counted, tick);
    ReturnVoid(cfg, advanced, tick);
    CancelChainKeepsPrep(ReturnFinished(cfg, advanced, tick));
  }

  lemma LeaveVoid(m: Manager)
    ensures LeaveRl(m).prep.runtimeReady ==> m.prep.runtimeReady
  {
    hide FinishPolicyAction;
  }

  lemma AdvanceKeepsPrep(cfg: Config, m: Manager, tick: Tick)
    ensures AdvanceChain(cfg, m, tick).prep == m.prep
  {
    hide ChainRuns;
  }

  lemma ReturnVoid(cfg: Config, m: Manager, tick: Tick)
    ensures ReturnFinished(cfg, m, tick).prep.runtimeReady == m.prep.runtimeReady
  {
    hide DecideReturn;
  }

  lemma CancelChainKeepsPrep(m: Manager)
    ensures CancelChain(m).prep == m.prep
  {}

  lemma StepVoid(cfg: Config, m: Manager, tick: Tick)
    requires !m.prep.runtimeReady && m.fsm.mode in {PowerOff, Damp, Safety}
    ensures var n := Step(cfg, m, tick); m.log <= n.log && (n.prep.runtimeReady ==> InstalledSince(n.log, |m.log|))
  {
    hide StepBefore, StepPrepare, StepAfter, InstalledSince;
    var seen := ObserveBefore(cfg, m.(fsm := RaiseIn(m.fsm, tick.rlBefore)), tick).1;
    var polled := StepBefore(cfg, m, tick);
    BeforeVoid(cfg, m, tick);
    PrepareVoid(cfg, polled, tick);
    AfterVoid(cfg, StepPrepare(cfg, polled, tick), seen, tick);
    StepExtends(cfg, m, tick);
    if Step(cfg, m, tick).prep.runtimeReady {
      SinceGrows(polled.log, Step(cfg, m, tick).log, |m.log|, |m.log|);
    }
  }

  lemma CommandVoid(cfg: Config, m: Manager, c: Command, now: real)
    ensures SetCommand(cfg, m, c, now).prep.runtimeReady == m.prep.runtimeReady
  {
    hide HandlePolicyAction, SwitchPolicy;
    ActionVoid(cfg, m.(command := c), c.interaction, now);
    RequestVoid(cfg, Told(cfg, m, c, now), c.switchPolicy, c.requestSequence, now);
  }

  lemma ActionVoid(cfg: Config, m: Manager, r: Interaction, now: real)
    ensures HandlePolicyAction(cfg, m, r, now).prep.runtimeReady == m.prep.runtimeReady
  {
    hide DecideAction, CatalogAfterAction;
  }

  lemma RequestVoid(cfg: Config, m: Manager, policy: Name, sequence: nat, now: real)
    ensures SwitchPolicy(cfg, m, policy, sequence, now).prep.runtimeReady == m.prep.runtimeReady
  {
    hide DecideSwitch, FinishPolicyAction, HandAfterSwitch;
  }

  /** The runtime becomes usable only by an installation. */
  lemma CallVoid(cfg: Config, m: Manager, e: Event)
    requires !m.prep.runtimeReady && m.fsm.mode in {PowerOff, Damp, Safety}
    ensures var n := Apply(cfg, m, e); m.log <= n.log && (n.prep.runtimeReady ==> InstalledSince(n.log, |m.log|))
  {
    hide Step, SetCommand, InstalledSince;
    match e
    case OnTick(tick) => StepVoid(cfg, m, tick);
    case OnCommand(c, now) => CommandVoid(cfg, m, c, now); CommandExtends(cfg, m, c, now);
    case OnAcknowledge(_) =>
    case OnSensorFault(_) =>
    case OnSensorData =>
  }

  lemma CallExtends(cfg: Config, m: Manager, e: Event)
    ensures m.log <= Apply(cfg, m, e).log
  {
    hide Step, SetCommand;
    match e
    case OnTick(tick) => StepExtends(cfg, m, tick);
    case OnCommand(c, now) => CommandExtends(cfg, m, c, now);
    case _ =>
  }

  // ---------------------------------------------------------------- whole runs

  lemma {:induction false} InstalledOverTime(cfg: Config, left: seq<Event>, more: seq<Event>)
    requires ValidConfig(cfg) && cfg.fsm.hasRl && !Run(cfg, left).prep.runtimeReady
    ensures var m, n := Run(cfg, left), Run(cfg, left + more);
            m.log <= n.log && (n.prep.runtimeReady ==> InstalledSince(n.log, |m.log|))
    decreases |more|
  {
    hide Apply, Inv, InstalledSince, ValidConfig;
    if more == [] {
      assert left + more == left;
    } else {
      var shorter, e := more[..|more| - 1], more[|more| - 1];
      assert (left + more)[..|left + more| - 1] == left + shorter;
      InstalledOverTime(cfg, left, shorter);
      var m, k := Run(cfg, left), Run(cfg, left + shorter);
      RunHolds(cfg, left + shorter);
      CallExtends(cfg, k, e);
      if !k.prep.runtimeReady {
        VoidIsOutside(cfg, k);
        CallVoid(cfg, k, e);
        if Apply(cfg, k, e).prep.runtimeReady {
          SinceGrows(Apply(cfg, k, e).log, Apply(cfg, k, e).log, |k.log|, |m.log|);
        }
      } else {
        SinceGrows(k.log, Apply(cfg, k, e).log, |m.log|, |m.log|);
      }
    }
  }

  /** Only a control step leaves RL. */
  lemma LeftByTick(cfg: Config, m: Manager, e: Event)
    requires ValidConfig(cfg) && Inv(cfg, m) && m.fsm.mode == Rl && Apply(cfg, m, e).fsm.mode != Rl
    ensures !Apply(cfg, m, e).prep.runtimeReady
  {
    hide Step, SetCommand, Inv;
    match e
    case OnTick(tick) => LeavingForcesReinstall(cfg, m, tick);
    case OnCommand(c, now) => CommandKeepsFsm(cfg, m, c, now);
    case _ =>
  }

  lemma RlNeedsRuntime(cfg: Config, m: Manager)
    requires Inv(cfg, m) && m.fsm.mode == Rl
    ensures m.prep.runtimeReady && cfg.fsm.hasRl
  {
    assert Registered(cfg.fsm, m.fsm.mode);
  }

  /** In every run a policy is installed between leaving RL and being in RL again, and that happens
      before HOME, so that ZERO has to settle for it. */
  lemma ReturnNeedsInstallation(cfg: Config, left: seq<Event>, more: seq<Event>)
    requires ValidConfig(cfg) && left != []
    requires Run(cfg, left[..|left| - 1]).fsm.mode == Rl && Run(cfg, left).fsm.mode != Rl
    requires Run(cfg, left + more).fsm.mode == Rl
    ensures InstalledSince(Run(cfg, left + more).log, |Run(cfg, left).log|)
  {
    var before := left[..|left| - 1];
    RunHolds(cfg, before);
    RunHolds(cfg, left + more);
    LeftByTick(cfg, Run(cfg, before), left[|left| - 1]);
    RlNeedsRuntime(cfg, Run(cfg, left + more));
    hide Apply, Inv, InstalledSince, ValidConfig;
    InstalledOverTime(cfg, left, more);
  }

  // ---------------------------------------------------------------- the clocks of a residence

  lemma BeforeClock(cfg: Config, m: Manager, tick: Tick)
    ensures var n := StepPrepare(cfg, StepBefore(cfg, m, tick), tick); n.residence == m.residence || n.residence == 0.0
  {
    hide ObserveBefore, Resolve, DecidePoll, CatalogAfterPoll, HandAfterPoll, PrepAfterPoll, ReplaceStates, DecideLaunch,
         LogAfterPoll, GivesUp, CatalogAfterFailure, ForceSwitch;
  }

  lemma AfterClock(cfg: Config, m: Manager, before: seq<FaultStatus>, tick: Tick)
    ensures var n := StepAfter(cfg, m, before, tick); n.fsm.mode == Rl ==> n.residence == m.residence + tick.dt
  {
    var ran := RunStates(cfg, PrepareAtStartup(cfg, m, tick), m.command.key, tick);
    var latched := LatchStateFault(cfg, ran, before, tick);
    assert latched.residence == m.residence;
    hide RunStates, PrepareAtStartup, LatchStateFault;
    BookKeepsFsm(cfg, latched, tick);
    BookClock(cfg, latched, tick);
    hide Book;
  }

  lemma BookClock(cfg: Config, m: Manager, tick: Tick)
    ensures Book(cfg, m, tick).residence == if m.fsm.mode == Rl then m.residence + tick.dt else 0.0
  {
    hide FinishPolicyAction, DecideReturn, ChainRuns;
  }

  lemma StepClock(cfg: Config, m: Manager, tick: Tick)
    requires m.residence == 0.0
    ensures Step(cfg, m, tick).fsm.mode == Rl ==> Step(cfg, m, tick).residence == tick.dt
  {
    hide StepBefore, StepPrepare, StepAfter, ObserveBefore;
    BeforeClock(cfg, m, tick);
    var seen := ObserveBefore(cfg, m.(fsm := RaiseIn(m.fsm, tick.rlBefore)), tick).1;
    AfterClock(cfg, StepPrepare(cfg, StepBefore(cfg, m, tick), tick), seen, tick);
  }

  /** The step that enters RL starts the residence with its own length, and the chain's timer
      within it. */
  lemma EntryStartsClocks(cfg: Config, events: seq<Event>, tick: Tick)
    requires ValidConfig(cfg) && Run(cfg, events).fsm.mode != Rl
    requires Run(cfg, events + [OnTick(tick)]).fsm.mode == Rl
    ensures var n := Run(cfg, events + [OnTick(tick)]); n.residence == tick.dt && 0.0 <= n.hand.timer <= n.residence
  {
    hide Inv, Step, ValidConfig;
    var m := Run(cfg, events);
    RunHolds(cfg, events);
    RunHolds(cfg, events + [OnTick(tick)]);
    assert (events + [OnTick(tick)])[..|events|] == events;
    ClocksOf(cfg, m);
    ClocksOf(cfg, Run(cfg, events + [OnTick(tick)]));
    StepClock(cfg, m, tick);
  }

  lemma ClocksOf(cfg: Config, m: Manager)
    requires Inv(cfg, m)
    ensures 0.0 <= m.hand.timer && (m.fsm.mode == Rl ==> m.hand.timer <= m.residence)
    ensures m.fsm.mode != Rl ==> m.residence == 0.0
  {}
}
