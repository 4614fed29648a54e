/** What one control step comes to when nothing goes wrong: the mode, the policy that runs, the
    background work and the verdict of a request, each in terms of the state before and the tick. */
module StepOutcome {
  import opened RobotBase
  import opened Fsm
  import opened Manager
  import opened ManagerInvariant
  import opened ManagerTheorems
  import opened ManagerCatalog
  import opened StepFaults

  /** Nothing is latched, reported or run into. */
  predicate Calm(cfg: Config, m: Manager, tick: Tick) {
    !m.desk.fault.latched && RootReport(cfg, m, tick).None? && !LateTrouble(tick)
  }

  predicate Live(m: Manager) { m.hand.hot && m.fsm.mode == Rl }

  /** A live switch that is stopped by a key or by its clock. */
  predicate Stopped(cfg: Config, m: Manager, tick: Tick) {
    Live(m) && (m.command.key == -1 || m.command.key == 1 || tick.now - m.hand.started > cfg.switchTimeout)
  }

  // ---------------------------------------------------------------- before the preparation

  /** What the step polls: a live switch may have been given up. */
  predicate Polls(cfg: Config, m: Manager, c: Manager, tick: Tick) {
    && c.fsm == (if m.fsm.mode == Rl then m.fsm.(rl := RlState(None, Asked(cfg, m, tick))) else m.fsm)
    && c.hand == (if Stopped(cfg, m, tick) then
        m.hand.(pending := m.hand.active, hot := false, final := "", waiting := false) else m.hand)
    && c.requests == (if Stopped(cfg, m, tick) && m.requests.status.phase == Preparing
        then m.requests.(status := m.requests.status.(phase := Refused)) else m.requests)
    && (c.catalog == m.catalog || (Stopped(cfg, m, tick) && c.catalog.target == "" && c.catalog.owner == m.catalog.owner))
    && Aside(m, c)
  }

  /** What no look at the faults and no stopped switch touches. */
  predicate Aside(m: Manager, c: Manager) {
    && !c.desk.fault.latched && c.prep == m.prep && c.command.key == m.command.key
    && c.startupPending == m.startupPending && c.sensorReceived == m.sensorReceived && c.previousMode == m.previousMode
  }

  /** A live switch with its policy prepared asks the running policy to agree. */
  predicate Asked(cfg: Config, m: Manager, tick: Tick) {
    Live(m) && !Stopped(cfg, m, tick) && m.prep.prepared.Some? && m.hand.pending != m.hand.active
  }

  function Resolved(cfg: Config, m: Manager, tick: Tick): Manager {
    var (desk, seen) := ObserveBefore(cfg, Raised(m, tick), tick);
    ResolveIn(Raised(m, tick), desk, seen)
  }

  lemma ResolvesCalmly(cfg: Config, m: Manager, tick: Tick)
    requires Inv(cfg, m) && Calm(cfg, m, tick)
    ensures var r := Resolved(cfg, m, tick);
            r == m.(desk := r.desk, log := r.log) && !r.desk.fault.latched && (m.fsm.mode == Rl ==> m.fsm.rl.fault.None?)
  {
    Resolves(cfg, m, tick);
    RlIsClean(cfg, m);
    hide Inv, ObserveBefore, Resolve;
  }

  function Poll(cfg: Config, m: Manager, tick: Tick): Manager {
    RequestHandoff(CancelRunningSwitch(cfg, Resolved(cfg, m, tick), tick.now))
  }

  lemma PollsCalmly(cfg: Config, m: Manager, tick: Tick)
    requires Inv(cfg, m) && Calm(cfg, m, tick)
    ensures Polls(cfg, m, Poll(cfg, m, tick), tick)
  {
    ResolvesCalmly(cfg, m, tick);
    hide Inv, Calm, Resolved, Find;
  }

  lemma BeforeIsPoll(cfg: Config, m: Manager, tick: Tick)
    ensures StepBefore(cfg, m, tick) == PollPolicyPreparation(cfg, Poll(cfg, m, tick), tick)
  {
    hide ObserveBefore, Resolve, ResolveIn, CancelRunningSwitch, PollPolicyPreparation, RequestHandoff;
  }

  // ---------------------------------------------------------------- the rest of the step

  lemma AfterCalmly(cfg: Config, m: Manager, before: seq<FaultStatus>, tick: Tick)
    requires ValidModes(cfg.fsm) && (m.fsm.mode == Rl ==> m.fsm.rl.fault.None?) && !LateTrouble(tick)
    requires !m.desk.fault.latched && !m.startupPending
    ensures StepAfter(cfg, m, before, tick) == Book(cfg, RunStates(cfg, m, m.command.key, tick), tick)
  {
    hide Book, Resolve;
    assert PrepareAtStartup(cfg, m, tick) == m;
    RunsClean(cfg.fsm, m.fsm, m.command.key, m.desk.fault, tick);
  }

  lemma PreparesAside(cfg: Config, m: Manager, tick: Tick)
    requires !m.desk.fault.latched
    ensures var n := StepPrepare(cfg, m, tick);
            && n.fsm == m.fsm && n.desk == m.desk && n.hand.active == m.hand.active && n.startupPending == m.startupPending
            && n.previousMode == m.previousMode
            && (n.command.key == m.command.key || (m.fsm.mode == Damp && m.command.key == 4 && n.command.key == 0))
  {
    hide DecideLaunch, Concluded, CatalogAfterFailure;
  }

  lemma PollsAside(cfg: Config, m: Manager, tick: Tick)
    requires !m.desk.fault.latched && tick.rlEntry.None?
    ensures var n := PollPolicyPreparation(cfg, m, tick);
            && n.fsm.mode == m.fsm.mode && n.fsm.home == m.fsm.home && n.fsm.safety == m.fsm.safety && n.desk == m.desk
            && n.startupPending == m.startupPending && n.previousMode == m.previousMode
            && (m.fsm.mode == Rl && m.fsm.rl.fault.None? ==> n.fsm.rl.fault.None?)
  {
    hide DecidePoll, HandAfterPoll, PrepAfterPoll, CatalogAfterPoll, LogAfterPoll, Concluded;
  }

  /** A calm step without the start-up of a fixed base, stage by stage. */
  lemma StepsCalmly(cfg: Config, m: Manager, tick: Tick)
    requires ValidConfig(cfg) && Inv(cfg, m) && Calm(cfg, m, tick) && !m.startupPending
    ensures var c := Poll(cfg, m, tick); var p := StepPrepare(cfg, PollPolicyPreparation(cfg, c, tick), tick);
            && Polls(cfg, m, c, tick) && !PollPolicyPreparation(cfg, c, tick).desk.fault.latched
            && Step(cfg, m, tick) == Book(cfg, RunStates(cfg, p, p.command.key, tick), tick)
  {
    PollsCalmly(cfg, m, tick);
    BeforeIsPoll(cfg, m, tick);
    RlIsClean(cfg, m);
    hide Inv, Poll, Book, RunStates, StepPrepare, StepAfter, PollPolicyPreparation;
    var c := Poll(cfg, m, tick);
    PollsAside(cfg, c, tick);
    var polled := PollPolicyPreparation(cfg, c, tick);
    PreparesAside(cfg, polled, tick);
    AfterCalmly(cfg, StepPrepare(cfg, polled, tick), ObserveBefore(cfg, Raised(m, tick), tick).1, tick);
  }

  // ---------------------------------------------------------------- which policy runs

  /** The policy that is wanted has been prepared, and the one before it is retired. */
  predicate Wanted(m: Manager, tick: Tick) {
    m.prep.prepared == Some(m.hand.pending) && (m.prep.retiring ==> tick.retirementDone)
  }

  lemma PollInstalls(cfg: Config, m: Manager, c: Manager, tick: Tick)
    requires JobsSound(m.fsm.mode, m.hand, m.prep) && Polls(cfg, m, c, tick)
    ensures var n := PollPolicyPreparation(cfg, c, tick);
            n.hand.active ==
            if Wanted(m, tick) && !Stopped(cfg, m, tick) && (Live(m) ==> tick.switchReady) then m.hand.pending
            else m.hand.active
  {
    hide PrepAfterPoll, CatalogAfterPoll, LogAfterPoll, Concluded;
  }

  lemma RunsActive(cfg: Config, m: Manager, key: int, tick: Tick)
    ensures Book(cfg, RunStates(cfg, m, key, tick), tick).hand.active == m.hand.active
  {
    BookKeepsActive(cfg, RunStates(cfg, m, key, tick), tick);
    hide Book;
  }

  /** A calm step installs the wanted policy exactly if it has been prepared, its predecessor has
      been retired, and a live switch is neither stopped nor still waiting for the running policy. */
  lemma InstalledExactly(cfg: Config, m: Manager, tick: Tick)
    requires ValidConfig(cfg) && Inv(cfg, m) && Calm(cfg, m, tick) && !m.startupPending
    ensures Step(cfg, m, tick).hand.active ==
            if Wanted(m, tick) && !Stopped(cfg, m, tick) && (Live(m) ==> tick.switchReady) then m.hand.pending else m.hand.active
  {
    StepsCalmly(cfg, m, tick);
    assert JobsSound(m.fsm.mode, m.hand, m.prep);
    hide Inv, Poll, Polls, Book, RunStates, StepPrepare, PollPolicyPreparation;
    var c := Poll(cfg, m, tick);
    PollInstalls(cfg, m, c, tick);
    var polled := PollPolicyPreparation(cfg, c, tick);
    PreparesAside(cfg, polled, tick);
    RunsActive(cfg, StepPrepare(cfg, polled, tick), StepPrepare(cfg, polled, tick).command.key, tick);
  }

  // ---------------------------------------------------------------- where the keys lead

  lemma BookOutside(cfg: Config, m: Manager, tick: Tick)
    requires m.previousMode != Rl && m.fsm.mode != Rl
    ensures var n := Book(cfg, m, tick); n.hand == m.hand && n.prep == m.prep && n.requests == m.requests && n.command == m.command
  {}

  lemma KeysMove(cfg: Config, f: FsmState, key: int, fault: FaultStatus, tick: Tick)
    requires ValidConfig(cfg) && (f.mode == Rl ==> f.rl.fault.None?) && !LateTrouble(tick)
    ensures StepFsm(cfg.fsm, RaiseIn(f, tick.rlMid), key, fault, tick).0.mode ==
            match f.mode
            case PowerOff => if key == 1 then Damp else PowerOff
            case Damp => if key == 4 then Home else if key == -1 then PowerOff else Damp
            case Home => if key == 2 && f.home.finished then Zero else if key == 1 then Damp
              else if key == -1 then PowerOff else Home
            case Zero =>
              if key == 3 && f.zero.finished then if cfg.fsm.hasTrajectory then Trajectory else if cfg.fsm.hasRl then Rl else Zero
              else if key == 1 then Damp else if key == -1 then PowerOff else Zero
            case Safety => if f.safety.finished then PowerOff else Safety
            case moving => if key == 1 then Damp else if key == -1 then PowerOff else moving
  {}

  /** The gate from DAMP to HOME opens exactly for a requested policy that is ready. */
  lemma GateOpens(cfg: Config, m: Manager, tick: Tick)
    requires !m.desk.fault.latched
    ensures var n := StepPrepare(cfg, m, tick);
            n.command.key ==
            if cfg.fsm.hasRl && m.fsm.mode == Damp && m.command.key == 4 && !RequestedPolicyReady(n) then 0
            else m.command.key
  {
    hide DecideLaunch, Concluded, CatalogAfterFailure;
  }

  /** An action is under way only in RL, and without an RL state there is no background work. */
  ghost predicate Tidy(cfg: Config, m: Manager) {
    && (m.catalog.target != "" ==> m.fsm.mode == Rl)
    && (!cfg.fsm.hasRl ==> m.prep.prepared.None? && m.prep.job.None?)
  }

  /** No stage of a step starts an action, or background work without an RL state. */
  predicate Fewer(cfg: Config, m: Manager, n: Manager) {
    && n.catalog.target in {m.catalog.target, ""} && n.previousMode == m.previousMode
    && (n.catalog.owner == "" ==> n.catalog.target == "" || n.catalog.owner == m.catalog.owner)
    && (!cfg.fsm.hasRl && m.prep.prepared.None? && m.prep.job.None? ==> n.prep.prepared.None? && n.prep.job.None?)
  }

  lemma PollFewer(cfg: Config, m: Manager, tick: Tick)
    ensures Fewer(cfg, m, PollPolicyPreparation(cfg, m, tick))
  {
    PollReasons(m, tick);
    hide DecidePoll, HandAfterPoll, LogAfterPoll, Concluded;
  }

  lemma BeforeFewer(cfg: Config, m: Manager, tick: Tick)
    ensures Fewer(cfg, m, StepBefore(cfg, m, tick))
  {
    hide ObserveBefore, Resolve, PollPolicyPreparation;
    var (desk, seen) := ObserveBefore(cfg, Raised(m, tick), tick);
    var c := RequestHandoff(CancelRunningSwitch(cfg, ResolveIn(Raised(m, tick), desk, seen), tick.now));
    assert Fewer(cfg, m, c);
    PollFewer(cfg, c, tick);
  }

  lemma PrepareFewer(cfg: Config, m: Manager, tick: Tick)
    ensures Fewer(cfg, m, StepPrepare(cfg, m, tick))
  {
    hide ForceSwitch, Concluded, RequestedPolicyReady;
  }

  /** Leaving RL ends the action that is under way. */
  lemma AfterFewer(cfg: Config, m: Manager, before: seq<FaultStatus>, tick: Tick)
    ensures var n := StepAfter(cfg, m, before, tick);
            && n.catalog.target in {m.catalog.target, ""}
            && (n.fsm.mode != Rl && m.previousMode == Rl && (m.catalog.owner == "" ==> m.catalog.target == "") ==>
                 n.catalog.target == "")
            && (!cfg.fsm.hasRl && m.prep.prepared.None? && m.prep.job.None? ==> n.prep.prepared.None? && n.prep.job.None?)
  {
    hide Book, Resolve, ForceSwitch, StepFsm;
    var ran := RunStates(cfg, PrepareAtStartup(cfg, m, tick), m.command.key, tick);
    BookFewer(cfg, LatchStateFault(cfg, ran, before, tick), tick);
  }

  lemma BookFewer(cfg: Config, m: Manager, tick: Tick)
    ensures var n := Book(cfg, m, tick);
            && n.catalog.target in {m.catalog.target, ""} && n.prep.prepared == m.prep.prepared && n.prep.job == m.prep.job
            && (n.fsm.mode != Rl && m.previousMode == Rl && (m.catalog.owner == "" ==> m.catalog.target == "") ==>
                 n.catalog.target == "")
  {
    hide ChainRuns;
  }

  lemma StepTidy(cfg: Config, m: Manager, tick: Tick)
    requires Inv(cfg, m) && Tidy(cfg, m) && CatalogSound(cfg, m.hand.active, m.catalog)
    ensures Tidy(cfg, Step(cfg, m, tick))
  {
    assert m.previousMode == m.fsm.mode && (m.catalog.target != "" ==> m.catalog.owner != "");
    hide Inv, CatalogSound, StepBefore, StepPrepare, StepAfter, ObserveBefore;
    BeforeFewer(cfg, m, tick);
    var polled := StepBefore(cfg, m, tick);
    PrepareFewer(cfg, polled, tick);
    AfterFewer(cfg, StepPrepare(cfg, polled, tick), ObserveBefore(cfg, Raised(m, tick), tick).1, tick);
  }

  lemma CommandTidy(cfg: Config, m: Manager, c: Command, now: real)
    requires Tidy(cfg, m)
    ensures Tidy(cfg, SetCommand(cfg, m, c, now))
  {
    var heard := m.(command := c);
    var told := HandlePolicyAction(cfg, heard, c.interaction, now);
    assert Tidy(cfg, told) by { hide Admissible; }
    hide HandlePolicyAction, DecideAction;
  }

  lemma {:induction false} RunTidy(cfg: Config, events: seq<Event>)
    requires ValidConfig(cfg)
    ensures Tidy(cfg, Run(cfg, events))
    decreases |events|
  {
    hide Inv, ValidConfig, CatalogSound, Step, SetCommand;
    if events != [] {
      var shorter, e := events[..|events| - 1], events[|events| - 1];
      RunTidy(cfg, shorter);
      RunHolds(cfg, shorter);
      CatalogShowsTheTruth(cfg, shorter);
      match e {
        case OnTick(tick) => StepTidy(cfg, Run(cfg, shorter), tick);
        case OnCommand(c, now) => CommandTidy(cfg, Run(cfg, shorter), c, now);
        case _ =>
      }
    }
  }

  lemma PollKeepsKey(cfg: Config, m: Manager, c: Manager, tick: Tick)
    requires Inv(cfg, m) && Polls(cfg, m, c, tick)
    requires Tidy(cfg, m) && (m.fsm.mode == Rl ==> m.hand.pending == m.hand.active || m.hand.hot)
    ensures var n := PollPolicyPreparation(cfg, c, tick);
            n.command.key == m.command.key || (m.fsm.mode == Rl && n.command.key == 5 && m.command.key != 1 && m.command.key != -1)
  {
    hide PrepAfterPoll, CatalogAfterPoll, LogAfterPoll, Concluded, HandAfterPoll;
  }

  lemma PollKeepsVisits(cfg: Config, m: Manager, c: Manager, tick: Tick)
    requires Inv(cfg, m) && Tidy(cfg, m) && Polls(cfg, m, c, tick)
    ensures var n := PollPolicyPreparation(cfg, c, tick);
            && n.fsm.mode == m.fsm.mode && (m.fsm.mode == Zero ==> n.fsm.zero == m.fsm.zero)
            && n.fsm.home == m.fsm.home && n.fsm.safety == m.fsm.safety && n.previousMode == m.fsm.mode
            && (m.fsm.mode == Rl && tick.rlEntry.None? ==> n.fsm.rl.fault.None?)
  {
    hide PrepAfterPoll, CatalogAfterPoll, LogAfterPoll, Concluded, HandAfterPoll, ActionArrives;
  }

  /** Where the keys lead from each mode: to the next one exactly under its key, with the move done or
      the reference pose reached, and from DAMP only with the requested policy ready. */
  predicate LedByKeys(cfg: Config, m: Manager, n: Manager) {
    var key := m.command.key;
    n.fsm.mode ==
    match m.fsm.mode
    case PowerOff => if key == 1 then Damp else PowerOff
    case Damp =>
      if key == 4 && (cfg.fsm.hasRl ==> RequestedPolicyReady(n)) then Home else if key == -1 then PowerOff else Damp
    case Home =>
      if key == 2 && m.fsm.home.finished then Zero else if key == 1 then Damp else if key == -1 then PowerOff else Home
    case Zero =>
      if key == 3 && m.fsm.zero.finished then if cfg.fsm.hasTrajectory then Trajectory else if cfg.fsm.hasRl then Rl else Zero
      else if key == 1 then Damp else if key == -1 then PowerOff else Zero
    case Safety => if m.fsm.safety.finished then PowerOff else Safety
    case moving => if key == 1 then Damp else if key == -1 then PowerOff else moving
  }

  lemma StepLed(cfg: Config, m: Manager, tick: Tick)
    requires ValidConfig(cfg) && Inv(cfg, m) && Tidy(cfg, m) && Calm(cfg, m, tick) && !m.startupPending
    requires m.fsm.mode == Rl ==> m.hand.pending == m.hand.active || m.hand.hot
    ensures LedByKeys(cfg, m, Step(cfg, m, tick))
  {
    StepsCalmly(cfg, m, tick);
    hide Polls, Poll, Book, StepPrepare, PollPolicyPreparation, StepFsm, RequestedPolicyReady;
    var c := Poll(cfg, m, tick);
    PollKeepsKey(cfg, m, c, tick);
    PollKeepsVisits(cfg, m, c, tick);
    hide Inv;
    var polled := PollPolicyPreparation(cfg, c, tick);
    PreparesAside(cfg, polled, tick);
    GateOpens(cfg, polled, tick);
    var p := StepPrepare(cfg, polled, tick);
    KeysMove(cfg, p.fsm, p.command.key, p.desk.fault, tick);
    var ran := RunStates(cfg, p, p.command.key, tick);
    BookKeepsFsm(cfg, ran, tick);
    if m.fsm.mode == Damp {
      BookOutside(cfg, ran, tick);
      SameReady(p, ran);
      SameReady(ran, Book(cfg, ran, tick));
    }
  }

  /** In every run the keys lead exactly as they should, unless a switch has been orphaned. */
  lemma KeysLeadExactly(cfg: Config, events: seq<Event>, tick: Tick)
    requires ValidConfig(cfg) && !Orphaned(Run(cfg, events).log)
    requires Calm(cfg, Run(cfg, events), tick) && !Run(cfg, events).startupPending
    ensures LedByKeys(cfg, Run(cfg, events), Step(cfg, Run(cfg, events), tick))
  {
    RunHolds(cfg, events);
    RunTidy(cfg, events);
    hide Run, Step, Calm, LedByKeys, Tidy;
    StepLed(cfg, Run(cfg, events), tick);
  }

  // ---------------------------------------------------------------- background work

  /** A job is launched for the pending policy: in POWER_OFF and DAMP until it is ready, in RL for a
      policy that does not run yet. */
  predicate LaunchDue(cfg: Config, m: Manager) {
    && cfg.fsm.hasRl && m.hand.pending != "" && !m.prep.failed
    && (if m.fsm.mode == Rl then m.hand.pending != m.hand.active
        else m.fsm.mode in {PowerOff, Damp} && !(m.prep.runtimeReady && m.hand.pending == m.hand.active))
  }

  lemma PrepareLaunches(cfg: Config, m: Manager, tick: Tick)
    requires !m.desk.fault.latched && m.prep.running == m.prep.job.Some?
    ensures var n := StepPrepare(cfg, m, tick); var due := LaunchDue(cfg, m) && m.prep.job.None? && m.prep.prepared.None?;
            && n.prep == (if !due then m.prep
                          else if tick.launchFails then m.prep.(failed := m.hand.pending == m.hand.active)
                          else m.prep.(job := Some(m.hand.pending), running := true, failed := false))
            && n.hand == (if due && tick.launchFails && m.hand.pending != m.hand.active
                          then m.hand.(pending := m.hand.active, hot := false, final := "", waiting := false) else m.hand)
  {
    hide Concluded, CatalogAfterFailure;
  }

  lemma PrepareConcludes(cfg: Config, m: Manager, tick: Tick)
    requires !m.desk.fault.latched && m.prep.running == m.prep.job.Some?
    ensures var n := StepPrepare(cfg, m, tick); var due := LaunchDue(cfg, m) && m.prep.job.None? && m.prep.prepared.None?;
            n.requests.status ==
            if m.requests.status.phase != Preparing then m.requests.status
            else if due && tick.launchFails then m.requests.status.(phase := Failed)
            else if RequestedPolicyReady(n) && (n.hand.waiting ==> m.fsm.mode != Rl) then m.requests.status.(phase := Ready)
            else m.requests.status
  {
    hide CatalogAfterFailure;
  }

  lemma RunsWork(cfg: Config, m: Manager, key: int, tick: Tick)
    ensures var n := Book(cfg, RunStates(cfg, m, key, tick), tick);
            && n.prep.job == m.prep.job && n.prep.running == m.prep.running && n.prep.prepared == m.prep.prepared
            && n.prep.retiring == m.prep.retiring && n.requests == m.requests
  {
    hide StepFsm, Book;
    var ran := RunStates(cfg, m, key, tick);
    assert ran.prep == m.prep && ran.requests == m.requests;
    BookWork(cfg, ran, tick);
  }

  lemma BookWork(cfg: Config, m: Manager, tick: Tick)
    ensures var n := Book(cfg, m, tick);
            && n.prep.job == m.prep.job && n.prep.running == m.prep.running && n.prep.prepared == m.prep.prepared
            && n.prep.retiring == m.prep.retiring && n.requests == m.requests
  {
    hide LeaveRl, AdvanceChain, ReturnFinished;
    StagesWork(cfg, m, tick);
    var counted := CountResidence(LeaveRl(m), tick.dt);
    StagesWork(cfg, counted, tick);
    StagesWork(cfg, AdvanceChain(cfg, counted, tick), tick);
  }

  predicate SameWork(m: Manager, n: Manager) {
    && n.prep.job == m.prep.job && n.prep.running == m.prep.running && n.prep.prepared == m.prep.prepared
    && n.prep.retiring == m.prep.retiring && n.requests == m.requests
  }

  lemma StagesWork(cfg: Config, m: Manager, tick: Tick)
    ensures SameWork(m, LeaveRl(m)) && SameWork(m, AdvanceChain(cfg, m, tick)) && SameWork(m, ReturnFinished(cfg, m, tick))
  {
    hide FinishPolicyAction, ChainRuns, DecideReturn;
  }

  /** While nothing is under way a calm step launches a job exactly if one is due, for the pending
      policy; a request whose launch fails has failed. */
  lemma LaunchedExactly(cfg: Config, m: Manager, tick: Tick)
    requires ValidConfig(cfg) && Inv(cfg, m) && Calm(cfg, m, tick) && !m.startupPending && !Stopped(cfg, m, tick)
    requires m.prep.job.None? && m.prep.prepared.None?
    ensures var n := Step(cfg, m, tick);
            && n.prep.job == (if LaunchDue(cfg, m) && !tick.launchFails then Some(m.hand.pending) else None)
            && n.prep.prepared.None?
            && (LaunchDue(cfg, m) && tick.launchFails && m.requests.status.phase == Preparing ==> n.requests.status.phase == Failed)
  {
    StepsCalmly(cfg, m, tick);
    assert JobsSound(m.fsm.mode, m.hand, m.prep);
    hide Inv, Poll, Book, RunStates, StepPrepare;
    var c := Poll(cfg, m, tick);
    NothingCollected(cfg, m, c, tick);
    hide Polls, PollPolicyPreparation;
    var polled := PollPolicyPreparation(cfg, c, tick);
    PrepareLaunches(cfg, polled, tick);
    PrepareConcludes(cfg, polled, tick);
    var p := StepPrepare(cfg, polled, tick);
    RunsWork(cfg, p, p.command.key, tick);
  }

  lemma NothingCollected(cfg: Config, m: Manager, c: Manager, tick: Tick)
    requires JobsSound(m.fsm.mode, m.hand, m.prep) && Polls(cfg, m, c, tick) && !Stopped(cfg, m, tick)
    requires m.prep.job.None? && m.prep.prepared.None?
    ensures var n := PollPolicyPreparation(cfg, c, tick);
            && n.prep == m.prep.(retiring := m.prep.retiring && !tick.retirementDone) && n.hand == m.hand
            && n.requests == m.requests && n.fsm.mode == m.fsm.mode
  {}

  /** A live switch, or a pending policy outside a switch, can still use the job that prepares it. */
  predicate StillWanted(m: Manager) {
    m.prep.job == Some(m.hand.pending) && (m.hand.hot ==> m.fsm.mode == Rl && m.command.key == 0)
  }

  lemma JobCollected(cfg: Config, m: Manager, c: Manager, tick: Tick)
    requires JobsSound(m.fsm.mode, m.hand, m.prep) && Polls(cfg, m, c, tick) && !Stopped(cfg, m, tick)
    requires m.prep.job.Some? && (m.prep.retiring ==> tick.retirementDone)
    ensures var n := PollPolicyPreparation(cfg, c, tick);
            && n.fsm.mode == m.fsm.mode && n.hand.active == m.hand.active
            && n.prep.job == (if tick.job == Pending then m.prep.job else None) && n.prep.running == (tick.job == Pending)
            && n.prep.prepared == (if tick.job == Done && StillWanted(m) then m.prep.job else None)
            && n.prep.retiring == (tick.job == Done && !StillWanted(m))
            && (tick.job == Broken && m.prep.job == Some(m.hand.pending) ==>
                  && n.hand.pending == n.hand.active && n.prep.failed == (m.hand.pending == m.hand.active)
                  && n.prep.runtimeReady == m.prep.runtimeReady
                  && n.requests.status ==
                     (if m.requests.status.phase == Preparing then m.requests.status.(phase := Failed) else m.requests.status))
  {}

  /** What a calm step makes of a job: one that has finished is kept exactly if its policy is still
      wanted and retired otherwise; one that has failed fails the request for it, and the policy in
      use is not prepared again by itself. */
  lemma CollectedExactly(cfg: Config, m: Manager, tick: Tick)
    requires ValidConfig(cfg) && Inv(cfg, m) && Calm(cfg, m, tick) && !m.startupPending && !Stopped(cfg, m, tick)
    requires m.prep.job.Some? && (m.prep.retiring ==> tick.retirementDone)
    ensures var n := Step(cfg, m, tick);
            && n.prep.prepared == (if tick.job == Done && StillWanted(m) then m.prep.job else None)
            && n.prep.retiring == (tick.job == Done && !StillWanted(m))
            && (tick.job == Pending ==> n.prep.job == m.prep.job)
            && (tick.job == Done && StillWanted(m) ==> n.prep.job.None?)
            && (tick.job == Broken && m.prep.job == Some(m.hand.pending) ==>
                  && (m.requests.status.phase == Preparing ==> n.requests.status.phase == Failed)
                  && (m.hand.pending == m.hand.active ==> n.prep.job.None?))
  {
    StepsCalmly(cfg, m, tick);
    assert JobsSound(m.fsm.mode, m.hand, m.prep);
    hide Inv, Poll, Book, RunStates, StepPrepare, PollPolicyPreparation;
    var c := Poll(cfg, m, tick);
    JobCollected(cfg, m, c, tick);
    hide Polls;
    var polled := PollPolicyPreparation(cfg, c, tick);
    PrepareLaunches(cfg, polled, tick);
    PrepareConcludes(cfg, polled, tick);
    var p := StepPrepare(cfg, polled, tick);
    RunsWork(cfg, p, p.command.key, tick);
  }

  lemma PreparedTaken(cfg: Config, m: Manager, c: Manager, tick: Tick)
    requires JobsSound(m.fsm.mode, m.hand, m.prep) && Polls(cfg, m, c, tick) && m.prep.prepared.Some?
    ensures var n := PollPolicyPreparation(cfg, c, tick); var blocked := m.prep.retiring && !tick.retirementDone;
            var kept := m.prep.prepared.value == m.hand.pending && Live(m) && !Stopped(cfg, m, tick) && !tick.switchReady;
            && n.prep.prepared == (if blocked || kept then m.prep.prepared else None)
            && n.prep.retiring == (blocked || !kept) && n.prep.job.None? && n.prep.running == n.prep.job.Some?
  {
    hide HandAfterPoll, CatalogAfterPoll, LogAfterPoll, Concluded;
  }

  /** A prepared policy waits for a retirement before it, and then only for the agreement of the
      running policy to a live switch; otherwise it is installed or retired at once. */
  lemma PreparedExactly(cfg: Config, m: Manager, tick: Tick)
    requires ValidConfig(cfg) && Inv(cfg, m) && Calm(cfg, m, tick) && !m.startupPending && m.prep.prepared.Some?
    ensures var n := Step(cfg, m, tick); var blocked := m.prep.retiring && !tick.retirementDone;
            var kept := m.prep.prepared.value == m.hand.pending && Live(m) && !Stopped(cfg, m, tick) && !tick.switchReady;
            && n.prep.prepared == (if blocked || kept then m.prep.prepared else None)
            && n.prep.retiring == (blocked || !kept)
  {
    StepsCalmly(cfg, m, tick);
    assert JobsSound(m.fsm.mode, m.hand, m.prep);
    hide Inv, Poll, Book, RunStates, StepPrepare, PollPolicyPreparation;
    var c := Poll(cfg, m, tick);
    PreparedTaken(cfg, m, c, tick);
    hide Polls;
    var polled := PollPolicyPreparation(cfg, c, tick);
    PrepareLaunches(cfg, polled, tick);
    var p := StepPrepare(cfg, polled, tick);
    RunsWork(cfg, p, p.command.key, tick);
  }

  // ---------------------------------------------------------------- an undisturbed RL residence

  /** RL runs the wanted policy, nothing is under way and no key is pressed. */
  predicate AtRest(m: Manager) {
    && m.fsm.mode == Rl && m.hand.pending == m.hand.active && !m.hand.hot && m.command.key == 0
    && m.prep.runtimeReady && m.prep.job.None? && !m.prep.running && m.prep.prepared.None?
  }

  lemma RestsBefore(cfg: Config, m: Manager, c: Manager, tick: Tick)
    requires AtRest(m) && Polls(cfg, m, c, tick)
    ensures var p := StepPrepare(cfg, PollPolicyPreparation(cfg, c, tick), tick);
            && AtRest(p) && p.hand == m.hand && p.catalog == m.catalog && p.fsm.rl.fault.None? && p.previousMode == m.previousMode
  {
    hide Concluded;
  }

  lemma RestsThrough(cfg: Config, m: Manager, tick: Tick)
    requires AtRest(m) && m.fsm.rl.fault.None? && !LateTrouble(tick)
    ensures var r := RunStates(cfg, m, m.command.key, tick); r.fsm.mode == Rl && r == m.(fsm := r.fsm)
  {}

  /** A calm step at rest comes down to what it books. */
  lemma RestsUntilBook(cfg: Config, m: Manager, tick: Tick) returns (r: Manager)
    requires ValidConfig(cfg) && Inv(cfg, m) && Calm(cfg, m, tick) && !m.startupPending && AtRest(m)
    ensures Step(cfg, m, tick) == Book(cfg, r, tick)
    ensures AtRest(r) && r.hand == m.hand && r.catalog == m.catalog && r.previousMode == Rl
  {
    StepsCalmly(cfg, m, tick);
    assert m.previousMode == m.fsm.mode;
    hide Inv, Poll, Polls, Book, RunStates, StepPrepare, PollPolicyPreparation;
    var c := Poll(cfg, m, tick);
    RestsBefore(cfg, m, c, tick);
    var p := StepPrepare(cfg, PollPolicyPreparation(cfg, c, tick), tick);
    RestsThrough(cfg, p, tick);
    r := RunStates(cfg, p, p.command.key, tick);
  }

  /** A chain at rest moves on exactly in the step that completes the time of its prerequisite, to a
      live switch to its target; before that it only counts. */
  lemma ChainAdvancesExactly(cfg: Config, m: Manager, tick: Tick)
    requires ValidConfig(cfg) && Inv(cfg, m) && Calm(cfg, m, tick) && !m.startupPending && AtRest(m)
    requires m.hand.waiting && m.hand.final in cfg.prerequisites && m.hand.active == cfg.prerequisites[m.hand.final].policy
    ensures var h, n := m.hand, Step(cfg, m, tick).hand;
            n == if h.timer + tick.dt >= cfg.prerequisites[h.final].duration
                 then h.(timer := h.timer + tick.dt, pending := h.final, final := "", waiting := false, hot := true,
                   started := tick.now)
                 else h.(timer := h.timer + tick.dt)
  {
    hide Step, Inv, Calm, Book, AtRest;
    var r := RestsUntilBook(cfg, m, tick);
    BookAdvances(cfg, r, tick);
  }

  lemma BookAdvances(cfg: Config, m: Manager, tick: Tick)
    requires AtRest(m) && m.previousMode == Rl
    requires m.hand.waiting && m.hand.final in cfg.prerequisites && m.hand.active == cfg.prerequisites[m.hand.final].policy
    ensures var h := m.hand;
            Book(cfg, m, tick).hand ==
            if h.timer + tick.dt >= cfg.prerequisites[h.final].duration
            then h.(timer := h.timer + tick.dt, pending := h.final, final := "", waiting := false, hot := true, started := tick.now)
            else h.(timer := h.timer + tick.dt)
  {}

  /** Where a policy that has ended goes: an action back to its entry, any other to its return policy,
      and that only once. */
  lemma ReturnsExactly(cfg: Config, m: Manager, tick: Tick)
    requires ValidConfig(cfg) && Inv(cfg, m) && Calm(cfg, m, tick) && !m.startupPending && AtRest(m) && !m.hand.waiting
    ensures var h, n, owner := m.hand, Step(cfg, m, tick), m.catalog.owner;
            var ends := tick.policyFinished && !h.returnAttempted;
            if ends && owner != "" && h.active != owner then
              && n.hand.pending == owner && n.hand.hot && n.hand.returnAttempted && n.command.velocity == STANDSTILL
              && n.catalog.returning && n.catalog.status == m.catalog.status.(phase := BlendOut)
            else if ends && h.active in cfg.returnPolicies && cfg.returnPolicies[h.active] != "" then
              && n.hand.pending == cfg.returnPolicies[h.active] && n.hand.hot && n.hand.returnAttempted && n.catalog == m.catalog
            else n.hand == h && n.catalog == m.catalog
  {
    hide Step, Inv, Calm, Book, AtRest;
    var r := RestsUntilBook(cfg, m, tick);
    BookReturns(cfg, r, tick);
  }

  lemma BookReturns(cfg: Config, m: Manager, tick: Tick)
    requires AtRest(m) && m.previousMode == Rl && !m.hand.waiting
    ensures var h, n, owner := m.hand, Book(cfg, m, tick), m.catalog.owner;
            var ends := tick.policyFinished && !h.returnAttempted;
            if ends && owner != "" && h.active != owner then
              && n.hand.pending == owner && n.hand.hot && n.hand.returnAttempted && n.command.velocity == STANDSTILL
              && n.catalog.returning && n.catalog.status == m.catalog.status.(phase := BlendOut)
            else if ends && h.active in cfg.returnPolicies && cfg.returnPolicies[h.active] != "" then
              && n.hand.pending == cfg.returnPolicies[h.active] && n.hand.hot && n.hand.returnAttempted && n.catalog == m.catalog
            else n.hand == h && n.catalog == m.catalog
  {}

  // ---------------------------------------------------------------- the verdict of a request

  /** The work for a request goes on: nothing fails and no live switch is stopped or cancelled. */
  predicate Unfailing(cfg: Config, m: Manager, tick: Tick) {
    && tick.job != Broken && !tick.launchFails && !Stopped(cfg, m, tick)
    && (m.hand.hot ==> m.fsm.mode == Rl && m.command.key == 0)
  }

  lemma PollUnfailing(cfg: Config, m: Manager, c: Manager, tick: Tick)
    requires JobsSound(m.fsm.mode, m.hand, m.prep) && Polls(cfg, m, c, tick) && Unfailing(cfg, m, tick)
    ensures var n := PollPolicyPreparation(cfg, c, tick);
            n.requests == m.requests && n.fsm.mode == m.fsm.mode && n.prep.running == n.prep.job.Some?
              && n.hand.waiting == m.hand.waiting
            && n.previousMode == m.previousMode && n.hand.final == m.hand.final
  {
    PollReasons(c, tick);
    hide CatalogAfterPoll, LogAfterPoll;
  }

  lemma BookRests(cfg: Config, m: Manager, tick: Tick)
    requires !tick.policyFinished && (m.previousMode == Rl ==> m.fsm.mode == Rl)
    ensures var n := Book(cfg, m, tick);
            (n.hand.waiting ==> m.hand.waiting)
              && (n.hand.waiting == m.hand.waiting ==> RequestedPolicyReady(n) == RequestedPolicyReady(m))
  {
    hide FinishPolicyAction;
  }

  /** When a request that is being prepared is ready: as soon as its policy runs and nothing is
      outstanding, but in RL not before its chain has moved on to it. */
  lemma VerdictExactly(cfg: Config, m: Manager, tick: Tick)
    requires ValidConfig(cfg) && Inv(cfg, m) && Calm(cfg, m, tick) && Unfailing(cfg, m, tick) && !m.startupPending
    requires m.requests.status.phase == Preparing && !tick.policyFinished
        && (m.fsm.mode == Rl ==> Step(cfg, m, tick).fsm.mode == Rl)
    ensures var n := Step(cfg, m, tick);
            if m.hand.waiting && m.fsm.mode == Rl then n.requests.status == m.requests.status
            else if n.hand.waiting == m.hand.waiting then
              n.requests.status == m.requests.status.(phase := if RequestedPolicyReady(n) then Ready else Preparing)
            else m.hand.waiting
  {
    StepsCalmly(cfg, m, tick);
    assert JobsSound(m.fsm.mode, m.hand, m.prep) && m.previousMode == m.fsm.mode;
    hide Inv, Poll, Book, StepPrepare, PollPolicyPreparation, RequestedPolicyReady, StepFsm;
    var c := Poll(cfg, m, tick);
    PollUnfailing(cfg, m, c, tick);
    hide Polls;
    var polled := PollPolicyPreparation(cfg, c, tick);
    PrepareLaunches(cfg, polled, tick);
    PrepareConcludes(cfg, polled, tick);
    PreparesAside(cfg, polled, tick);
    var p := StepPrepare(cfg, polled, tick);
    var ran := RunStates(cfg, p, p.command.key, tick);
    RunsWork(cfg, p, p.command.key, tick);
    BookKeepsFsm(cfg, ran, tick);
    BookRests(cfg, ran, tick);
    SameReady(p, ran);
  }

  lemma SameReady(m: Manager, n: Manager)
    requires n.hand == m.hand && n.prep == m.prep
    ensures RequestedPolicyReady(m) == RequestedPolicyReady(n)
  {}

  // ---------------------------------------------------------------- the robot stands while it switches

  lemma PollHalts(cfg: Config, m: Manager, tick: Tick)
    ensures PollPolicyPreparation(cfg, m, tick).command.velocity == m.command.velocity
  {
    hide DecidePoll, HandAfterPoll, PrepAfterPoll, CatalogAfterPoll, LogAfterPoll, Concluded, ActionArrives;
  }

  lemma PrepareHalts(cfg: Config, m: Manager, tick: Tick)
    ensures StepPrepare(cfg, m, tick).command.velocity == m.command.velocity
  {
    hide DecideLaunch, Concluded, CatalogAfterFailure, ForceSwitch, RequestedPolicyReady;
  }

  lemma AfterHalts(cfg: Config, m: Manager, before: seq<FaultStatus>, tick: Tick)
    ensures var n := StepAfter(cfg, m, before, tick); n.command.velocity in {m.command.velocity, STANDSTILL}
  {
    hide Book, Resolve, ForceSwitch, StepFsm;
    var ran := RunStates(cfg, PrepareAtStartup(cfg, m, tick), m.command.key, tick);
    BookHalts(cfg, LatchStateFault(cfg, ran, before, tick), tick);
  }

  lemma BookHalts(cfg: Config, m: Manager, tick: Tick)
    ensures Book(cfg, m, tick).command.velocity in {m.command.velocity, STANDSTILL}
  {
    hide FinishPolicyAction, ChainRuns;
  }

  /** While a live switch is under way no step lets the robot walk. */
  lemma SwitchStands(cfg: Config, m: Manager, tick: Tick)
    requires ValidConfig(cfg) && Inv(cfg, m) && Calm(cfg, m, tick) && Live(m) && !Stopped(cfg, m, tick)
    ensures Step(cfg, m, tick).command.velocity == STANDSTILL
  {
    PollsCalmly(cfg, m, tick);
    BeforeIsPoll(cfg, m, tick);
    var c := Poll(cfg, m, tick);
    assert c.command.velocity == STANDSTILL by { hide Inv, Calm, Resolved; }
    hide Inv, Poll, StepBefore, StepPrepare, StepAfter, PollPolicyPreparation;
    PollHalts(cfg, c, tick);
    var polled := StepBefore(cfg, m, tick);
    PrepareHalts(cfg, polled, tick);
    AfterHalts(cfg, StepPrepare(cfg, polled, tick), ObserveBefore(cfg, Raised(m, tick), tick).1, tick);
  }

  // ---------------------------------------------------------------- the start-up of a fixed base

  lemma QuietWithoutRl(cfg: Config, m: Manager, c: Manager, tick: Tick)
    requires !cfg.fsm.hasRl && m.fsm.mode != Rl && Tidy(cfg, m) && m.prep.running == m.prep.job.Some? && Polls(cfg, m, c, tick)
    ensures var p := StepPrepare(cfg, PollPolicyPreparation(cfg, c, tick), tick);
            && p.fsm == m.fsm && !p.desk.fault.latched && p.command.key == m.command.key && p.startupPending == m.startupPending
            && p.sensorReceived == m.sensorReceived && p.previousMode == m.previousMode
  {
    hide Concluded;
  }

  lemma StartsUp(cfg: Config, m: Manager, before: seq<FaultStatus>, tick: Tick)
    requires ValidConfig(cfg) && m.startupPending && m.fsm.mode != Rl && !m.desk.fault.latched && !LateTrouble(tick)
    requires !cfg.fsm.hasRl && cfg.fsm.hasTrajectory
    ensures var n := StepAfter(cfg, m, before, tick); var f := m.fsm;
            && (n.startupPending <==> m.command.key == 0 && !(m.sensorReceived && f.mode == Trajectory))
            && (m.command.key == 0 && m.sensorReceived ==>
                  && n.command.key == 0
                  && n.fsm.mode == match f.mode
                     case PowerOff => Home
                     case Home => if f.home.finished then Zero else Home
                     case Zero => if f.zero.finished then Trajectory else Zero
                     case Safety => if f.safety.finished then PowerOff else Safety
                     case other => other)
  {
    hide Book, Resolve;
    var started := PrepareAtStartup(cfg, m, tick);
    RunsClean(cfg.fsm, started.fsm, started.command.key, m.desk.fault, tick);
    var ran := RunStates(cfg, started, m.command.key, tick);
    assert LatchStateFault(cfg, ran, before, tick) == ran;
    BookKeepsFsm(cfg, ran, tick);
    BookStartup(cfg, ran, tick);
  }

  lemma BookStartup(cfg: Config, m: Manager, tick: Tick)
    ensures Book(cfg, m, tick).startupPending == m.startupPending && Book(cfg, m, tick).command.key == m.command.key
  {
    hide FinishPolicyAction, ChainRuns;
  }

  /** The start-up of a fixed base goes by itself from POWER_OFF through HOME and ZERO to TRAJECTORY,
      one mode a step and each as soon as the one before is done; it is over when it has arrived or
      when a key is pressed, and it waits for the first sensor data. */
  lemma StartupExactly(cfg: Config, events: seq<Event>, tick: Tick)
    requires ValidConfig(cfg) && Run(cfg, events).startupPending && Calm(cfg, Run(cfg, events), tick)
    ensures var m, n := Run(cfg, events), Step(cfg, Run(cfg, events), tick); var f := m.fsm;
            && (n.startupPending <==> m.command.key == 0 && !(m.sensorReceived && f.mode == Trajectory))
            && (m.command.key == 0 && m.sensorReceived ==>
                  && n.command.key == 0
                  && n.fsm.mode == match f.mode
                     case PowerOff => Home
                     case Home => if f.home.finished then Zero else Home
                     case Zero => if f.zero.finished then Trajectory else Zero
                     case Safety => if f.safety.finished then PowerOff else Safety
                     case other => other)
  {
    var m := Run(cfg, events);
    RunHolds(cfg, events);
    RunTidy(cfg, events);
    PollsCalmly(cfg, m, tick);
    BeforeIsPoll(cfg, m, tick);
    StartsWithoutRl(cfg, m);
    hide Run, Inv, Poll, Calm, Polls, Tidy, StepBefore, StepPrepare, StepAfter, PollPolicyPreparation;
    QuietWithoutRl(cfg, m, Poll(cfg, m, tick), tick);
    var p := StepPrepare(cfg, StepBefore(cfg, m, tick), tick);
    assert !LateTrouble(tick) by { CalmIsEarly(cfg, m, tick); }
    StartsUp(cfg, p, ObserveBefore(cfg, Raised(m, tick), tick).1, tick);
  }

  lemma CalmIsEarly(cfg: Config, m: Manager, tick: Tick)
    requires Calm(cfg, m, tick)
    ensures !LateTrouble(tick)
  {}

  lemma StartsWithoutRl(cfg: Config, m: Manager)
    requires ValidConfig(cfg) && Inv(cfg, m) && m.startupPending
    ensures !cfg.fsm.hasRl && cfg.fsm.hasTrajectory && m.fsm.mode != Rl && m.prep.running == m.prep.job.Some?
  {}

  // ---------------------------------------------------------------- what the catalog shows

  /** The catalog after the installation of `policy`: the entry policy ends the action, an action's
      policy plays it, and any other policy brings its own entry. */
  predicate ShownFor(cfg: Config, policy: Name, k: Catalog, n: Catalog) {
    if policy == k.owner then
      && n.owner == k.owner && n.target == "" && !n.returning && n.status.action == k.status.action
      && ((k.target != "" || k.returning) && k.status.action != "" ==>
            n.status.phase == Finished && n.status.accepted && n.status.progress == 1.0)
    else if Plays(policy, k) then n == k.(status := k.status.(phase := Playing))
    else n == Catalog(OwnerOf(cfg, policy), "", false, k.previousSequence, NO_STATUS)
  }

  /** `policy` is the action that has been started. */
  predicate Plays(policy: Name, k: Catalog) { policy == k.target != "" && policy != k.owner && !k.returning }

  lemma PollShows(cfg: Config, m: Manager, c: Manager, tick: Tick)
    requires JobsSound(m.fsm.mode, m.hand, m.prep) && Polls(cfg, m, c, tick) && !Stopped(cfg, m, tick)
    requires Wanted(m, tick) && Live(m) && tick.switchReady && m.hand.pending != m.hand.active && tick.rlEntry.None?
    ensures var n := PollPolicyPreparation(cfg, c, tick);
            && n.hand.active == n.hand.pending && n.fsm.mode == Rl && n.fsm.rl.fault.None? && n.previousMode == m.previousMode
            && ShownFor(cfg, m.hand.pending, m.catalog, n.catalog) && n.residence == 0.0
            && n.command.key == (if Plays(m.hand.pending, m.catalog) then 5 else m.command.key)
  {
    hide LogAfterPoll, Concluded, PrepAfterPoll;
  }

  lemma PrepareShows(cfg: Config, m: Manager, tick: Tick)
    requires !m.desk.fault.latched && m.hand.pending == m.hand.active
    ensures StepPrepare(cfg, m, tick).catalog == m.catalog
  {
    hide Concluded, RequestedPolicyReady;
  }

  lemma BookShows(cfg: Config, m: Manager, tick: Tick)
    requires m.fsm.mode == Rl && !tick.policyFinished
    ensures Book(cfg, m, tick).catalog == m.catalog
  {
    hide ChainRuns;
  }

  /** What an installation in RL shows in the catalog; a started action is told to begin. */
  lemma InstallShows(cfg: Config, m: Manager, tick: Tick)
    requires ValidConfig(cfg) && Inv(cfg, m) && Calm(cfg, m, tick) && !m.startupPending && !Stopped(cfg, m, tick)
    requires Live(m) && m.hand.pending != m.hand.active && tick.switchReady && Wanted(m, tick)
    requires !tick.policyFinished && m.command.key == 0
    ensures ShownFor(cfg, m.hand.pending, m.catalog, Step(cfg, m, tick).catalog)
    ensures StepBefore(cfg, m, tick).command.key == if Plays(m.hand.pending, m.catalog) then 5 else 0
  {
    StepsCalmly(cfg, m, tick);
    BeforeIsPoll(cfg, m, tick);
    assert JobsSound(m.fsm.mode, m.hand, m.prep) && m.fsm.mode == Rl && !LateTrouble(tick);
    hide Inv, Poll, Polls, Book, StepBefore, StepPrepare, PollPolicyPreparation, ShownFor, Plays, Calm, LateTrouble,
      Live, Wanted, Stopped, RunStates;
    var c := Poll(cfg, m, tick);
    PollShows(cfg, m, c, tick);
    var polled := PollPolicyPreparation(cfg, c, tick);
    PreparesAside(cfg, polled, tick);
    PrepareShows(cfg, polled, tick);
    var p := StepPrepare(cfg, polled, tick);
    RunShows(cfg, p, tick);
    BookShows(cfg, RunStates(cfg, p, p.command.key, tick), tick);
  }

  lemma RunShows(cfg: Config, m: Manager, tick: Tick)
    requires m.fsm.mode == Rl && m.fsm.rl.fault.None? && !LateTrouble(tick) && m.command.key in {0, 5}
    ensures var r := RunStates(cfg, m, m.command.key, tick); r.fsm.mode == Rl && r.catalog == m.catalog
  {}

  // ---------------------------------------------------------------- a switch or a residence that ends

  /** A live switch ends with the fault or the stop key that ends its residence. */
  predicate Ended(cfg: Config, m: Manager, tick: Tick) {
    RootReport(cfg, m, tick).Some? || m.desk.fault.latched || Stopped(cfg, m, tick)
  }

  lemma BeforeEnds(cfg: Config, m: Manager, tick: Tick)
    requires Inv(cfg, m) && Live(m) && Ended(cfg, m, tick) && m.requests.status.phase == Preparing && tick.job != Broken
    ensures var n := StepBefore(cfg, m, tick);
            && n.hand.active == n.hand.pending == m.hand.active && !n.hand.hot && !n.hand.waiting
            && n.requests.status == m.requests.status.(phase := Refused)
  {
    if !m.desk.fault.latched {
      Resolves(cfg, m, tick);
    }
    assert JobsSound(m.fsm.mode, m.hand, m.prep) && m.fsm.mode == Rl && (m.desk.fault.latched ==> m.fsm.mode != Rl);
    hide Inv, ObserveBefore, Resolve;
    var r := Resolved(cfg, m, tick);
    assert r.hand == m.hand && r.fsm.mode == Rl && r.requests == m.requests && r.prep == m.prep && r.command == m.command;
    assert GivesUp(cfg, r, tick.now);
    var c := Poll(cfg, m, tick);
    assert c.hand == Retained(m.hand) && c.prep == m.prep && c.requests == Concluded(m.requests, Refused) && c.fsm.mode == Rl;
    EndedPoll(cfg, c, tick);
    BeforeIsPoll(cfg, m, tick);
  }

  lemma EndedPoll(cfg: Config, m: Manager, tick: Tick)
    requires JobsSound(Rl, m.hand, m.prep) && m.hand.pending == m.hand.active && !m.hand.hot && !m.hand.waiting
    requires m.requests.status.phase == Refused
    ensures var n := PollPolicyPreparation(cfg, m, tick);
            n.hand.active == n.hand.pending == m.hand.active && !n.hand.hot && !n.hand.waiting
              && n.requests.status == m.requests.status
  {
    PollReasons(m, tick);
    hide CatalogAfterPoll, LogAfterPoll, ActionArrives;
  }

  lemma PrepareRefused(cfg: Config, m: Manager, tick: Tick)
    requires m.requests.status.phase == Refused
    ensures StepPrepare(cfg, m, tick).requests.status == m.requests.status && StepPrepare(cfg, m, tick).hand.active == m.hand.active
  {
    hide DecideLaunch, CatalogAfterFailure, ForceSwitch, RequestedPolicyReady;
  }

  lemma AfterRefused(cfg: Config, m: Manager, before: seq<FaultStatus>, tick: Tick)
    ensures var n := StepAfter(cfg, m, before, tick); n.requests == m.requests && n.hand.active == m.hand.active
  {
    hide Book, StepFsm, Resolve, ForceSwitch;
    var ran := RunStates(cfg, PrepareAtStartup(cfg, m, tick), m.command.key, tick);
    var latched := LatchStateFault(cfg, ran, before, tick);
    assert latched.requests == m.requests && latched.hand == m.hand;
    BookWork(cfg, latched, tick);
    BookKeepsActive(cfg, latched, tick);
  }

  /** A request whose switch ends with a fault, a stop key or its clock is refused, and the policy
      that ran stays. */
  lemma EndedIsRefused(cfg: Config, m: Manager, tick: Tick)
    requires Inv(cfg, m) && Live(m) && Ended(cfg, m, tick) && m.requests.status.phase == Preparing && tick.job != Broken
    ensures var n := Step(cfg, m, tick);
            n.requests.status == m.requests.status.(phase := Refused) && n.hand.active == m.hand.active
  {
    hide Inv, StepBefore, StepPrepare, StepAfter;
    BeforeEnds(cfg, m, tick);
    var polled := StepBefore(cfg, m, tick);
    PrepareRefused(cfg, polled, tick);
    AfterRefused(cfg, StepPrepare(cfg, polled, tick), ObserveBefore(cfg, Raised(m, tick), tick).1, tick);
  }

  lemma BookLeaves(cfg: Config, m: Manager, tick: Tick)
    requires m.previousMode == Rl && m.fsm.mode != Rl && (m.catalog.owner == "" ==> m.catalog.target == "" && !m.catalog.returning)
    ensures LeftRl(Book(cfg, m, tick))
  {}

  /** After RL nothing of the catalog is under way, its entry policy is wanted, preparing may begin
      anew, and in POWER_OFF no chain is waiting. */
  predicate LeftRl(n: Manager) {
    && n.catalog.target == "" && !n.catalog.returning
    && (n.catalog.owner != "" ==> n.hand.pending == n.catalog.owner && !n.hand.hot)
    && !n.prep.failed && !n.prep.runtimeReady && n.residence == 0.0 && (n.fsm.mode == PowerOff ==> !n.hand.waiting)
  }

  /** What any step that leaves RL leaves behind. */
  lemma LeavingEndsAll(cfg: Config, m: Manager, tick: Tick)
    requires ValidConfig(cfg) && Inv(cfg, m) && CatalogSound(cfg, m.hand.active, m.catalog)
    requires m.fsm.mode == Rl && Step(cfg, m, tick).fsm.mode != Rl
    ensures LeftRl(Step(cfg, m, tick))
  {
    assert m.previousMode == Rl && Owned(m.catalog);
    hide Inv, CatalogSound, StepBefore, StepPrepare, Book, ObserveBefore;
    var polled := StepBefore(cfg, m, tick);
    BeforeOwned(cfg, m, tick);
    PrepareOwned(cfg, polled, tick);
    var p := StepPrepare(cfg, polled, tick);
    var before := ObserveBefore(cfg, Raised(m, tick), tick).1;
    hide LatchStateFault, RunStates, PrepareAtStartup;
    var latched := LatchStateFault(cfg, RunStates(cfg, PrepareAtStartup(cfg, p, tick), p.command.key, tick), before, tick);
    LatchOwned(cfg, p, before, tick);
    BookKeepsFsm(cfg, latched, tick);
    BookLeaves(cfg, latched, tick);
  }

  /** Without an entry policy no action is under way. */
  predicate Owned(c: Catalog) { c.owner == "" ==> c.target == "" && !c.returning }

  lemma PollOwned(cfg: Config, m: Manager, tick: Tick)
    requires Owned(m.catalog)
    ensures Owned(PollPolicyPreparation(cfg, m, tick).catalog)
  {
    hide DecidePoll, HandAfterPoll, PrepAfterPoll, LogAfterPoll, Concluded;
  }

  lemma BeforeOwned(cfg: Config, m: Manager, tick: Tick)
    requires Owned(m.catalog)
    ensures Owned(StepBefore(cfg, m, tick).catalog) && StepBefore(cfg, m, tick).previousMode == m.previousMode
  {
    hide ObserveBefore, Resolve, PollPolicyPreparation;
    var (desk, seen) := ObserveBefore(cfg, Raised(m, tick), tick);
    PollOwned(cfg, RequestHandoff(CancelRunningSwitch(cfg, ResolveIn(Raised(m, tick), desk, seen), tick.now)), tick);
    BeforeFewer(cfg, m, tick);
  }

  lemma PrepareOwned(cfg: Config, m: Manager, tick: Tick)
    requires Owned(m.catalog)
    ensures Owned(StepPrepare(cfg, m, tick).catalog) && StepPrepare(cfg, m, tick).previousMode == m.previousMode
  {
    hide ForceSwitch, Concluded, RequestedPolicyReady;
  }

  lemma LatchOwned(cfg: Config, m: Manager, before: seq<FaultStatus>, tick: Tick)
    ensures var n := LatchStateFault(cfg, RunStates(cfg, PrepareAtStartup(cfg, m, tick), m.command.key, tick), before, tick);
            n.catalog == m.catalog && n.previousMode == m.previousMode
  {
    hide ForceSwitch, StepFsm, Resolve;
  }
}
