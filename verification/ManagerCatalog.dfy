/** The policy catalog and the switch groups over whole runs: what the catalog shows is what
    runs, and in RL the active policy changes only within its switch group. */
module ManagerCatalog {
  import opened RobotBase
  import opened Fsm
  import opened Manager
  import opened ManagerInvariant
  import opened ManagerTheorems

  function Children(cfg: Config, owner: Name): set<Name> {
    if owner in cfg.actions then cfg.actions[owner].Values else {}
  }

  /** The entry policy of the catalog or one of its actions is active, a started action belongs
      to the entry, and an action shown as playing is the one that runs. */
  ghost predicate CatalogSound(cfg: Config, active: Name, c: Catalog) {
    && (c.owner != "" ==> c.owner in cfg.actions && (active == c.owner || active in Children(cfg, c.owner)))
    && (c.target != "" ==> c.owner != "" && c.target in Children(cfg, c.owner))
    && (c.returning ==> c.owner != "")
    && (c.status.phase == BlendIn ==> c.target != "")
    && (c.status.phase == Playing ==> c.target != "" && active == c.target && !c.returning)
  }

  /** In RL a pending policy belongs to the switch group of the active one. */
  ghost predicate Grouped(cfg: Config, mode: Mode, h: Handoff) {
    mode == Rl && h.pending != h.active ==> SameSwitchGroup(cfg, h.active, h.pending)
  }

  ghost predicate Bound(cfg: Config, m: Manager, crossed: bool) {
    CatalogSound(cfg, m.hand.active, m.catalog) && (crossed || Grouped(cfg, m.fsm.mode, m.hand))
  }

  /** While RL runs the active policy changes only within its switch group. */
  predicate StaysInGroup(cfg: Config, m: Manager, n: Manager) {
    m.fsm.mode == Rl && n.hand.active != m.hand.active ==> SameSwitchGroup(cfg, m.hand.active, n.hand.active)
  }

  /** Some chain has moved on from a prerequisite to a target of another group. */
  ghost predicate Crossed(cfg: Config, log: seq<Note>) {
    exists i :: 0 <= i < |log| && log[i].Advanced? && !SameSwitchGroup(cfg, log[i].policy, log[i].target)
  }

  lemma StillUncrossed(cfg: Config, old_: seq<Note>, new_: seq<Note>)
    requires old_ <= new_ && (forall i | |old_| <= i < |new_| :: !new_[i].Advanced?) && Crossed(cfg, new_)
    ensures Crossed(cfg, old_)
  {
    var i :| 0 <= i < |new_| && new_[i].Advanced? && !SameSwitchGroup(cfg, new_[i].policy, new_[i].target);
    assert old_[i] == new_[i];
  }

  lemma CrossedGrows(cfg: Config, old_: seq<Note>, new_: seq<Note>)
    requires old_ <= new_ && Crossed(cfg, old_)
    ensures Crossed(cfg, new_)
  {
    var i :| 0 <= i < |old_| && old_[i].Advanced? && !SameSwitchGroup(cfg, old_[i].policy, old_[i].target);
    assert new_[i] == old_[i];
  }

  // ---------------------------------------------------------------- the catalog alone

  lemma FinishSound(cfg: Config, active: Name, c: Catalog, accepted: bool)
    requires CatalogSound(cfg, active, c)
    ensures CatalogSound(cfg, active, FinishPolicyAction(c, accepted))
  {}

  lemma FailureSound(cfg: Config, active: Name, c: Catalog, policy: Name)
    requires CatalogSound(cfg, active, c)
    ensures CatalogSound(cfg, active, CatalogAfterFailure(c, policy))
  {
    FinishSound(cfg, active, c, false);
  }

  lemma InstallSound(cfg: Config, active: Name, c: Catalog, policy: Name)
    requires CatalogSound(cfg, active, c)
    ensures CatalogSound(cfg, policy, CatalogAfterInstall(cfg, c, policy))
  {}

  /** What a decision of the catalog says about the state it was made in. */
  lemma ActionReasons(cfg: Config, m: Manager, r: Interaction)
    requires ValidConfig(cfg)
    ensures var d, owner := DecideAction(cfg, m, r), m.catalog.owner;
            && (d.Pass? || d.Mute? || owner != "")
            && (d.CancelAtOwner? ==> m.hand.active == owner)
            && (d.ReturnToOwner? ==> m.hand.active != owner)
            && (d.Begin? ==> m.hand.active == owner && owner in cfg.actions && d.target != "" && d.target in Children(cfg, owner))
  {
    hide ActionsAllowed, RequestedPolicyReady;
    var d := DecideAction(cfg, m, r);
    if d.Begin? {
      assert d.target == cfg.actions[m.catalog.owner][r.action];
    }
  }

  lemma ActionSound(cfg: Config, active: Name, c: Catalog, r: Interaction, d: ActionDecision)
    requires CatalogSound(cfg, active, c) && (d.Pass? || d.Mute? || c.owner != "")
    requires d.Begin? ==> d.target != "" && d.target in Children(cfg, c.owner)
    ensures CatalogSound(cfg, active, CatalogAfterAction(c, r, d))
  {}

  /** An entry and its actions share their group. */
  lemma FamilyShares(cfg: Config, owner: Name, child: Name)
    requires ValidConfig(cfg) && owner in cfg.actions && child in Children(cfg, owner)
    ensures SameSwitchGroup(cfg, owner, child) && SameSwitchGroup(cfg, child, owner)
  {
    var a :| a in cfg.actions[owner] && cfg.actions[owner][a] == child;
  }

  // ---------------------------------------------------------------- stages

  lemma CancelBound(cfg: Config, m: Manager, now: real, crossed: bool)
    requires Bound(cfg, m, crossed)
    ensures var n := CancelRunningSwitch(cfg, m, now);
            Bound(cfg, n, crossed) && n.hand.active == m.hand.active && n.fsm == m.fsm
  {
    hide CatalogSound, CatalogAfterFailure, Concluded;
    FailureSound(cfg, m.hand.active, m.catalog, m.hand.pending);
  }

  /** Only an installation changes the active policy, and it installs the pending one. */
  lemma PollBound(cfg: Config, m: Manager, tick: Tick, crossed: bool)
    requires Bound(cfg, m, crossed)
    ensures var n := PollPolicyPreparation(cfg, m, tick);
            && Bound(cfg, n, crossed) && n.fsm.mode == m.fsm.mode
            && (n.hand.active == m.hand.active || n.hand.active == m.hand.pending)
  {
    hide CatalogSound, DecidePoll, CatalogAfterFailure, CatalogAfterInstall, PrepAfterPoll, LogAfterPoll, Concluded,
         ActionArrives;
    PollReasons(m, tick);
    var d := DecidePoll(m, tick);
    if d.Install? {
      InstallSound(cfg, m.hand.active, m.catalog, d.policy);
    } else if d.Unavailable? {
      FailureSound(cfg, m.hand.active, m.catalog, d.policy);
    }
  }

  lemma BeforeBound(cfg: Config, m: Manager, tick: Tick, crossed: bool)
    requires Bound(cfg, m, crossed)
    ensures var n := StepBefore(cfg, m, tick);
            && Bound(cfg, n, crossed)
            && (m.fsm.mode == Rl && n.hand.active != m.hand.active && !crossed ==>
                  SameSwitchGroup(cfg, m.hand.active, n.hand.active))
  {
    var raised := m.(fsm := RaiseIn(m.fsm, tick.rlBefore));
    var (desk, seen) := ObserveBefore(cfg, raised, tick);
    var resolved := ResolveIn(raised, desk, seen);
    assert resolved.hand == m.hand && resolved.catalog == m.catalog && resolved.fsm.mode == m.fsm.mode;
    CancelBound(cfg, resolved, tick.now, crossed);
    var cancelled := CancelRunningSwitch(cfg, resolved, tick.now);
    var asked := RequestHandoff(cancelled);
    assert asked.hand == cancelled.hand && asked.catalog == cancelled.catalog && asked.fsm.mode == cancelled.fsm.mode;
    PollBound(cfg, asked, tick, crossed);
  }

  lemma PrepareBound(cfg: Config, m: Manager, tick: Tick, crossed: bool)
    requires Bound(cfg, m, crossed)
    ensures var n := StepPrepare(cfg, m, tick); Bound(cfg, n, crossed) && n.hand.active == m.hand.active
  {
    var confined := ConfineFault(cfg, m, tick);
    assert confined.hand == m.hand && confined.catalog == m.catalog && (confined.fsm.mode == Rl ==> m.fsm.mode == Rl);
    LaunchBound(cfg, confined, tick, crossed);
  }

  lemma LaunchBound(cfg: Config, m: Manager, tick: Tick, crossed: bool)
    requires Bound(cfg, m, crossed)
    ensures var n := PreparePending(cfg, m, tick); Bound(cfg, n, crossed) && n.hand.active == m.hand.active && n.fsm == m.fsm
  {
    hide CatalogSound, CatalogAfterFailure, Concluded, DecideLaunch;
    FailureSound(cfg, m.hand.active, m.catalog, m.hand.pending);
  }

  /** RL is entered with the requested policy active. */
  lemma StatesBound(cfg: Config, m: Manager, requestedKey: int, tick: Tick, crossed: bool)
    requires ValidConfig(cfg) && Staged(cfg, m) && Bound(cfg, m, crossed)
    ensures Bound(cfg, RunStates(cfg, m, requestedKey, tick), crossed)
  {
    StepModes(cfg.fsm, RaiseIn(m.fsm, tick.rlMid), m.command.key, m.desk.fault, tick);
    hide StepFsm, CatalogSound;
  }

  lemma LeaveBound(cfg: Config, m: Manager, crossed: bool)
    requires Bound(cfg, m, crossed)
    ensures Bound(cfg, LeaveRl(m), crossed) && LeaveRl(m).hand.active == m.hand.active && LeaveRl(m).log == m.log
  {
    hide CatalogSound, FinishPolicyAction;
    FinishSound(cfg, m.hand.active, m.catalog, true);
  }

  /** The chain's next step leaves the group of the active policy. */
  ghost predicate Crosses(cfg: Config, m: Manager, tick: Tick) {
    AdvanceChain(cfg, m, tick).log != m.log && !SameSwitchGroup(cfg, m.hand.active, m.hand.final)
  }

  lemma AdvanceBound(cfg: Config, m: Manager, tick: Tick, crossed: bool)
    requires Bound(cfg, m, crossed)
    ensures var n := AdvanceChain(cfg, m, tick);
            && Bound(cfg, n, crossed || Crosses(cfg, m, tick))
            && n.hand.active == m.hand.active && n.fsm == m.fsm && n.catalog == m.catalog
            && (Crosses(cfg, m, tick) ==> Crossed(cfg, n.log) && n.log != [] && n.log[|n.log| - 1].Advanced?)
  {
    hide CatalogSound;
    var n := AdvanceChain(cfg, m, tick);
    if n.log != m.log {
      assert n.log[|n.log| - 1] == Advanced(m.hand.final, m.hand.active, m.residence);
    }
  }

  lemma ReturnBound(cfg: Config, m: Manager, tick: Tick, crossed: bool)
    requires ValidConfig(cfg) && Bound(cfg, m, crossed)
    ensures var n := ReturnFinished(cfg, m, tick); Bound(cfg, n, crossed) && n.hand.active == m.hand.active && n.log == m.log
  {
    if DecideReturn(cfg, m, tick).ToOwner? {
      FamilyShares(cfg, m.catalog.owner, m.hand.active);
    }
  }

  lemma BookBound(cfg: Config, m: Manager, tick: Tick, crossed: bool)
    requires ValidConfig(cfg) && Bound(cfg, m, crossed)
    ensures var n := Book(cfg, m, tick);
            Bound(cfg, n, crossed || Crossed(cfg, n.log)) && n.hand.active == m.hand.active
  {
    LeaveBound(cfg, m, crossed);
    var counted := CountResidence(LeaveRl(m), tick.dt);
    var advanced := AdvanceChain(cfg, counted, tick);
    BookLog(cfg, m, tick);
    hide LeaveRl, AdvanceChain, ReturnFinished, CatalogSound;
    AdvanceBound(cfg, counted, tick, crossed);
    ReturnBound(cfg, advanced, tick, crossed || Crosses(cfg, counted, tick));
  }

  lemma BookLog(cfg: Config, m: Manager, tick: Tick)
    ensures Book(cfg, m, tick).log == AdvanceChain(cfg, CountResidence(LeaveRl(m), tick.dt), tick).log
  {
    hide FinishPolicyAction, DecideReturn;
  }

  lemma AfterBound(cfg: Config, m: Manager, before: seq<FaultStatus>, tick: Tick, crossed: bool)
    requires ValidConfig(cfg) && Staged(cfg, m) && Bound(cfg, m, crossed)
    ensures var n := StepAfter(cfg, m, before, tick);
            Bound(cfg, n, crossed || Crossed(cfg, n.log)) && n.hand.active == m.hand.active
  {
    hide Book, CatalogSound, Crossed, ValidConfig, Resolve;
    StartupKeeps(cfg, m, tick);
    var started := PrepareAtStartup(cfg, m, tick);
    assert started.hand == m.hand && started.catalog == m.catalog && (started.fsm.mode == Rl ==> m.fsm.mode == Rl);
    StatesBound(cfg, started, m.command.key, tick, crossed);
    var ran := RunStates(cfg, started, m.command.key, tick);
    var latched := LatchStateFault(cfg, ran, before, tick);
    assert latched.hand == ran.hand == m.hand && latched.catalog == ran.catalog;
    assert latched.fsm.mode == Rl ==> ran.fsm.mode == Rl;
    BookBound(cfg, latched, tick, crossed);
  }

  lemma StepBound(cfg: Config, m: Manager, tick: Tick)
    requires ValidConfig(cfg) && Inv(cfg, m) && Bound(cfg, m, Crossed(cfg, m.log))
    ensures var n := Step(cfg, m, tick); Bound(cfg, n, Crossed(cfg, n.log)) && m.log <= n.log
    ensures Crossed(cfg, m.log) || StaysInGroup(cfg, m, Step(cfg, m, tick))
  {
    hide StepBefore, StepPrepare, StepAfter, Bound, Inv, ValidConfig, Staged, Crossed, SameSwitchGroup;
    var crossed := Crossed(cfg, m.log);
    var seen := ObserveBefore(cfg, m.(fsm := RaiseIn(m.fsm, tick.rlBefore)), tick).1;
    var polled := StepBefore(cfg, m, tick);
    ModesMeet(cfg, m);
    BeforeBound(cfg, m, tick, crossed);
    StepBeforeKeeps(cfg, m, tick);
    PrepareBound(cfg, polled, tick, crossed);
    StepPrepareKeeps(cfg, polled, tick);
    AfterBound(cfg, StepPrepare(cfg, polled, tick), seen, tick, crossed);
    StepExtends(cfg, m, tick);
    if crossed {
      CrossedGrows(cfg, m.log, Step(cfg, m, tick).log);
    }
  }

  lemma ModesMeet(cfg: Config, m: Manager)
    requires Inv(cfg, m)
    ensures m.previousMode == m.fsm.mode
  {}

  // ---------------------------------------------------------------- commands

  lemma ActionBound(cfg: Config, m: Manager, r: Interaction, now: real, crossed: bool)
    requires ValidConfig(cfg) && Bound(cfg, m, crossed)
    ensures var n := HandlePolicyAction(cfg, m, r, now);
            Bound(cfg, n, crossed) && n.hand.active == m.hand.active && n.fsm == m.fsm
  {
    hide CatalogAfterAction, DecideAction, Halted, ValidConfig, Children;
    ActionReasons(cfg, m, r);
    var d, owner := DecideAction(cfg, m, r), m.catalog.owner;
    ActionSound(cfg, m.hand.active, m.catalog, r, d);
    if d.ReturnToOwner? {
      FamilyShares(cfg, owner, m.hand.active);
    } else if d.Begin? {
      FamilyShares(cfg, owner, d.target);
    }
  }

  lemma RequestBound(cfg: Config, m: Manager, policy: Name, sequence: nat, now: real, crossed: bool)
    requires Bound(cfg, m, crossed)
    ensures var n := SwitchPolicy(cfg, m, policy, sequence, now); Bound(cfg, n, crossed) && n.hand.active == m.hand.active
  {
    hide CatalogSound, FinishPolicyAction;
    FinishSound(cfg, m.hand.active, m.catalog, true);
  }

  lemma CommandBound(cfg: Config, m: Manager, c: Command, now: real, crossed: bool)
    requires ValidConfig(cfg) && Bound(cfg, m, crossed)
    ensures var n := SetCommand(cfg, m, c, now); Bound(cfg, n, crossed) && n.hand.active == m.hand.active
  {
    ActionBound(cfg, m.(command := c), c.interaction, now, crossed);
    var told := Told(cfg, m, c, now);
    hide HandlePolicyAction, SwitchPolicy, CatalogSound;
    if AsksForPolicy(m, c) {
      RequestBound(cfg, told, c.switchPolicy, c.requestSequence, now, crossed);
    }
  }

  /** Neither does a command change the active policy, nor does it move a chain on. */
  lemma CommandStays(cfg: Config, m: Manager, c: Command, now: real)
    requires ValidConfig(cfg) && Bound(cfg, m, Crossed(cfg, m.log))
    ensures var n := SetCommand(cfg, m, c, now);
            Bound(cfg, n, Crossed(cfg, n.log)) && n.hand.active == m.hand.active && m.log <= n.log
  {
    hide CatalogSound, Grouped, ValidConfig, SetCommand, Crossed;
    CommandBound(cfg, m, c, now, Crossed(cfg, m.log));
    CommandExtends(cfg, m, c, now);
    if Crossed(cfg, m.log) {
      CrossedGrows(cfg, m.log, SetCommand(cfg, m, c, now).log);
    }
  }

  lemma CommandExtends(cfg: Config, m: Manager, c: Command, now: real)
    ensures var log := SetCommand(cfg, m, c, now).log;
            m.log <= log && forall i | |m.log| <= i < |log| :: !log[i].Advanced?
  {
    assert Told(cfg, m, c, now).log == m.log;
  }

  lemma ApplyBound(cfg: Config, m: Manager, e: Event)
    requires ValidConfig(cfg) && Inv(cfg, m) && Bound(cfg, m, Crossed(cfg, m.log))
    ensures var n := Apply(cfg, m, e); Bound(cfg, n, Crossed(cfg, n.log)) && m.log <= n.log
    ensures Crossed(cfg, m.log) || StaysInGroup(cfg, m, Apply(cfg, m, e))
  {
    hide Step, SetCommand, ValidConfig, CatalogSound, Crossed, SameSwitchGroup;
    match e
    case OnTick(tick) => StepBound(cfg, m, tick);
    case OnCommand(c, now) => CommandStays(cfg, m, c, now);
    case OnAcknowledge(_) =>
    case OnSensorFault(_) =>
    case OnSensorData =>
  }

  lemma {:induction false} RunBound(cfg: Config, events: seq<Event>)
    requires ValidConfig(cfg)
    ensures Bound(cfg, Run(cfg, events), Crossed(cfg, Run(cfg, events).log))
    decreases |events|
  {
    hide Apply, Inv, ValidConfig, Crossed;
    if events != [] {
      var shorter := events[..|events| - 1];
      RunBound(cfg, shorter);
      RunHolds(cfg, shorter);
      ApplyBound(cfg, Run(cfg, shorter), events[|events| - 1]);
    }
  }

  // ---------------------------------------------------------------- theorems

  /** What the catalog shows is what runs: its entry or one of the entry's actions is active, a
      started action is one of the entry's, and an action shown as playing is the active policy. */
  lemma CatalogShowsTheTruth(cfg: Config, events: seq<Event>)
    requires ValidConfig(cfg)
    ensures var m := Run(cfg, events); CatalogSound(cfg, m.hand.active, m.catalog)
  {
    hide Run, CatalogSound, Crossed;
    RunBound(cfg, events);
  }

  /** Unless a chain has crossed groups, no call changes the active policy in RL to one of
      another group. */
  lemma ActiveStaysInGroup(cfg: Config, events: seq<Event>, e: Event)
    requires ValidConfig(cfg)
    ensures Crossed(cfg, Run(cfg, events).log) || StaysInGroup(cfg, Run(cfg, events), Apply(cfg, Run(cfg, events), e))
  {
    hide Run, Apply, Inv, Bound, ValidConfig, Crossed, StaysInGroup;
    RunBound(cfg, events);
    RunHolds(cfg, events);
    ApplyBound(cfg, Run(cfg, events), e);
  }

  /** With prerequisites in the group of their targets this covers every run. */
  lemma GroupedStaysInGroup(cfg: Config, events: seq<Event>, e: Event)
    requires ValidConfig(cfg) && PrerequisitesShareGroup(cfg)
    ensures StaysInGroup(cfg, Run(cfg, events), Apply(cfg, Run(cfg, events), e))
  {
    hide Run, Apply, Inv, ValidConfig, StaysInGroup;
    ActiveStaysInGroup(cfg, events, e);
    RunHolds(cfg, events);
    var log := Run(cfg, events).log;
    LogOf(cfg, Run(cfg, events));
    forall i | 0 <= i < |log| && log[i].Advanced?
      ensures SameSwitchGroup(cfg, log[i].policy, log[i].target)
    {
      assert NoteSound(cfg, log[i]);
      assert SameSwitchGroup(cfg, log[i].target, log[i].policy);
    }
  }

  // ---------------------------------------------------------------- what requests come to

  /** A request that is repeated every frame is heard once: the second time nothing happens. */
  lemma ActionHeardOnce(cfg: Config, m: Manager, r: Interaction, now: real, later: real)
    ensures var n := HandlePolicyAction(cfg, m, r, now); HandlePolicyAction(cfg, n, r, later) == n
  {
    hide ActionsAllowed, RequestedPolicyReady, CatalogEntry, HandedTo;
    var n := HandlePolicyAction(cfg, m, r, now);
    assert n.catalog.owner == m.catalog.owner;
    assert DecideAction(cfg, n, r) == if m.catalog.owner == "" then Pass else Mute;
  }

  /** A refused action leaves the handoff, the preparation and the catalog's course alone, and the
      action that is running stays shown. */
  lemma RefusedActionIsHarmless(cfg: Config, m: Manager, r: Interaction, now: real)
    requires DecideAction(cfg, m, r).Refuse?
    ensures var n := HandlePolicyAction(cfg, m, r, now); var c, d := m.catalog, n.catalog;
            && n == m.(command := m.command.(interaction := NO_INTERACTION), catalog := d)
            && d.owner == c.owner && d.target == c.target && d.returning == c.returning
            && d.status.sequence == r.sequence && !d.status.accepted
            && (c.target != "" ==> d.status.phase == c.status.phase && d.status.action == c.status.action)
            && (c.target == "" ==> d.status.phase in {Idle, Rejected} && d.status.action == r.action)
  {
    hide DecideAction;
  }

  /** The verdict on a policy request tells the truth: ready means that the policy runs and nothing
      else is pending, preparing that it or its prerequisite is on the way, and refused that the
      handoff goes on as before, up to the request to hand over. */
  lemma VerdictIsHonest(cfg: Config, m: Manager, policy: Name, sequence: nat, now: real)
    ensures var n := SwitchPolicy(cfg, m, policy, sequence, now); var s := n.requests.status;
            && s.sequence == sequence && s.policy == policy && n.hand.active == m.hand.active
            && (s.phase == Ready ==> n.hand.pending == n.hand.active == policy && n.prep.runtimeReady && !n.hand.waiting)
            && (s.phase == Preparing ==>
                  if n.hand.waiting then
                    n.hand.final == policy && policy in cfg.prerequisites && n.hand.pending == cfg.prerequisites[policy].policy
                  else n.hand.pending == policy)
            && (s.phase == Refused ==>
                  && n.prep == m.prep && n.catalog == m.catalog && n.fsm == m.fsm && n.hand.pending == m.hand.pending
                  && n.hand.waiting == m.hand.waiting && n.hand.final == m.hand.final)
            && s.phase in {Ready, Preparing, Refused}
  {}

  // ---------------------------------------------------------------- chains that cross groups

  /** A chain accepted in RL has its prerequisite in the group of its target, so only chains
      accepted in POWER_OFF or DAMP, where groups are not compared, can cross. */
  lemma ChainsInRlShareGroup(cfg: Config, m: Manager, policy: Name)
    requires DecideSwitch(cfg, m, policy).Chain? && m.fsm.mode == Rl
    ensures SameSwitchGroup(cfg, cfg.prerequisites[policy].policy, policy)
  {}

  /** RL is about to hand over to a policy of another group. */
  ghost predicate Crossing(cfg: Config, m: Manager) {
    && m.fsm.mode == Rl && m.hand.hot && m.hand.pending != m.hand.active
    && !SameSwitchGroup(cfg, m.hand.active, m.hand.pending)
  }

  lemma CrossingBook(cfg: Config, m: Manager, tick: Tick)
    requires ValidConfig(cfg) && !Crossed(cfg, m.log) && Crossed(cfg, Book(cfg, m, tick).log)
    requires forall i | 0 <= i < |Book(cfg, m, tick).log| :: NoteSound(cfg, Book(cfg, m, tick).log[i])
    ensures Crossing(cfg, Book(cfg, m, tick))
  {
    BookLog(cfg, m, tick);
    var counted := CountResidence(LeaveRl(m), tick.dt);
    assert counted.log == m.log;
    CrossingAdvance(cfg, counted, tick);
    var advanced := AdvanceChain(cfg, counted, tick);
    assert DecideReturn(cfg, advanced, tick) == Stay;
    hide AdvanceChain, LeaveRl, NoteSound;
  }

  lemma CrossingAdvance(cfg: Config, m: Manager, tick: Tick)
    requires ValidConfig(cfg) && !Crossed(cfg, m.log) && Crossed(cfg, AdvanceChain(cfg, m, tick).log)
    requires forall i | 0 <= i < |AdvanceChain(cfg, m, tick).log| :: NoteSound(cfg, AdvanceChain(cfg, m, tick).log[i])
    ensures Crossing(cfg, AdvanceChain(cfg, m, tick)) && !AdvanceChain(cfg, m, tick).hand.waiting
  {
    var n := AdvanceChain(cfg, m, tick);
    var i :| 0 <= i < |n.log| && n.log[i].Advanced? && !SameSwitchGroup(cfg, n.log[i].policy, n.log[i].target);
    assert forall k | 0 <= k < |m.log| :: m.log[k] == n.log[k];
    assert i == |m.log|;
    assert n.log[i] == Advanced(m.hand.final, m.hand.active, m.residence);
    assert NoteSound(cfg, n.log[i]);
  }

  lemma CrossingAfter(cfg: Config, m: Manager, before: seq<FaultStatus>, tick: Tick)
    requires ValidConfig(cfg) && !Crossed(cfg, m.log) && Crossed(cfg, StepAfter(cfg, m, before, tick).log)
    requires LogSound(cfg, StepAfter(cfg, m, before, tick).log, StepAfter(cfg, m, before, tick).desk.sequence)
    ensures Crossing(cfg, StepAfter(cfg, m, before, tick))
  {
    hide Book, Crossed, Crossing, ValidConfig;
    var ran := RunStates(cfg, PrepareAtStartup(cfg, m, tick), m.command.key, tick);
    assert ran.log == m.log;
    var latched := LatchStateFault(cfg, ran, before, tick);
    if Crossed(cfg, latched.log) {
      StillUncrossed(cfg, m.log, latched.log);
    }
    CrossingBook(cfg, latched, tick);
  }

  lemma CrossingTick(cfg: Config, m: Manager, tick: Tick)
    requires ValidConfig(cfg) && Inv(cfg, m) && !Crossed(cfg, m.log) && Crossed(cfg, Step(cfg, m, tick).log)
    ensures Crossing(cfg, Step(cfg, m, tick))
  {
    hide StepBefore, StepPrepare, StepAfter, Inv, ValidConfig, Crossed, Crossing, LogSound;
    var seen := ObserveBefore(cfg, m.(fsm := RaiseIn(m.fsm, tick.rlBefore)), tick).1;
    var polled := StepBefore(cfg, m, tick);
    var staged := StepPrepare(cfg, polled, tick);
    BeforeExtends(cfg, m, tick);
    PrepareExtends(cfg, polled, tick);
    ExtendsTwice(m.log, polled.log, staged.log, false);
    if Crossed(cfg, staged.log) {
      StillUncrossed(cfg, m.log, staged.log);
    }
    StepKeeps(cfg, m, tick);
    LogOf(cfg, Step(cfg, m, tick));
    CrossingAfter(cfg, staged, seen, tick);
  }

  /** The call in which a chain crosses groups leaves RL with its target pending. */
  lemma CrossingCall(cfg: Config, m: Manager, e: Event)
    requires ValidConfig(cfg) && Inv(cfg, m) && !Crossed(cfg, m.log) && Crossed(cfg, Apply(cfg, m, e).log)
    ensures Crossing(cfg, Apply(cfg, m, e))
  {
    hide Inv, Step, SetCommand, ValidConfig, Crossed, Crossing;
    match e
    case OnTick(tick) => CrossingTick(cfg, m, tick);
    case OnCommand(c, now) =>
      CommandExtends(cfg, m, c, now);
      StillUncrossed(cfg, m.log, SetCommand(cfg, m, c, now).log);
    case OnAcknowledge(_) =>
    case OnSensorFault(_) =>
    case OnSensorData =>
  }

  /** Keys at rest, nothing requested, and no fault at the driver. */
  lemma CalmCrossing(cfg: Config, m: Manager)
    requires Inv(cfg, m) && Crossing(cfg, m)
    ensures var n := Apply(cfg, Apply(cfg, m, OnSensorFault(NO_FAULT)), OnCommand(NO_COMMAND, 0.0));
            Crossing(cfg, n) && Undecided(n)
  {}

  /** Quiet ticks then lead to the crossing itself. */
  lemma CrossingArrives(cfg: Config, events: seq<Event>) returns (all: seq<Event>, e: Event)
    requires ValidConfig(cfg) && Crossing(cfg, Run(cfg, events))
    ensures !StaysInGroup(cfg, Run(cfg, all), Apply(cfg, Run(cfg, all), e))
  {
    hide Apply, Inv, SameSwitchGroup;
    RunHolds(cfg, events);
    CalmCrossing(cfg, Run(cfg, events));
    var calmed := events + [OnSensorFault(NO_FAULT)] + [OnCommand(NO_COMMAND, 0.0)];
    RunTwice(cfg, events, OnSensorFault(NO_FAULT), OnCommand(NO_COMMAND, 0.0));
    RunHolds(cfg, calmed);
    var more;
    more, e := QuietArrives(cfg, Run(cfg, calmed));
    RunJoins(cfg, calmed, more);
    all := calmed + more;
  }

  lemma RunTwice(cfg: Config, events: seq<Event>, a: Event, b: Event)
    ensures Run(cfg, events + [a] + [b]) == Apply(cfg, Apply(cfg, Run(cfg, events), a), b)
  {
    hide Apply;
    var one := events + [a];
    assert one[..|one| - 1] == events && (one + [b])[..|one|] == one;
  }

  lemma {:induction false} CrossingIsUnsafe(cfg: Config, events: seq<Event>) returns (all: seq<Event>, e: Event)
    requires ValidConfig(cfg) && Crossed(cfg, Run(cfg, events).log)
    ensures !StaysInGroup(cfg, Run(cfg, all), Apply(cfg, Run(cfg, all), e))
    decreases |events|
  {
    NothingCrossed(cfg, events);
    hide Apply, Inv, ValidConfig, Crossed, Crossing, StaysInGroup;
    var shorter := events[..|events| - 1];
    if Crossed(cfg, Run(cfg, shorter).log) {
      all, e := CrossingIsUnsafe(cfg, shorter);
    } else {
      RunHolds(cfg, shorter);
      CrossingCall(cfg, Run(cfg, shorter), events[|events| - 1]);
      all, e := CrossingArrives(cfg, events);
    }
  }

  lemma NothingCrossed(cfg: Config, events: seq<Event>)
    requires Crossed(cfg, Run(cfg, events).log)
    ensures events != []
  {}
}
