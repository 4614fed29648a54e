/** What the configuration says about live handoffs: when all of them are agreed, and when some
    run has one that the running policy never agreed to. */
module HandoffByConfig {
  import opened RobotBase
  import opened Fsm
  import opened Manager
  import opened ManagerInvariant
  import opened ManagerTheorems
  import opened ManagerCatalog
  import opened QuietRuns
  import opened SwitchGroups

  // ---------------------------------------------------------------- enough

  /** A policy request that is refused because its prerequisite is outside the group. */
  predicate RefusesOutside(cfg: Config, m: Manager, e: Event) {
    && e.OnCommand? && AsksForPolicy(m, e.command)
    && DecideSwitch(cfg, Told(cfg, m, e.command, e.now), e.command.switchPolicy).Outside?
  }

  lemma OrphansByRefusal(cfg: Config, m: Manager, e: Event)
    requires Orphaned(Apply(cfg, m, e).log) && !Orphaned(m.log)
    ensures RefusesOutside(cfg, m, e)
  {
    hide Step, Told, SwitchPolicy, DecideSwitch, Orphaned, AsksForPolicy;
    match e
    case OnTick(tick) =>
      StepExtends(cfg, m, tick);
      ExtendsKeeps(m.log, Step(cfg, m, tick).log);
    case OnCommand(c, now) =>
      ToldLog(cfg, m, c, now);
      if AsksForPolicy(m, c) {
        RequestLog(cfg, Told(cfg, m, c, now), c.switchPolicy, c.requestSequence, now);
      }
    case _ =>
  }

  lemma RequestLog(cfg: Config, m: Manager, policy: Name, sequence: nat, now: real)
    ensures SwitchPolicy(cfg, m, policy, sequence, now).log == m.log || DecideSwitch(cfg, m, policy).Outside?
  {
    hide DecideSwitch, FinishPolicyAction;
  }

  /** Such a request has a selectable target with its prerequisite in another group. */
  lemma RefusalIsUngrouped(cfg: Config, m: Manager, e: Event)
    requires RefusesOutside(cfg, m, e)
    ensures !GroupedConfig(cfg)
  {
    hide Told;
    var p := e.command.switchPolicy;
    assert p in cfg.selectable && p != "" && !PrerequisiteInGroup(cfg, p);
  }

  lemma {:induction false} NeverOrphaned(cfg: Config, events: seq<Event>)
    requires GroupedConfig(cfg)
    ensures !Orphaned(Run(cfg, events).log)
    decreases |events|
  {
    hide Apply, GroupedConfig, RefusesOutside;
    if events != [] {
      var m, e := Run(cfg, events[..|events| - 1]), events[|events| - 1];
      NeverOrphaned(cfg, events[..|events| - 1]);
      if Orphaned(Apply(cfg, m, e).log) {
        OrphansByRefusal(cfg, m, e);
        RefusalIsUngrouped(cfg, m, e);
      }
    }
  }

  /** If every selectable policy has its prerequisite in its own group, or there is no RL state, each
      installation in RL of every run had the consent of the running policy and no fault. The
      condition is the one under which the active policy stays in its group. */
  lemma GroupedIsSafe(cfg: Config, events: seq<Event>)
    requires ValidConfig(cfg) && GroupedConfig(cfg)
    ensures SafeHandoffs(Run(cfg, events).log)
  {
    hide Run, GroupedConfig;
    NeverOrphaned(cfg, events);
    LiveHandoff(cfg, events);
  }

  // ---------------------------------------------------------------- the exact condition

  /** A policy that can be asked for and needs a policy outside its group first. */
  predicate Ungrouped(cfg: Config, p: Name) {
    p in cfg.selectable && p != "" && !PrerequisiteInGroup(cfg, p)
  }

  /** Some policy that can be asked for needs this one first. */
  ghost predicate Needed(cfg: Config, x: Name) {
    exists y :: y in cfg.selectable && y != "" && y in cfg.prerequisites && cfg.prerequisites[y].policy == x
  }

  /** Ways to a policy from POWER_OFF: it is there from the start, asked for, or needed first. */
  ghost predicate Starts(cfg: Config, x: Name) {
    x == cfg.initialPolicy || (x in cfg.selectable && x != "") || Needed(cfg, x)
  }

  predicate ReturnsTo(cfg: Config, z: Name, x: Name) {
    z in cfg.returnPolicies && cfg.returnPolicies[z] == x && x != ""
  }

  /** A running policy from which RL can ask for this one. */
  predicate AskedFrom(cfg: Config, x: Name, y: Name) {
    && y in cfg.selectable && y != "" && y != x && SameSwitchGroup(cfg, x, y)
    && (y in cfg.prerequisites ==> SameSwitchGroup(cfg, x, cfg.prerequisites[y].policy))
  }

  /** While it runs in RL another policy can become the pending one: the target of its chain, one
      that is asked for, an action of its catalog, or its return policy. */
  ghost predicate Leads(cfg: Config, x: Name) {
    || Needed(cfg, x)
    || (exists y :: AskedFrom(cfg, x, y))
    || (x in cfg.actions && x != "")
    || (exists y :: ReturnsTo(cfg, x, y))
  }

  /** With one policy running and another pending, an ungrouped policy of the group is asked for. */
  ghost predicate RiskyPair(cfg: Config, p: Name, x: Name) {
    && Ungrouped(cfg, p) && x != p && SameSwitchGroup(cfg, x, p)
    && (Starts(cfg, x) || ReturnsTo(cfg, p, x)) && Leads(cfg, x)
  }

  ghost predicate Risky(cfg: Config) { cfg.fsm.hasRl && exists p, x :: RiskyPair(cfg, p, x) }

  // ---------------------------------------------------------------- without risk

  ghost predicate Child(cfg: Config, v: Name) {
    exists o :: o in cfg.actions && o != "" && v in Children(cfg, o)
  }

  /** An ungrouped policy of its group could be asked for while this one runs. */
  predicate ExposedBy(cfg: Config, v: Name, p: Name) { Ungrouped(cfg, p) && p != v && SameSwitchGroup(cfg, v, p) }

  ghost predicate Exposed(cfg: Config, v: Name) { exists p :: ExposedBy(cfg, v, p) }

  ghost predicate Origin(cfg: Config, v: Name) {
    Starts(cfg, v) || Child(cfg, v) || exists p :: ExposedBy(cfg, v, p) && ReturnsTo(cfg, p, v)
  }

  ghost predicate Named(cfg: Config, v: Name) { Exposed(cfg, v) ==> Origin(cfg, v) }

  ghost predicate Led(cfg: Config, v: Name) { Leads(cfg, v) || Child(cfg, v) }

  predicate Chainable(cfg: Config, policy: Name) {
    policy in cfg.selectable && policy != "" && policy in cfg.prerequisites
  }

  /** Where the names in a handoff come from. */
  ghost predicate Roster(cfg: Config, mode: Mode, h: Handoff) {
    && Named(cfg, h.active) && Named(cfg, h.pending) && (h.waiting ==> Chainable(cfg, h.final))
    && (mode == Rl && h.pending != h.active ==> Led(cfg, h.active))
  }

  /** An entry of the catalog is exposed with its actions, and at risk. */
  lemma ChildRisks(cfg: Config, v: Name, p: Name)
    requires ValidConfig(cfg) && cfg.fsm.hasRl && Child(cfg, v) && Ungrouped(cfg, p) && SameSwitchGroup(cfg, v, p)
    ensures Risky(cfg)
  {
    var o :| o in cfg.actions && o != "" && v in Children(cfg, o);
    FamilyShares(cfg, o, v);
    assert RiskyPair(cfg, p, o);
  }

  /** An exposed policy with a way to another one is a risk. */
  lemma LedIsRisky(cfg: Config, v: Name)
    requires ValidConfig(cfg) && cfg.fsm.hasRl && Named(cfg, v) && Led(cfg, v) && Exposed(cfg, v)
    ensures Risky(cfg)
  {
    hide ValidConfig, Leads, Starts;
    var p :| ExposedBy(cfg, v, p);
    if Child(cfg, v) {
      ChildRisks(cfg, v, p);
    } else if Starts(cfg, v) {
      assert RiskyPair(cfg, p, v);
    } else {
      var z :| ExposedBy(cfg, v, z) && ReturnsTo(cfg, z, v);
      assert RiskyPair(cfg, z, v);
    }
  }

  lemma ReturnNamed(cfg: Config, z: Name, v: Name)
    requires ValidConfig(cfg) && cfg.fsm.hasRl && Named(cfg, z) && ReturnsTo(cfg, z, v)
    ensures Risky(cfg) || Named(cfg, v)
  {
    if Exposed(cfg, v) {
      var p :| ExposedBy(cfg, v, p);
      if z != p {
        assert ExposedBy(cfg, z, p);
        LedIsRisky(cfg, z);
      }
    }
  }

  // One lemma for each stage of a step.

  lemma CancelRoster(cfg: Config, m: Manager, now: real)
    requires Roster(cfg, m.fsm.mode, m.hand)
    ensures var n := CancelRunningSwitch(cfg, m, now); Roster(cfg, n.fsm.mode, n.hand)
  {
    hide Named, Led, Chainable, GivesUp;
  }

  lemma PollRoster(cfg: Config, m: Manager, tick: Tick)
    requires Roster(cfg, m.fsm.mode, m.hand)
    ensures var n := PollPolicyPreparation(cfg, m, tick); Roster(cfg, n.fsm.mode, n.hand)
  {
    hide Named, Led, Chainable, DecidePoll, CatalogAfterPoll, PrepAfterPoll, LogAfterPoll, Concluded, ActionArrives;
    PollReasons(m, tick);
  }

  lemma BeforeRoster(cfg: Config, m: Manager, tick: Tick)
    requires Roster(cfg, m.fsm.mode, m.hand)
    ensures var n := StepBefore(cfg, m, tick); Roster(cfg, n.fsm.mode, n.hand)
  {
    hide Roster;
    var raised := m.(fsm := RaiseIn(m.fsm, tick.rlBefore));
    var (desk, seen) := ObserveBefore(cfg, raised, tick);
    var resolved := ResolveIn(raised, desk, seen);
    assert resolved.hand == m.hand && resolved.fsm.mode == m.fsm.mode;
    CancelRoster(cfg, resolved, tick.now);
    var cancelled := CancelRunningSwitch(cfg, resolved, tick.now);
    var asked := RequestHandoff(cancelled);
    assert asked.hand == cancelled.hand && asked.fsm.mode == cancelled.fsm.mode;
    PollRoster(cfg, asked, tick);
  }

  lemma PrepareRoster(cfg: Config, m: Manager, tick: Tick)
    requires Roster(cfg, m.fsm.mode, m.hand)
    ensures var n := StepPrepare(cfg, m, tick); Roster(cfg, n.fsm.mode, n.hand)
  {
    hide Named, Led, Chainable, DecideLaunch, CatalogAfterFailure, Concluded;
    var confined := ConfineFault(cfg, m, tick);
    assert confined.hand == m.hand && (confined.fsm.mode == Rl ==> m.fsm.mode == Rl);
    hide ConfineFault;
  }

  lemma StatesRoster(cfg: Config, m: Manager, requestedKey: int, tick: Tick)
    requires ValidConfig(cfg) && Staged(cfg, m) && Roster(cfg, m.fsm.mode, m.hand)
    ensures var n := RunStates(cfg, m, requestedKey, tick); Roster(cfg, n.fsm.mode, n.hand)
  {
    StepModes(cfg.fsm, RaiseIn(m.fsm, tick.rlMid), m.command.key, m.desk.fault, tick);
    hide StepFsm, Named, Led, Chainable;
  }

  lemma LeaveRoster(cfg: Config, m: Manager, dt: real)
    requires ValidConfig(cfg) && Roster(cfg, m.fsm.mode, m.hand) && CatalogSound(cfg, m.hand.active, m.catalog)
    ensures var n := CountResidence(LeaveRl(m), dt); Roster(cfg, n.fsm.mode, n.hand)
  {
    hide Led, Chainable, FinishPolicyAction;
    if m.catalog.owner != "" {
      assert Starts(cfg, m.catalog.owner);
    }
    hide Starts, Exposed, Child;
  }

  /** A chain that moves on does so from the policy its target needs. */
  lemma AdvanceRoster(cfg: Config, m: Manager, tick: Tick)
    requires ValidConfig(cfg) && Roster(cfg, m.fsm.mode, m.hand)
    requires AdvanceChain(cfg, m, tick).log != m.log && m.hand.final in cfg.prerequisites ==>
               m.hand.active == cfg.prerequisites[m.hand.final].policy
    ensures var n := AdvanceChain(cfg, m, tick); Roster(cfg, n.fsm.mode, n.hand)
  {
    var n := AdvanceChain(cfg, m, tick);
    if n.log != m.log {
      assert Starts(cfg, m.hand.final) && Needed(cfg, m.hand.active);
    }
    hide ValidConfig, Named, Led, Exposed;
  }

  lemma ReturnRoster(cfg: Config, m: Manager, tick: Tick)
    requires ValidConfig(cfg) && cfg.fsm.hasRl && !Risky(cfg)
    requires Roster(cfg, m.fsm.mode, m.hand) && CatalogSound(cfg, m.hand.active, m.catalog)
    ensures var n := ReturnFinished(cfg, m, tick); Roster(cfg, n.fsm.mode, n.hand)
  {
    var d := DecideReturn(cfg, m, tick);
    match d
    case Stay =>
    case ToOwner =>
      assert Starts(cfg, m.catalog.owner) && Child(cfg, m.hand.active);
    case ToReturnPolicy(policy) =>
      assert ReturnsTo(cfg, m.hand.active, policy);
      ReturnNamed(cfg, m.hand.active, policy);
  }

  lemma AdvancedFrom(cfg: Config, m: Manager, tick: Tick)
    requires forall i | 0 <= i < |AdvanceChain(cfg, m, tick).log| :: NoteSound(cfg, AdvanceChain(cfg, m, tick).log[i])
    ensures AdvanceChain(cfg, m, tick).log != m.log && m.hand.final in cfg.prerequisites ==>
              m.hand.active == cfg.prerequisites[m.hand.final].policy
  {
    var n := AdvanceChain(cfg, m, tick);
    if n.log != m.log {
      assert n.log[|m.log|] == Advanced(m.hand.final, m.hand.active, m.residence);
    }
  }

  lemma BookRoster(cfg: Config, m: Manager, tick: Tick)
    requires ValidConfig(cfg) && cfg.fsm.hasRl && !Risky(cfg)
    requires Roster(cfg, m.fsm.mode, m.hand) && CatalogSound(cfg, m.hand.active, m.catalog)
    requires forall i | 0 <= i < |Book(cfg, m, tick).log| :: NoteSound(cfg, Book(cfg, m, tick).log[i])
    ensures var n := Book(cfg, m, tick); Roster(cfg, n.fsm.mode, n.hand)
  {
    hide LeaveRl, AdvanceChain, ReturnFinished, CatalogSound, NoteSound, Named, Led, Chainable;
    var counted := CountResidence(LeaveRl(m), tick.dt);
    var advanced := AdvanceChain(cfg, counted, tick);
    BookLog(cfg, m, tick);
    LeaveBound(cfg, m, true);
    LeaveRoster(cfg, m, tick.dt);
    AdvancedFrom(cfg, counted, tick);
    AdvanceBound(cfg, counted, tick, true);
    AdvanceRoster(cfg, counted, tick);
    ReturnRoster(cfg, advanced, tick);
  }

  lemma AfterRoster(cfg: Config, m: Manager, before: seq<FaultStatus>, tick: Tick)
    requires ValidConfig(cfg) && cfg.fsm.hasRl && !Risky(cfg)
    requires Staged(cfg, m) && Roster(cfg, m.fsm.mode, m.hand) && CatalogSound(cfg, m.hand.active, m.catalog)
    requires LogSound(cfg, StepAfter(cfg, m, before, tick).log, StepAfter(cfg, m, before, tick).desk.sequence)
    ensures var n := StepAfter(cfg, m, before, tick); Roster(cfg, n.fsm.mode, n.hand)
  {
    hide Book, CatalogSound, Roster, Risky, ValidConfig, Resolve;
    StartupKeeps(cfg, m, tick);
    var started := PrepareAtStartup(cfg, m, tick);
    assert started.hand == m.hand && started.catalog == m.catalog && (started.fsm.mode == Rl ==> m.fsm.mode == Rl);
    OutsideRl(cfg, m.fsm.mode, started.fsm.mode, m.hand);
    StatesRoster(cfg, started, m.command.key, tick);
    var ran := RunStates(cfg, started, m.command.key, tick);
    var latched := LatchStateFault(cfg, ran, before, tick);
    assert latched.hand == ran.hand == m.hand && latched.catalog == ran.catalog == m.catalog;
    assert latched.fsm.mode == Rl ==> ran.fsm.mode == Rl;
    OutsideRl(cfg, ran.fsm.mode, latched.fsm.mode, m.hand);
    BookRoster(cfg, latched, tick);
  }

  lemma OutsideRl(cfg: Config, mode: Mode, other: Mode, h: Handoff)
    requires Roster(cfg, mode, h) && (other == Rl ==> mode == Rl)
    ensures Roster(cfg, other, h)
  {}

  lemma StepRoster(cfg: Config, m: Manager, tick: Tick)
    requires ValidConfig(cfg) && cfg.fsm.hasRl && !Risky(cfg)
    requires Inv(cfg, m) && Roster(cfg, m.fsm.mode, m.hand) && CatalogSound(cfg, m.hand.active, m.catalog)
    ensures var n := Step(cfg, m, tick); Roster(cfg, n.fsm.mode, n.hand)
  {
    hide StepBefore, StepPrepare, StepAfter, Roster, Inv, ValidConfig, Staged, Risky, CatalogSound, LogSound;
    var seen := ObserveBefore(cfg, m.(fsm := RaiseIn(m.fsm, tick.rlBefore)), tick).1;
    var polled := StepBefore(cfg, m, tick);
    ModesMeet(cfg, m);
    BeforeRoster(cfg, m, tick);
    BeforeBound(cfg, m, tick, true);
    StepBeforeKeeps(cfg, m, tick);
    PrepareRoster(cfg, polled, tick);
    PrepareBound(cfg, polled, tick, true);
    StepPrepareKeeps(cfg, polled, tick);
    StepKeeps(cfg, m, tick);
    LogOf(cfg, Step(cfg, m, tick));
    AfterRoster(cfg, StepPrepare(cfg, polled, tick), seen, tick);
  }

  lemma ActionRoster(cfg: Config, m: Manager, r: Interaction, now: real)
    requires ValidConfig(cfg) && Roster(cfg, m.fsm.mode, m.hand) && CatalogSound(cfg, m.hand.active, m.catalog)
    ensures var n := HandlePolicyAction(cfg, m, r, now); Roster(cfg, n.fsm.mode, n.hand)
  {
    hide CatalogAfterAction, DecideAction, Halted;
    ActionReasons(cfg, m, r);
    var d, owner := DecideAction(cfg, m, r), m.catalog.owner;
    if owner != "" {
      assert Starts(cfg, owner);
      assert d.Begin? ==> Child(cfg, d.target) && Leads(cfg, owner);
      assert d.ReturnToOwner? ==> Child(cfg, m.hand.active);
    }
  }

  lemma ChainNames(cfg: Config, m: Manager, policy: Name)
    requires policy != "" && DecideSwitch(cfg, m, policy).Chain? && (m.fsm.mode == Rl ==> m.prep.runtimeReady)
    ensures var q := DecideSwitch(cfg, m, policy).prerequisite;
            Chainable(cfg, policy) && Named(cfg, q) && (m.fsm.mode == Rl ==> Led(cfg, m.hand.active))
  {
    var q := DecideSwitch(cfg, m, policy).prerequisite;
    assert Needed(cfg, q) && Starts(cfg, q);
    assert m.fsm.mode == Rl ==> AskedFrom(cfg, m.hand.active, policy);
  }

  lemma DirectNames(cfg: Config, m: Manager, policy: Name)
    requires policy != "" && DecideSwitch(cfg, m, policy).Direct? && (m.fsm.mode == Rl ==> m.prep.runtimeReady)
    ensures Named(cfg, policy) && (m.fsm.mode == Rl ==> Led(cfg, m.hand.active))
  {
    assert Starts(cfg, policy);
    assert m.fsm.mode == Rl ==> AskedFrom(cfg, m.hand.active, policy);
  }

  /** In RL a pending policy always has a runtime behind it. */
  lemma RequestRoster(cfg: Config, m: Manager, policy: Name, sequence: nat, now: real)
    requires ValidConfig(cfg) && Roster(cfg, m.fsm.mode, m.hand) && policy != "" && (m.fsm.mode == Rl ==> m.prep.runtimeReady)
    ensures var n := SwitchPolicy(cfg, m, policy, sequence, now); Roster(cfg, n.fsm.mode, n.hand)
  {
    hide DecideSwitch, FinishPolicyAction, Named, Led, Chainable, ValidConfig;
    var d := DecideSwitch(cfg, m, policy);
    match d
    case Chain(q) => ChainNames(cfg, m, policy);
    case Direct => DirectNames(cfg, m, policy);
    case _ =>
  }

  lemma CommandRoster(cfg: Config, m: Manager, c: Command, now: real)
    requires ValidConfig(cfg) && Inv(cfg, m) && Roster(cfg, m.fsm.mode, m.hand) && CatalogSound(cfg, m.hand.active, m.catalog)
    ensures var n := SetCommand(cfg, m, c, now); Roster(cfg, n.fsm.mode, n.hand)
    ensures var told := Told(cfg, m, c, now); Roster(cfg, told.fsm.mode, told.hand) && told.prep.runtimeReady == m.prep.runtimeReady
  {
    RuntimeInRl(cfg, m);
    ActionRoster(cfg, m.(command := c), c.interaction, now);
    hide Roster, CatalogSound, Inv, ValidConfig, DecideAction, CatalogAfterAction;
    var told := Told(cfg, m, c, now);
    if AsksForPolicy(m, c) {
      RequestRoster(cfg, told, c.switchPolicy, c.requestSequence, now);
    }
    hide SwitchPolicy, HandlePolicyAction;
  }

  lemma RuntimeInRl(cfg: Config, m: Manager)
    requires Inv(cfg, m)
    ensures m.fsm.mode == Rl ==> m.prep.runtimeReady
  {}

  lemma CallRoster(cfg: Config, m: Manager, e: Event)
    requires ValidConfig(cfg) && cfg.fsm.hasRl && !Risky(cfg)
    requires Inv(cfg, m) && Roster(cfg, m.fsm.mode, m.hand) && CatalogSound(cfg, m.hand.active, m.catalog)
    ensures var n := Apply(cfg, m, e); Roster(cfg, n.fsm.mode, n.hand)
  {
    hide Step, SetCommand, Roster, Inv, ValidConfig, CatalogSound, Risky;
    match e
    case OnTick(tick) => StepRoster(cfg, m, tick);
    case OnCommand(c, now) => CommandRoster(cfg, m, c, now);
    case _ =>
  }

  lemma {:induction false} RunRoster(cfg: Config, events: seq<Event>)
    requires ValidConfig(cfg) && cfg.fsm.hasRl && !Risky(cfg)
    ensures var m := Run(cfg, events); Roster(cfg, m.fsm.mode, m.hand)
    decreases |events|
  {
    if events == [] {
      assert Starts(cfg, cfg.initialPolicy);
    } else {
      hide Apply, Inv, ValidConfig, Roster, Risky, CatalogSound;
      var shorter := events[..|events| - 1];
      RunRoster(cfg, shorter);
      RunHolds(cfg, shorter);
      CatalogShowsTheTruth(cfg, shorter);
      CallRoster(cfg, Run(cfg, shorter), events[|events| - 1]);
    }
  }

  /** A request that is refused outside the group while another policy is pending shows the risk. */
  lemma OrphanIsRisky(cfg: Config, m: Manager, policy: Name, sequence: nat, now: real)
    requires ValidConfig(cfg) && cfg.fsm.hasRl && policy != ""
    requires Roster(cfg, m.fsm.mode, m.hand) && (m.fsm.mode == Rl ==> m.prep.runtimeReady)
    requires !Orphaned(m.log) && Orphaned(SwitchPolicy(cfg, m, policy, sequence, now).log)
    ensures Risky(cfg)
  {
    var n := SwitchPolicy(cfg, m, policy, sequence, now);
    RequestLog(cfg, m, policy, sequence, now);
    OrphanedAppend(m.log, OutsideGroup(m.hand.pending, m.hand.active));
    assert ExposedBy(cfg, m.hand.active, policy);
    hide Named, Led, ValidConfig, Risky;
    LedIsRisky(cfg, m.hand.active);
  }

  lemma CallOrphans(cfg: Config, m: Manager, e: Event)
    requires ValidConfig(cfg) && cfg.fsm.hasRl
    requires Inv(cfg, m) && Roster(cfg, m.fsm.mode, m.hand) && CatalogSound(cfg, m.hand.active, m.catalog)
    requires !Orphaned(m.log) && Orphaned(Apply(cfg, m, e).log)
    ensures Risky(cfg)
  {
    OrphansByRefusal(cfg, m, e);
    var c, now := e.command, e.now;
    RuntimeInRl(cfg, m);
    ToldLog(cfg, m, c, now);
    hide Told, Roster, Inv, ValidConfig, CatalogSound, Risky, Orphaned, SwitchPolicy;
    CommandRoster(cfg, m, c, now);
    var told := Told(cfg, m, c, now);
    ToldStays(cfg, m, c, now);
    OrphanIsRisky(cfg, told, c.switchPolicy, c.requestSequence, now);
  }

  lemma ToldStays(cfg: Config, m: Manager, c: Command, now: real)
    ensures Told(cfg, m, c, now).fsm == m.fsm
  {
    hide DecideAction, CatalogAfterAction;
  }

  lemma {:induction false} SafeWithoutRisk(cfg: Config, events: seq<Event>)
    requires ValidConfig(cfg) && cfg.fsm.hasRl && !Risky(cfg)
    ensures !Orphaned(Run(cfg, events).log)
    decreases |events|
  {
    hide Apply, Inv, ValidConfig, Roster, Risky, CatalogSound;
    if events != [] {
      var shorter := events[..|events| - 1];
      SafeWithoutRisk(cfg, shorter);
      RunRoster(cfg, shorter);
      RunHolds(cfg, shorter);
      CatalogShowsTheTruth(cfg, shorter);
      if Orphaned(Run(cfg, events).log) {
        CallOrphans(cfg, Run(cfg, shorter), events[|events| - 1]);
      }
    }
  }
}
