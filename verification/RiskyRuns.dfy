/** For every configuration at risk a run whose handoff the running policy never agreed to, and with
    it the exact condition for safe handoffs. */
module RiskyRuns {
  import opened RobotBase
  import opened Fsm
  import opened Manager
  import opened ManagerInvariant
  import opened ManagerTheorems
  import opened ManagerCatalog
  import opened QuietRuns
  import opened SwitchGroups
  import opened HandoffByConfig

  // ---------------------------------------------------------------- quiet ticks in RL

  /** RL runs, nothing is wrong, no key is pressed and no action is under way. */
  predicate Calm(cfg: Config, m: Manager) {
    && m.fsm.mode == Rl && m.fsm.rl.fault.None? && m.previousMode == Rl && m.command.key == 0
    && m.desk == CALM_DESK && m.sensorFault == NO_FAULT && !m.startupPending
    && m.catalog.owner == OwnerOf(cfg, m.hand.active) && m.catalog.target == "" && !m.catalog.returning
  }

  predicate Idling(p: Preparation) { p == IDLE.(retiring := p.retiring) }

  /** One policy runs, and nothing else is wanted. */
  predicate Settled(cfg: Config, m: Manager, x: Name) {
    && Calm(cfg, m) && Idling(m.prep) && m.hand.active == m.hand.pending == x
    && !m.hand.hot && !m.hand.waiting && !m.hand.returnAttempted
  }

  /** A running switch, and how far its preparation has come. */
  predicate Switching(cfg: Config, m: Manager, h: Handoff, prep: Preparation) {
    && Calm(cfg, m) && m.hand == h && h.hot && !h.waiting && h.pending != "" && h.pending != h.active
    && m.prep == prep.(retiring := m.prep.retiring)
  }

  /** Background work is done, the running policy agrees, and no time passes. */
  function Swift(m: Manager, dt: real): Tick { Collect(dt).(switchReady := true, now := m.hand.started) }

  lemma RlBefore(cfg: Config, m: Manager, tick: Tick)
    requires ValidConfig(cfg) && Calm(cfg, m) && tick.now == m.hand.started
    requires tick.stateValid && !tick.tilted && !tick.spinning && tick.rlBefore.None?
    ensures StepBefore(cfg, m, tick) == PollPolicyPreparation(cfg, RequestHandoff(m), tick)
    ensures ObserveBefore(cfg, m.(fsm := RaiseIn(m.fsm, tick.rlBefore)), tick).1 == []
  {
    assert m.(fsm := RaiseIn(m.fsm, tick.rlBefore)) == m;
    var (desk, seen) := ObserveBefore(cfg, m, tick);
    assert seen == [] && desk == m.desk;
    assert ResolveIn(m, desk, seen) == m;
    assert CancelRunningSwitch(cfg, m, tick.now) == m;
  }

  lemma RlPrepare(cfg: Config, m: Manager, tick: Tick)
    requires Calm(cfg, m)
    ensures var n, p := StepPrepare(cfg, m, tick), PreparePending(cfg, m, tick);
            n.hand == p.hand && n.prep == p.prep && n.catalog == p.catalog && n.fsm == m.fsm && (Calm(cfg, p) ==> Calm(cfg, n))
  {
    hide PreparePending;
    assert ConfineFault(cfg, m, tick) == m;
    PreparesAside(cfg, m, tick);
  }

  lemma PreparesAside(cfg: Config, m: Manager, tick: Tick)
    ensures var p := PreparePending(cfg, m, tick);
            && p.fsm == m.fsm && p.command == m.command && p.desk == m.desk && p.sensorFault == m.sensorFault
            && p.startupPending == m.startupPending && p.previousMode == m.previousMode
  {
    hide DecideLaunch;
  }

  lemma RlAfter(cfg: Config, m: Manager, tick: Tick)
    requires Calm(cfg, m) && !m.hand.waiting && tick.dt > 0.0 && tick.rlDt > 0.0
    requires tick.rlMid.None? && tick.rlRun.None? && !tick.rlTilted && !tick.policyFinished
    ensures var n := StepAfter(cfg, m, [], tick); Calm(cfg, n) && n.hand == m.hand && n.prep == m.prep
  {
    assert PrepareAtStartup(cfg, m, tick) == m;
    var ran := RunStates(cfg, m, 0, tick);
    assert ran == m;
    assert LatchStateFault(cfg, ran, [], tick) == ran;
    var counted := CountResidence(LeaveRl(ran), tick.dt);
    assert AdvanceChain(cfg, counted, tick) == counted;
    assert DecideReturn(cfg, counted, tick) == Stay;
  }

  /** What a swift tick in RL does to the preparation and the handoff. */
  lemma RlTick(cfg: Config, m: Manager, dt: real)
    requires ValidConfig(cfg) && dt > 0.0 && Calm(cfg, m) && !m.hand.waiting
    requires var p := PollPolicyPreparation(cfg, RequestHandoff(m), Swift(m, dt));
             Calm(cfg, p) && !p.hand.waiting && Calm(cfg, PreparePending(cfg, p, Swift(m, dt)))
             && !PreparePending(cfg, p, Swift(m, dt)).hand.waiting
    ensures var n := Apply(cfg, m, OnTick(Swift(m, dt)));
            var p := PreparePending(cfg, PollPolicyPreparation(cfg, RequestHandoff(m), Swift(m, dt)), Swift(m, dt));
            Calm(cfg, n) && n.hand == p.hand && n.prep == p.prep
  {
    hide StepBefore, StepPrepare, StepAfter, PollPolicyPreparation, PreparePending, RequestHandoff, Calm, ValidConfig, ObserveBefore;
    var tick := Swift(m, dt);
    RlBefore(cfg, m, tick);
    var polled := PollPolicyPreparation(cfg, RequestHandoff(m), tick);
    RlPrepare(cfg, polled, tick);
    RlAfter(cfg, StepPrepare(cfg, polled, tick), tick);
  }

  lemma RlLaunch(cfg: Config, m: Manager, h: Handoff, dt: real)
    requires ValidConfig(cfg) && cfg.fsm.hasRl && dt > 0.0 && Switching(cfg, m, h, IDLE)
    ensures Switching(cfg, Apply(cfg, m, OnTick(Swift(m, dt))), h, IDLE.(job := Some(h.pending), running := true))
  {
    var asked, tick := RequestHandoff(m), Swift(m, dt);
    var polled := PollPolicyPreparation(cfg, asked, tick);
    assert DecidePoll(asked, tick) == Nothing;
    assert DecideLaunch(cfg, polled, tick) == Launch;
    RlTick(cfg, m, dt);
    hide Apply;
  }

  lemma RlCollect(cfg: Config, m: Manager, h: Handoff, dt: real)
    requires ValidConfig(cfg) && dt > 0.0 && Switching(cfg, m, h, IDLE.(job := Some(h.pending), running := true))
    ensures Switching(cfg, Apply(cfg, m, OnTick(Swift(m, dt))), h, IDLE.(prepared := Some(h.pending)))
  {
    var asked, tick := RequestHandoff(m), Swift(m, dt);
    var polled := PollPolicyPreparation(cfg, asked, tick);
    assert DecidePoll(asked, tick) == Keep(h.pending);
    assert DecideLaunch(cfg, polled, tick) == NoLaunch;
    RlTick(cfg, m, dt);
    hide Apply;
  }

  lemma RlInstall(cfg: Config, m: Manager, h: Handoff, dt: real)
    requires ValidConfig(cfg) && dt > 0.0 && Switching(cfg, m, h, IDLE.(prepared := Some(h.pending)))
    ensures Settled(cfg, Apply(cfg, m, OnTick(Swift(m, dt))), h.pending)
  {
    var asked, tick := RequestHandoff(m), Swift(m, dt);
    var polled := PollPolicyPreparation(cfg, asked, tick);
    assert DecidePoll(asked, tick) == Install(h.pending);
    assert DecideLaunch(cfg, polled, tick) == NoLaunch;
    RlTick(cfg, m, dt);
    hide Apply;
  }

  /** Three ticks later the switch is over. */
  lemma SwitchesOver(cfg: Config, before: seq<Event>, h: Handoff, dt: real) returns (events: seq<Event>)
    requires ValidConfig(cfg) && cfg.fsm.hasRl && dt > 0.0 && Switching(cfg, Run(cfg, before), h, IDLE)
    ensures Settled(cfg, Run(cfg, events), h.pending)
  {
    hide Apply, Run, Switching, Settled, ValidConfig;
    var m := Run(cfg, before);
    var first := OnTick(Swift(m, dt));
    RlLaunch(cfg, m, h, dt);
    var second := OnTick(Swift(Apply(cfg, m, first), dt));
    RlCollect(cfg, Apply(cfg, m, first), h, dt);
    var third := OnTick(Swift(Apply(cfg, Apply(cfg, m, first), second), dt));
    RlInstall(cfg, Apply(cfg, Apply(cfg, m, first), second), h, dt);
    RunTwice(cfg, before, first, second);
    RunOnce(cfg, before + [first] + [second], third);
    events := before + [first] + [second] + [third];
  }

  // ---------------------------------------------------------------- ways to a running policy

  /** With the key released an undisturbed robot in RL has settled. */
  lemma RestIsSettled(cfg: Config, m: Manager, h: Handoff)
    requires Resting(cfg, m, h) && m.fsm.mode == Rl && m.command.key == 0 && CurrentFault(m.fsm) == NO_FAULT
    requires !h.waiting && !h.returnAttempted
    ensures Settled(cfg, m, h.active)
  {}

  lemma SettlesInRl(cfg: Config, off: seq<Event>, h: Handoff, dt: real) returns (events: seq<Event>)
    requires WithRl(cfg) && LongEnough(cfg.fsm, dt) && !h.waiting && !h.returnAttempted
    requires Resting(cfg, Run(cfg, off), h) && Run(cfg, off).fsm.mode == PowerOff
    ensures Settled(cfg, Run(cfg, events), h.active)
  {
    hide Run, Apply, Resting, LongEnough, Settled;
    var rl := ReachRl(cfg, off, h, dt);
    PressKeepsResting(cfg, Run(cfg, rl), h, 0);
    RunOnce(cfg, rl, Press(0));
    events := rl + [Press(0)];
    RestIsSettled(cfg, Run(cfg, events), h);
  }

  /** The chain's target is pending as soon as RL is entered with its prerequisite. */
  lemma EntersSwitching(cfg: Config, m: Manager, policy: Name, dt: real)
    requires ValidConfig(cfg) && WithRl(cfg) && policy != "" && policy in cfg.prerequisites
    requires dt > 0.0 && dt >= cfg.prerequisites[policy].duration
    requires Chained(cfg, m, policy) && m.fsm.mode == Zero && m.fsm.zero.finished && m.command.key == 3
    ensures var n := Apply(cfg, m, OnTick(Long(dt)));
            Switching(cfg, n, n.hand, IDLE) && n.hand.pending == policy && n.hand.active == cfg.prerequisites[policy].policy
  {
    hide StepBefore, StepPrepare, StepAfter, ObserveBefore;
    TickBefore(cfg, m, Long(dt));
    PollRests(cfg, m, m.hand, dt);
    TickPrepare(cfg, m, m.hand, dt);
    ToRl(cfg, m.fsm, dt);
    EntryMoves(cfg, StepPrepare(cfg, m, Long(dt)), policy, dt);
  }

  lemma EntryMoves(cfg: Config, m: Manager, policy: Name, dt: real)
    requires policy != "" && policy in cfg.prerequisites && dt >= cfg.prerequisites[policy].duration
    requires cfg.prerequisites[policy].policy != policy
    requires Chained(cfg, m, policy) && m.fsm.mode == Zero && m.fsm.zero.finished && m.command.key == 3 && cfg.fsm.zero.next == Rl
    requires Stepped(cfg, m.fsm, 3, dt).mode == Rl && CurrentFault(Stepped(cfg, m.fsm, 3, dt)) == NO_FAULT
    ensures var n := StepAfter(cfg, m, [], Long(dt));
            Switching(cfg, n, n.hand, IDLE) && n.hand.pending == policy && n.hand.active == m.hand.active
  {
    var tick := Long(dt);
    assert PrepareAtStartup(cfg, m, tick) == m;
    var ran := RunStates(cfg, m, 3, tick);
    assert LatchStateFault(cfg, ran, [], tick) == ran;
    var counted := CountResidence(LeaveRl(ran), tick.dt);
    var advanced := AdvanceChain(cfg, counted, tick);
    assert advanced.hand == m.hand.(timer := dt, pending := policy, final := "", waiting := false, hot := true, started := 0.0);
    assert DecideReturn(cfg, advanced, tick) == Stay;
  }

  /** A chain in RL: its prerequisite runs, and its target is pending. */
  lemma ChainSwitches(cfg: Config, policy: Name, dt: real) returns (events: seq<Event>)
    requires ValidConfig(cfg) && WithRl(cfg) && Chainable(cfg, policy)
    requires LongEnough(cfg.fsm, dt) && dt >= cfg.prerequisites[policy].duration
    ensures var n := Run(cfg, events);
            Switching(cfg, n, n.hand, IDLE) && n.hand.pending == policy && n.hand.active == cfg.prerequisites[policy].policy
  {
    assert policy !in cfg.actions && cfg.prerequisites[policy].policy != "" && dt > 0.0;
    hide Run, Apply, ValidConfig, LongEnough;
    var before := ReadyToAsk(cfg, policy, dt);
    var off := ChainedInPowerOff(cfg, before, policy, dt);
    var zero := ReachZero(cfg, off, Run(cfg, off).hand, dt);
    PressKeepsResting(cfg, Run(cfg, zero), Run(cfg, off).hand, 3);
    EntersSwitching(cfg, Apply(cfg, Run(cfg, zero), Press(3)), policy, dt);
    RunTwice(cfg, zero, Press(3), OnTick(Long(dt)));
    events := zero + [Press(3)] + [OnTick(Long(dt))];
  }

  /** A policy that is there from the start, or asked for, can run in RL with nothing else wanted. */
  lemma RunsSettled(cfg: Config, x: Name) returns (events: seq<Event>)
    requires ValidConfig(cfg) && WithRl(cfg) && (x == cfg.initialPolicy || (x in cfg.selectable && x != ""))
    ensures Settled(cfg, Run(cfg, events), x)
  {
    hide Run, Apply, ValidConfig, LongEnough, Resting, Settled, Switching;
    var a := cfg.initialPolicy;
    var h := Handoff(a, a, false, 0.0, false, "", false, 0.0);
    StartsResting(cfg);
    if x == a {
      var dt := SomeLength(cfg.fsm, 1.0);
      events := SettlesInRl(cfg, [], h, dt);
    } else if x in cfg.prerequisites {
      var dt := SomeLength(cfg.fsm, cfg.prerequisites[x].duration);
      LongIsPositive(cfg.fsm, dt);
      var switching := ChainSwitches(cfg, x, dt);
      events := SwitchesOver(cfg, switching, Run(cfg, switching).hand, dt);
    } else {
      var dt := SomeLength(cfg.fsm, 1.0);
      AskDirectly(cfg, Run(cfg, []), h, x);
      RunOnce(cfg, [], Ask(x, 1));
      var asked := h.(pending := x, started := 0.0, waiting := false);
      var off := InstalledInPowerOff(cfg, [] + [Ask(x, 1)], asked, dt);
      events := SettlesInRl(cfg, off, asked.(active := x, returnAttempted := false, timer := 0.0), dt);
    }
  }

  lemma AskDirectly(cfg: Config, m: Manager, h: Handoff, policy: Name)
    requires WithRl(cfg) && policy in cfg.selectable && policy != "" && policy !in cfg.prerequisites
    requires Resting(cfg, m, h) && Unasked(m) && m.fsm.mode == PowerOff
    requires policy != h.active && h.timer == 0.0 && h.final == ""
    ensures var n := Apply(cfg, m, Ask(policy, 1));
            && Underway(cfg, n, h.(pending := policy, started := 0.0, waiting := false), IDLE) && !RequestedPolicyReady(n)
  {
    assert DecideSwitch(cfg, Told(cfg, m, Ask(policy, 1).command, 0.0), policy).Direct?;
  }

  // ---------------------------------------------------------------- ways to a pending policy

  /** Another policy is pending in RL. */
  predicate Pends(m: Manager, x: Name) {
    m.fsm.mode == Rl && m.hand.active == x && m.hand.pending != x && !m.desk.fault.latched
  }

  /** Another policy of the group is asked for. */
  lemma AskInRl(cfg: Config, m: Manager, x: Name, y: Name)
    requires cfg.fsm.hasRl && Settled(cfg, m, x) && AskedFrom(cfg, x, y)
    requires y in cfg.prerequisites ==> cfg.prerequisites[y].policy != x
    ensures Pends(Apply(cfg, m, Ask(y, m.requests.sequence + 1)), x)
  {
    hide HandlePolicyAction;
    var c := Ask(y, m.requests.sequence + 1).command;
    ToldQuietly(cfg, m, c);
    var d := DecideSwitch(cfg, Told(cfg, m, c, 0.0), y);
    assert d.Chain? || d.Direct?;
  }

  /** A command without an interaction leaves the catalog and the handoff alone. */
  lemma ToldQuietly(cfg: Config, m: Manager, c: Command)
    requires c.interaction == NO_INTERACTION
    ensures var n := HandlePolicyAction(cfg, m.(command := c), c.interaction, 0.0);
            && n.hand == m.hand && n.fsm == m.fsm && n.desk == m.desk && n.command == c && n.log == m.log
            && n.prep == m.prep && n.requests == m.requests
  {
    hide ActionsAllowed, RequestedPolicyReady, CatalogEntry;
  }

  function Act(sequence: nat, action: Name): Event {
    OnCommand(NO_COMMAND.(interaction := Interaction(sequence, Start, action)), 0.0)
  }

  lemma BeginsInRl(cfg: Config, m: Manager, x: Name, action: Name)
    requires Settled(cfg, m, x) && x in cfg.actions && x != "" && action in cfg.actions[x]
    ensures var c := Act(m.catalog.previousSequence + 1, action).command;
            DecideAction(cfg, m.(command := c), c.interaction) == Begin(cfg.actions[x][action])
  {}

  /** An action of the running entry is started. */
  lemma ActInRl(cfg: Config, m: Manager, x: Name, action: Name)
    requires ValidConfig(cfg) && Settled(cfg, m, x) && x in cfg.actions && x != "" && action in cfg.actions[x]
    ensures Pends(Apply(cfg, m, Act(m.catalog.previousSequence + 1, action)), x)
  {
    hide DecideAction, CatalogAfterAction;
    BeginsInRl(cfg, m, x, action);
    assert cfg.actions[x][action] !in cfg.actions;
  }

  function Ending(m: Manager, dt: real): Tick { Long(dt).(policyFinished := true, now := m.hand.started) }

  /** The running policy ends, and its return policy is wanted. */
  lemma EndsInRl(cfg: Config, m: Manager, x: Name, r: Name, dt: real)
    requires ValidConfig(cfg) && dt > 0.0 && Settled(cfg, m, x) && ReturnsTo(cfg, x, r)
    ensures var n := Apply(cfg, m, OnTick(Ending(m, dt)));
            Switching(cfg, n, n.hand, IDLE) && n.hand.pending == r && n.hand.active == x && Pends(n, x)
  {
    assert r != x;
    hide StepBefore, StepPrepare, StepAfter, ObserveBefore, ValidConfig;
    var tick := Ending(m, dt);
    RlBefore(cfg, m, tick);
    var asked := RequestHandoff(m);
    assert PollPolicyPreparation(cfg, asked, tick) == asked by { NothingToPoll(cfg, asked, tick); }
    assert Calm(cfg, asked);
    RlPrepare(cfg, asked, tick);
    NothingToLaunch(cfg, asked, tick);
    EndsAfter(cfg, StepPrepare(cfg, asked, tick), x, r, tick);
  }

  lemma NothingToPoll(cfg: Config, m: Manager, tick: Tick)
    requires Idling(m.prep) && !tick.retirementDone
    ensures PollPolicyPreparation(cfg, m, tick) == m
  {}

  lemma NothingToLaunch(cfg: Config, m: Manager, tick: Tick)
    requires Idling(m.prep) && m.hand.pending == m.hand.active
    ensures PreparePending(cfg, m, tick) == m
  {
    assert DecideLaunch(cfg, m, tick) == NoLaunch;
  }

  lemma EndsAfter(cfg: Config, m: Manager, x: Name, r: Name, tick: Tick)
    requires Settled(cfg, m, x) && ReturnsTo(cfg, x, r) && r != x && tick.dt > 0.0 && tick.rlDt > 0.0
    requires tick.rlMid.None? && tick.rlRun.None? && !tick.rlTilted && tick.policyFinished
    ensures var n := StepAfter(cfg, m, [], tick);
            Switching(cfg, n, n.hand, IDLE) && n.hand.pending == r && n.hand.active == x
  {
    assert PrepareAtStartup(cfg, m, tick) == m;
    var ran := RunStates(cfg, m, 0, tick);
    assert ran == m;
    assert LatchStateFault(cfg, ran, [], tick) == ran;
    var counted := CountResidence(LeaveRl(ran), tick.dt);
    assert AdvanceChain(cfg, counted, tick) == counted;
    assert DecideReturn(cfg, counted, tick) == ToReturnPolicy(r);
  }

  // ---------------------------------------------------------------- the unagreed handoff

  /** With another policy pending, the ungrouped one is asked for. */
  lemma AskOutside(cfg: Config, m: Manager, x: Name, p: Name)
    requires cfg.fsm.hasRl && Pends(m, x) && m.prep.runtimeReady
    requires Ungrouped(cfg, p) && p != x && SameSwitchGroup(cfg, x, p)
    ensures Orphaned(Apply(cfg, m, Ask(p, m.requests.sequence + 1)).log)
  {
    hide HandlePolicyAction;
    var c := Ask(p, m.requests.sequence + 1).command;
    var told := Told(cfg, m, c, 0.0);
    ToldQuietly(cfg, m, c);
    assert DecideSwitch(cfg, told, p).Outside?;
    var n := SwitchPolicy(cfg, told, p, m.requests.sequence + 1, 0.0);
    assert n.log[|n.log| - 1] == OutsideGroup(m.hand.pending, m.hand.active);
  }

  lemma PendingIsUnsafe(cfg: Config, before: seq<Event>, x: Name, p: Name) returns (events: seq<Event>)
    requires ValidConfig(cfg) && cfg.fsm.hasRl && Pends(Run(cfg, before), x)
    requires Ungrouped(cfg, p) && p != x && SameSwitchGroup(cfg, x, p)
    ensures !SafeHandoffs(Run(cfg, events).log)
  {
    hide Run, Apply, ValidConfig, Inv, Orphaned, Ungrouped;
    RunHolds(cfg, before);
    var m := Run(cfg, before);
    RuntimeInRl(cfg, m);
    AskOutside(cfg, m, x, p);
    RunOnce(cfg, before, Ask(p, m.requests.sequence + 1));
    events := OrphanIsUnsafe(cfg, before + [Ask(p, m.requests.sequence + 1)]);
  }

  /** A policy that is needed first runs while its target is pending. */
  lemma NeededPends(cfg: Config, x: Name) returns (events: seq<Event>)
    requires ValidConfig(cfg) && WithRl(cfg) && Needed(cfg, x)
    ensures Pends(Run(cfg, events), x)
  {
    var y :| y in cfg.selectable && y != "" && y in cfg.prerequisites && cfg.prerequisites[y].policy == x;
    hide Run, ValidConfig, LongEnough;
    var dt := SomeLength(cfg.fsm, cfg.prerequisites[y].duration);
    events := ChainSwitches(cfg, y, dt);
  }

  lemma LeadPends(cfg: Config, before: seq<Event>, x: Name) returns (events: seq<Event>)
    requires ValidConfig(cfg) && cfg.fsm.hasRl && Settled(cfg, Run(cfg, before), x) && Leads(cfg, x) && !Needed(cfg, x)
    ensures Pends(Run(cfg, events), x)
  {
    var m := Run(cfg, before);
    var e: Event;
    if y :| AskedFrom(cfg, x, y) {
      AskInRl(cfg, m, x, y);
      e := Ask(y, m.requests.sequence + 1);
    } else if x in cfg.actions && x != "" {
      assert cfg.actions[x] != map[];
      var action :| action in cfg.actions[x];
      ActInRl(cfg, m, x, action);
      e := Act(m.catalog.previousSequence + 1, action);
    } else {
      var r :| ReturnsTo(cfg, x, r);
      EndsInRl(cfg, m, x, r, 1.0);
      e := OnTick(Ending(m, 1.0));
    }
    RunOnce(cfg, before, e);
    events := before + [e];
  }

  /** Every configuration at risk has a run that hands over without consent. */
  lemma RiskIsUnsafe(cfg: Config) returns (events: seq<Event>)
    requires ValidConfig(cfg) && Risky(cfg)
    ensures !SafeHandoffs(Run(cfg, events).log)
  {
    assert WithRl(cfg);
    var p, x :| RiskyPair(cfg, p, x);
    hide Run, Apply, ValidConfig, Settled, Switching, Pends, Leads, AskedFrom, WithRl;
    if Needed(cfg, x) {
      events := NeededPends(cfg, x);
    } else {
      if Starts(cfg, x) {
        events := RunsSettled(cfg, x);
      } else {
        var own := RunsSettled(cfg, p);
        EndsInRl(cfg, Run(cfg, own), p, x, 1.0);
        RunOnce(cfg, own, OnTick(Ending(Run(cfg, own), 1.0)));
        var ended := own + [OnTick(Ending(Run(cfg, own), 1.0))];
        events := SwitchesOver(cfg, ended, Run(cfg, ended).hand, 1.0);
      }
      events := LeadPends(cfg, events, x);
    }
    events := PendingIsUnsafe(cfg, events, x, p);
  }

  /** The exact condition, on the configuration alone: in all runs each installation in RL had the
      consent of the running policy and no fault, exactly if the configuration is not at risk. */
  lemma SafeByConfiguration(cfg: Config)
    requires ValidConfig(cfg)
    ensures (forall events :: SafeHandoffs(Run(cfg, events).log)) <==> !Risky(cfg)
  {
    hide Run, ValidConfig, SafeHandoffs, GroupedConfig;
    if Risky(cfg) {
      var events := RiskIsUnsafe(cfg);
    } else {
      forall events
        ensures SafeHandoffs(Run(cfg, events).log)
      {
        if cfg.fsm.hasRl {
          SafeWithoutRisk(cfg, events);
          LiveHandoff(cfg, events);
        } else {
          WithoutRlGrouped(cfg);
          GroupedIsSafe(cfg, events);
        }
      }
    }
  }

  lemma WithoutRlGrouped(cfg: Config)
    requires !cfg.fsm.hasRl
    ensures GroupedConfig(cfg)
  {}
}
