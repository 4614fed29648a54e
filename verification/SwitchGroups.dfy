/** When the active policy stays within its switch group while RL runs: the condition on the
    requests of a run, and the condition on the configuration for all runs. */
module SwitchGroups {
  import opened RobotBase
  import opened Fsm
  import opened Manager
  import opened ManagerInvariant
  import opened ManagerTheorems
  import opened ManagerCatalog
  import opened QuietRuns

  // ---------------------------------------------------------------- where chains come from

  /** The event is a policy request that is accepted as a chain to the policy. */
  ghost predicate AcceptsChain(cfg: Config, m: Manager, e: Event, policy: Name) {
    && e.OnCommand? && AsksForPolicy(m, e.command) && e.command.switchPolicy == policy
    && DecideSwitch(cfg, Told(cfg, m, e.command, e.now), policy).Chain?
  }

  /** Some request of the run was. */
  ghost predicate ChainAsked(cfg: Config, events: seq<Event>, policy: Name) {
    exists i :: 0 <= i < |events| && AcceptsChain(cfg, Run(cfg, events[..i]), events[i], policy)
  }

  /** A chain may go on or end, but none begins, and only the waiting one moves on. */
  ghost predicate ChainKept(m: Manager, n: Manager) {
    && (n.hand.waiting ==> m.hand.waiting && n.hand.final == m.hand.final)
    && m.log <= n.log
    && (forall i | |m.log| <= i < |n.log| && n.log[i].Advanced? :: m.hand.waiting && n.log[i].target == m.hand.final)
  }

  lemma KeptTwice(a: Manager, b: Manager, c: Manager)
    requires ChainKept(a, b) && ChainKept(b, c)
    ensures ChainKept(a, c)
  {
    forall i | |a.log| <= i < |c.log| && c.log[i].Advanced?
      ensures a.hand.waiting && c.log[i].target == a.hand.final
    {
      if i < |b.log| {
        assert b.log[i] == c.log[i];
      }
    }
  }

  lemma LeaveKeepsChain(m: Manager, dt: real)
    ensures var n := CountResidence(LeaveRl(m), dt);
            n.log == m.log && n.hand.waiting == m.hand.waiting && n.hand.final == m.hand.final
  {
    hide FinishPolicyAction;
  }

  lemma BookKeepsChain(cfg: Config, m: Manager, tick: Tick)
    ensures ChainKept(m, Book(cfg, m, tick))
  {
    hide LeaveRl, CountResidence, RequestedPolicyReady, DecideReturn;
    LeaveKeepsChain(m, tick.dt);
    BookLog(cfg, m, tick);
  }

  lemma StepKeepsChain(cfg: Config, m: Manager, tick: Tick)
    ensures ChainKept(m, Step(cfg, m, tick))
  {
    hide StepBefore, StepPrepare, StepAfter, ChainKept;
    var seen := ObserveBefore(cfg, m.(fsm := RaiseIn(m.fsm, tick.rlBefore)), tick).1;
    var polled := StepBefore(cfg, m, tick);
    var staged := StepPrepare(cfg, polled, tick);
    BeforeKeepsChain(cfg, m, tick);
    PrepareKeepsChain(cfg, polled, tick);
    AfterKeepsChain(cfg, staged, seen, tick);
    KeptTwice(m, polled, staged);
    KeptTwice(m, staged, StepAfter(cfg, staged, seen, tick));
  }

  lemma BeforeKeepsChain(cfg: Config, m: Manager, tick: Tick)
    ensures ChainKept(m, StepBefore(cfg, m, tick))
  {
    hide DecidePoll, CatalogAfterFailure, Concluded, GivesUp, CatalogAfterPoll, PrepAfterPoll, LogAfterPoll, Resolve,
         ReplaceStates, ActionArrives, MonitorFault, ReportedSensorFault;
    BeforeExtends(cfg, m, tick);
  }

  lemma PrepareKeepsChain(cfg: Config, m: Manager, tick: Tick)
    ensures ChainKept(m, StepPrepare(cfg, m, tick))
  {
    hide DecideLaunch, CatalogAfterFailure, Concluded, ForceSwitch;
    PrepareExtends(cfg, m, tick);
  }

  lemma AfterKeepsChain(cfg: Config, m: Manager, before: seq<FaultStatus>, tick: Tick)
    ensures ChainKept(m, StepAfter(cfg, m, before, tick))
  {
    hide Book, StepFsm, Resolve, ForceSwitch;
    var ran := RunStates(cfg, PrepareAtStartup(cfg, m, tick), m.command.key, tick);
    assert ran.hand == m.hand && ran.log == m.log;
    var latched := LatchStateFault(cfg, ran, before, tick);
    assert latched.hand == m.hand;
    assert ChainKept(m, latched);
    BookKeepsChain(cfg, latched, tick);
    KeptTwice(m, latched, Book(cfg, latched, tick));
  }

  lemma ToldKeepsChain(cfg: Config, m: Manager, c: Command, now: real)
    ensures ChainKept(m, Told(cfg, m, c, now))
  {
    hide DecideAction, CatalogAfterAction;
  }

  lemma RequestStartsChain(cfg: Config, m: Manager, policy: Name, sequence: nat, now: real)
    ensures var n := SwitchPolicy(cfg, m, policy, sequence, now);
            ChainKept(m, n) || (DecideSwitch(cfg, m, policy).Chain? && n.hand.final == policy && n.log == m.log)
  {
    hide Admissible, OutsideGroupOf, FinishPolicyAction;
  }

  /** Only an accepted request begins a chain. */
  lemma ChainComes(cfg: Config, m: Manager, e: Event)
    ensures var n := Apply(cfg, m, e);
            ChainKept(m, n) || (AcceptsChain(cfg, m, e, n.hand.final) && n.log == m.log)
  {
    hide Step, Told, SwitchPolicy, DecideSwitch;
    match e
    case OnTick(tick) => StepKeepsChain(cfg, m, tick);
    case OnCommand(c, now) =>
      ToldKeepsChain(cfg, m, c, now);
      if AsksForPolicy(m, c) {
        var told := Told(cfg, m, c, now);
        assert told.log == m.log by { ToldLog(cfg, m, c, now); }
        RequestStartsChain(cfg, told, c.switchPolicy, c.requestSequence, now);
        if ChainKept(told, SetCommand(cfg, m, c, now)) {
          KeptTwice(m, told, SetCommand(cfg, m, c, now));
        }
      }
    case OnAcknowledge(_) =>
    case OnSensorFault(_) =>
    case OnSensorData =>
  }

  lemma ToldLog(cfg: Config, m: Manager, c: Command, now: real)
    ensures Told(cfg, m, c, now).log == m.log
  {}

  lemma AskedGrows(cfg: Config, events: seq<Event>, e: Event, policy: Name)
    requires ChainAsked(cfg, events, policy)
    ensures ChainAsked(cfg, events + [e], policy)
  {
    hide AcceptsChain, Run;
    var i :| 0 <= i < |events| && AcceptsChain(cfg, Run(cfg, events[..i]), events[i], policy);
    assert (events + [e])[..i] == events[..i] && (events + [e])[i] == events[i];
  }

  lemma AskedNow(cfg: Config, events: seq<Event>, e: Event, policy: Name)
    requires AcceptsChain(cfg, Run(cfg, events), e, policy)
    ensures ChainAsked(cfg, events + [e], policy)
  {
    hide AcceptsChain, Run;
    var all := events + [e];
    assert all[..|events|] == events && all[|events|] == e;
  }

  /** In every run the waiting chain, and each chain that has moved on, was accepted at a request. */
  lemma {:induction false} ChainsWereAsked(cfg: Config, events: seq<Event>)
    ensures var m := Run(cfg, events);
            && (m.hand.waiting ==> ChainAsked(cfg, events, m.hand.final))
            && (forall i | 0 <= i < |m.log| && m.log[i].Advanced? :: ChainAsked(cfg, events, m.log[i].target))
    decreases |events|
  {
    hide Apply, AcceptsChain, ChainAsked;
    if events != [] {
      var shorter, e := events[..|events| - 1], events[|events| - 1];
      assert shorter + [e] == events;
      var m, n := Run(cfg, shorter), Run(cfg, events);
      ChainsWereAsked(cfg, shorter);
      ChainComes(cfg, m, e);
      if AcceptsChain(cfg, m, e, n.hand.final) {
        AskedNow(cfg, shorter, e, n.hand.final);
      }
      forall policy | ChainAsked(cfg, shorter, policy)
        ensures ChainAsked(cfg, events, policy)
      {
        AskedGrows(cfg, shorter, e, policy);
      }
      forall i | 0 <= i < |n.log| && n.log[i].Advanced?
        ensures ChainAsked(cfg, events, n.log[i].target)
      {
        if i < |m.log| {
          assert n.log[i] == m.log[i];
        }
      }
    }
  }

  // ---------------------------------------------------------------- requests within the group

  /** The prerequisite of the policy is in the policy's own group. */
  predicate PrerequisiteInGroup(cfg: Config, policy: Name) {
    policy in cfg.prerequisites ==> SameSwitchGroup(cfg, cfg.prerequisites[policy].policy, policy)
  }

  /** A run that accepts chains only to policies whose prerequisite shares their group never leaves
      the group of the active policy while RL runs. */
  lemma GroupedRequestsStay(cfg: Config, events: seq<Event>, e: Event)
    requires ValidConfig(cfg) && forall p | ChainAsked(cfg, events, p) :: PrerequisiteInGroup(cfg, p)
    ensures StaysInGroup(cfg, Run(cfg, events), Apply(cfg, Run(cfg, events), e))
  {
    hide Run, Apply, Inv, ValidConfig, StaysInGroup, ChainAsked;
    ActiveStaysInGroup(cfg, events, e);
    ChainsWereAsked(cfg, events);
    RunHolds(cfg, events);
    LogOf(cfg, Run(cfg, events));
    var log := Run(cfg, events).log;
    forall i | 0 <= i < |log| && log[i].Advanced?
      ensures SameSwitchGroup(cfg, log[i].policy, log[i].target)
    {
      assert NoteSound(cfg, log[i]) && PrerequisiteInGroup(cfg, log[i].target);
    }
  }

  /** What a policy must be for a chain to it to be accepted at all. */
  lemma AskedIsSelectable(cfg: Config, events: seq<Event>, policy: Name)
    requires ChainAsked(cfg, events, policy)
    ensures cfg.fsm.hasRl && policy != "" && policy in cfg.selectable && policy in cfg.prerequisites
  {
    hide Run, Told;
    var i :| 0 <= i < |events| && AcceptsChain(cfg, Run(cfg, events[..i]), events[i], policy);
  }

  // ---------------------------------------------------------------- a chain that leaves the group

  /** Waiting in POWER_OFF with the prerequisite wanted. */
  function Waiting(h: Handoff, prerequisite: Name, policy: Name): Handoff {
    h.(hot := false, started := 0.0, final := policy, pending := prerequisite, timer := 0.0, waiting := true)
  }

  /** In POWER_OFF the request is accepted whatever the groups are. */
  lemma AskForChain(cfg: Config, m: Manager, policy: Name)
    requires WithRl(cfg) && Undisturbed(cfg, m) && m.fsm.mode == PowerOff && Unasked(m)
    requires m.prep == IDLE.(runtimeReady := m.prep.runtimeReady, retiring := m.prep.retiring)
    requires policy != "" && policy in cfg.selectable && policy in cfg.prerequisites && cfg.prerequisites[policy].policy != ""
    requires policy != m.hand.active || !m.prep.runtimeReady
    ensures var n := Apply(cfg, m, Ask(policy, 1));
            && Underway(cfg, n, Waiting(m.hand, cfg.prerequisites[policy].policy, policy), IDLE)
            && n.prep.runtimeReady == m.prep.runtimeReady
  {
    assert DecideSwitch(cfg, Told(cfg, m, Ask(policy, 1).command, 0.0), policy).Chain?;
  }

  /** The chain's prerequisite is installed in POWER_OFF. */
  ghost predicate Chained(cfg: Config, m: Manager, policy: Name)
    requires policy in cfg.prerequisites
  {
    && m.hand.waiting && m.hand.final == policy && m.hand.active == cfg.prerequisites[policy].policy
    && m.hand.timer == 0.0 && Resting(cfg, m, m.hand)
  }

  lemma ChainedInPowerOff(cfg: Config, before: seq<Event>, policy: Name, dt: real) returns (events: seq<Event>)
    requires WithRl(cfg) && policy != "" && policy in cfg.selectable && policy in cfg.prerequisites
    requires cfg.prerequisites[policy].policy != ""
    requires var m := Run(cfg, before);
             && Undisturbed(cfg, m) && m.fsm.mode == PowerOff && Unasked(m)
             && m.prep == IDLE.(runtimeReady := m.prep.runtimeReady, retiring := m.prep.retiring)
             && (policy != m.hand.active || !m.prep.runtimeReady)
    ensures Chained(cfg, Run(cfg, events), policy) && Run(cfg, events).fsm.mode == PowerOff
  {
    hide Run, Apply;
    var m := Run(cfg, before);
    AskForChain(cfg, m, policy);
    events := before + [Ask(policy, 1)];
    RunOnce(cfg, before, Ask(policy, 1));
    var asked := Run(cfg, events);
    var h := Waiting(m.hand, cfg.prerequisites[policy].policy, policy);
    if !RequestedPolicyReady(asked) {
      events := InstalledInPowerOff(cfg, events, h, dt);
    }
  }

  /** The tick that enters RL moves the chain on at once. */
  lemma EnterChained(cfg: Config, m: Manager, policy: Name, dt: real)
    requires WithRl(cfg) && policy in cfg.prerequisites && dt > 0.0 && dt >= cfg.prerequisites[policy].duration
    requires Chained(cfg, m, policy) && m.fsm.mode == Zero && m.fsm.zero.finished && m.command.key == 3
    requires !PrerequisiteInGroup(cfg, policy)
    ensures Crossed(cfg, Apply(cfg, m, OnTick(Long(dt))).log)
  {
    hide StepBefore, StepPrepare, StepAfter, ObserveBefore, Crossed;
    TickBefore(cfg, m, Long(dt));
    PollRests(cfg, m, m.hand, dt);
    TickPrepare(cfg, m, m.hand, dt);
    ToRl(cfg, m.fsm, dt);
    CrossingEntry(cfg, StepPrepare(cfg, m, Long(dt)), policy, dt);
  }

  lemma CrossingEntry(cfg: Config, m: Manager, policy: Name, dt: real)
    requires policy in cfg.prerequisites && dt >= cfg.prerequisites[policy].duration && !PrerequisiteInGroup(cfg, policy)
    requires Chained(cfg, m, policy) && m.fsm.mode == Zero && m.command.key == 3
    requires Stepped(cfg, m.fsm, 3, dt).mode == Rl && CurrentFault(Stepped(cfg, m.fsm, 3, dt)) == NO_FAULT
    ensures Crossed(cfg, StepAfter(cfg, m, [], Long(dt)).log)
  {
    hide Crossed;
    var tick := Long(dt);
    assert PrepareAtStartup(cfg, m, tick) == m;
    var ran := RunStates(cfg, m, 3, tick);
    assert LatchStateFault(cfg, ran, [], tick) == ran;
    BookLog(cfg, ran, tick);
    var counted := CountResidence(LeaveRl(ran), tick.dt);
    var note := Advanced(policy, cfg.prerequisites[policy].policy, counted.residence);
    assert AdvanceChain(cfg, counted, tick).log == counted.log + [note];
    LastCrosses(cfg, counted.log, note);
  }

  lemma LastCrosses(cfg: Config, log: seq<Note>, note: Note)
    requires note.Advanced? && !SameSwitchGroup(cfg, note.policy, note.target)
    ensures Crossed(cfg, log + [note])
  {
    assert (log + [note])[|log|] == note;
  }

  // ---------------------------------------------------------------- back to POWER_OFF

  /** With the wanted policy already running, RL has to be left once before a chain to it begins. */
  lemma LeaveTick(cfg: Config, m: Manager, h: Handoff, dt: real)
    requires WithRl(cfg) && Resting(cfg, m, h) && h.active !in cfg.actions && !h.waiting && m.fsm.mode == Rl && m.command.key == -1
    requires CurrentFault(m.fsm) == NO_FAULT && !m.fsm.rl.switchRequested
    ensures var n := Apply(cfg, m, OnTick(Long(dt)));
            && Undisturbed(cfg, n) && n.hand == h && n.fsm.mode == PowerOff && !n.prep.runtimeReady
            && n.prep == IDLE.(runtimeReady := false, retiring := n.prep.retiring)
            && n.requests.policy == m.requests.policy && n.requests.sequence == m.requests.sequence
  {
    hide StepBefore, StepPrepare, StepAfter, ObserveBefore;
    TickBefore(cfg, m, Long(dt));
    PollRests(cfg, m, h, dt);
    TickPrepare(cfg, m, h, dt);
    LeaveAfter(cfg, StepPrepare(cfg, m, Long(dt)), h, dt);
  }

  lemma LeaveAfter(cfg: Config, m: Manager, h: Handoff, dt: real)
    requires WithRl(cfg) && Resting(cfg, m, h) && h.active !in cfg.actions && !h.waiting && m.fsm.mode == Rl && m.command.key == -1
    requires CurrentFault(m.fsm) == NO_FAULT
    ensures var n := StepAfter(cfg, m, [], Long(dt));
            && Undisturbed(cfg, n) && n.hand == h && n.fsm.mode == PowerOff
            && n.prep == IDLE.(runtimeReady := false, retiring := n.prep.retiring) && n.requests == m.requests
  {
    var tick := Long(dt);
    assert PrepareAtStartup(cfg, m, tick) == m;
    var ran := RunStates(cfg, m, -1, tick);
    assert ran.fsm.mode == PowerOff && StateFault(ran.fsm) == [];
    var left := CountResidence(LeaveRl(ran), tick.dt);
    assert left.hand == h && left.catalog == m.catalog;
    assert AdvanceChain(cfg, left, tick) == left;
    assert ReturnFinished(cfg, left, tick) == left;
  }

  lemma BackInPowerOff(cfg: Config, before: seq<Event>, h: Handoff, dt: real) returns (events: seq<Event>)
    requires WithRl(cfg) && LongEnough(cfg.fsm, dt) && h.active !in cfg.actions && !h.waiting
    requires Resting(cfg, Run(cfg, before), h) && Run(cfg, before).fsm.mode == PowerOff
    ensures var n := Run(cfg, events);
            && Undisturbed(cfg, n) && n.hand == h && n.fsm.mode == PowerOff && Unasked(n)
            && n.prep == IDLE.(runtimeReady := false, retiring := n.prep.retiring)
  {
    hide Run, Apply, Resting, Undisturbed, LongEnough;
    var rl := ReachRl(cfg, before, h, dt);
    var m := Run(cfg, rl);
    PressKeepsResting(cfg, m, h, -1);
    LeaveTick(cfg, Apply(cfg, m, Press(-1)), h, dt);
    RunTwice(cfg, rl, Press(-1), OnTick(Long(dt)));
    events := rl + [Press(-1)] + [OnTick(Long(dt))];
  }

  // ---------------------------------------------------------------- the exact condition

  /** A tick that long exists. */
  lemma SomeLength(cfg: FsmConfig, duration: real) returns (dt: real)
    ensures LongEnough(cfg, dt) && dt >= duration
  {
    dt := 1.0 + Abs(cfg.homeRamp) + Abs(cfg.homeMove) + Abs(cfg.zero.moveDuration) + Abs(cfg.zero.settleDuration)
      + Abs(duration);
  }

  /** In POWER_OFF, ready for a chain to the policy to be accepted. */
  lemma ReadyToAsk(cfg: Config, policy: Name, dt: real) returns (events: seq<Event>)
    requires WithRl(cfg) && LongEnough(cfg.fsm, dt) && policy !in cfg.actions
    ensures var m := Run(cfg, events);
            && Undisturbed(cfg, m) && m.fsm.mode == PowerOff && Unasked(m)
            && m.prep == IDLE.(runtimeReady := m.prep.runtimeReady, retiring := m.prep.retiring)
            && (policy != m.hand.active || !m.prep.runtimeReady)
  {
    hide Run, LongEnough;
    StartsResting(cfg);
    events := [];
    if policy == cfg.initialPolicy {
      events := BackInPowerOff(cfg, [], Run(cfg, []).hand, dt);
    }
  }

  /** If a selectable policy has its prerequisite in another group, some run leaves the group. */
  lemma ChainLeavesGroup(cfg: Config, policy: Name) returns (events: seq<Event>, e: Event)
    requires ValidConfig(cfg) && cfg.fsm.hasRl && policy != "" && policy in cfg.selectable && !PrerequisiteInGroup(cfg, policy)
    ensures !StaysInGroup(cfg, Run(cfg, events), Apply(cfg, Run(cfg, events), e))
  {
    assert WithRl(cfg) && policy in cfg.prerequisites && policy !in cfg.actions && cfg.prerequisites[policy].policy != "";
    hide Run, Apply, ValidConfig, Crossed, StaysInGroup, LongEnough;
    var dt := SomeLength(cfg.fsm, cfg.prerequisites[policy].duration);
    assert dt > 0.0 by { LongIsPositive(cfg.fsm, dt); }
    var before := ReadyToAsk(cfg, policy, dt);
    var off := ChainedInPowerOff(cfg, before, policy, dt);
    var zero := ReachZero(cfg, off, Run(cfg, off).hand, dt);
    PressKeepsResting(cfg, Run(cfg, zero), Run(cfg, off).hand, 3);
    EnterChained(cfg, Apply(cfg, Run(cfg, zero), Press(3)), policy, dt);
    RunTwice(cfg, zero, Press(3), OnTick(Long(dt)));
    events, e := CrossingIsUnsafe(cfg, zero + [Press(3)] + [OnTick(Long(dt))]);
  }

  lemma LongIsPositive(cfg: FsmConfig, dt: real)
    requires LongEnough(cfg, dt)
    ensures dt > 0.0
  {}

  /** Every policy that can be asked for has its prerequisite in its own group. */
  predicate GroupedConfig(cfg: Config) {
    cfg.fsm.hasRl ==> forall p | p in cfg.selectable && p != "" :: PrerequisiteInGroup(cfg, p)
  }

  /** The exact condition, on the configuration alone: in all runs the active policy stays within
      its group while RL runs, exactly if there is no RL state or every selectable policy has its
      prerequisite in its own group. */
  lemma GroupsByConfiguration(cfg: Config)
    requires ValidConfig(cfg)
    ensures (forall events, e :: StaysInGroup(cfg, Run(cfg, events), Apply(cfg, Run(cfg, events), e))) <==> GroupedConfig(cfg)
  {
    hide Run, Apply, ValidConfig, StaysInGroup, ChainAsked, PrerequisiteInGroup;
    if GroupedConfig(cfg) {
      forall events, e
        ensures StaysInGroup(cfg, Run(cfg, events), Apply(cfg, Run(cfg, events), e))
      {
        forall p | ChainAsked(cfg, events, p)
          ensures PrerequisiteInGroup(cfg, p)
        {
          AskedIsSelectable(cfg, events, p);
        }
        GroupedRequestsStay(cfg, events, e);
      }
    } else {
      var p :| p in cfg.selectable && p != "" && !PrerequisiteInGroup(cfg, p);
      var events, e := ChainLeavesGroup(cfg, p);
    }
  }
}
