/** Undisturbed runs of the supervisory controller, in any configuration with an RL state: a
    policy is prepared in POWER_OFF, and the keys lead through DAMP, HOME and ZERO to RL. */
module QuietRuns {
  import opened RobotBase
  import opened Fsm
  import opened Manager
  import opened ManagerCatalog

  /** One tick of this length completes every ramp, move and settle time. */
  predicate LongEnough(cfg: FsmConfig, dt: real) {
    && dt > 0.0 && dt >= cfg.homeRamp && dt - cfg.homeRamp >= cfg.homeMove
    && dt >= cfg.zero.moveDuration && dt >= cfg.zero.settleDuration
  }

  predicate WithRl(cfg: Config) {
    cfg.fsm.hasRl && cfg.fsm.zero.next == Rl && !cfg.startupPrepare
  }

  function Long(dt: real): Tick { CALM.(dt := dt, rlDt := 1.0, within := true) }

  const CALM_DESK := FaultDesk(NO_FAULT, 0, 0, NO_ACK, 0)

  function Press(key: int): Event { OnCommand(NO_COMMAND.(key := key), 0.0) }

  function Ask(policy: Name, sequence: nat): Event {
    OnCommand(NO_COMMAND.(switchPolicy := policy, requestSequence := sequence), 0.0)
  }

  /** Nothing is wrong, no action is under way and no running switch either. */
  predicate Undisturbed(cfg: Config, m: Manager) {
    && m.desk == CALM_DESK && m.sensorFault == NO_FAULT && !m.startupPending && m.previousMode == m.fsm.mode
    && m.catalog.owner == OwnerOf(cfg, m.hand.active) && m.catalog.target == "" && !m.catalog.returning && !m.hand.hot
  }

  /** The wanted policy is installed. */
  predicate Resting(cfg: Config, m: Manager, h: Handoff) {
    && Undisturbed(cfg, m) && m.hand == h && h.pending == h.active
    && m.prep == Preparation(None, false, None, m.prep.retiring, false, true)
  }

  predicate Unasked(m: Manager) { m.requests.policy == "" && m.requests.sequence == 0 }

  lemma StartsResting(cfg: Config)
    requires WithRl(cfg)
    ensures var m := Run(cfg, []); var a := cfg.initialPolicy;
            && Resting(cfg, m, Handoff(a, a, false, 0.0, false, "", false, 0.0)) && Unasked(m)
            && m.fsm.mode == PowerOff && !m.prep.retiring && m.command.key == 0
  {}

  // ---------------------------------------------------------------- one tick

  lemma PressKeepsResting(cfg: Config, m: Manager, h: Handoff, key: int)
    requires Resting(cfg, m, h)
    ensures var n := Apply(cfg, m, Press(key));
            Resting(cfg, n, h) && Unasked(n) && n.fsm == m.fsm && n.command.key == key && n.residence == m.residence
  {}

  lemma TickBefore(cfg: Config, m: Manager, tick: Tick)
    requires Undisturbed(cfg, m) && CurrentFault(m.fsm) == NO_FAULT && (m.fsm.mode == Rl ==> !m.fsm.rl.switchRequested)
    requires tick.stateValid && !tick.tilted && !tick.spinning && tick.rlBefore.None?
    ensures StepBefore(cfg, m, tick) == PollPolicyPreparation(cfg, m, tick)
    ensures ObserveBefore(cfg, m.(fsm := RaiseIn(m.fsm, tick.rlBefore)), tick).1 == []
  {
    assert RaiseIn(m.fsm, tick.rlBefore) == m.fsm;
    var (desk, seen) := ObserveBefore(cfg, m, tick);
    assert seen == [] && desk == m.desk && ResolveIn(m, desk, seen) == m;
    assert RequestHandoff(m) == m;
  }

  lemma PollRests(cfg: Config, m: Manager, h: Handoff, dt: real)
    requires Resting(cfg, m, h)
    ensures PollPolicyPreparation(cfg, m, Long(dt)) == m
  {}

  lemma TickPrepare(cfg: Config, m: Manager, h: Handoff, dt: real)
    requires Resting(cfg, m, h)
    ensures var n := StepPrepare(cfg, m, Long(dt));
            && Resting(cfg, n, h) && n.fsm == m.fsm && n.command.key == m.command.key && n.residence == m.residence
            && n.requests.policy == m.requests.policy && n.requests.sequence == m.requests.sequence
  {
    assert ConfineFault(cfg, m, Long(dt)) == m;
    assert DecideLaunch(cfg, m, Long(dt)) == NoLaunch;
    assert PreparePending(cfg, m, Long(dt)) == m;
  }

  /** Where one tick takes the mode machine. */
  function Stepped(cfg: Config, f: FsmState, key: int, dt: real): FsmState {
    StepFsm(cfg.fsm, f, key, NO_FAULT, Long(dt)).0
  }

  lemma TickAfter(cfg: Config, m: Manager, h: Handoff, dt: real)
    requires Resting(cfg, m, h) && m.fsm.mode != Rl
    ensures var n := StepAfter(cfg, m, [], Long(dt)); var f := Stepped(cfg, m.fsm, m.command.key, dt);
            CurrentFault(f) == NO_FAULT && (f.mode == Rl ==> !h.waiting) ==>
              Resting(cfg, n, h) && n.fsm == f && n.requests == m.requests
  {
    var tick := Long(dt);
    assert PrepareAtStartup(cfg, m, tick) == m;
    var ran := RunStates(cfg, m, m.command.key, tick);
    if CurrentFault(ran.fsm) == NO_FAULT && (ran.fsm.mode == Rl ==> !h.waiting) {
      assert LatchStateFault(cfg, ran, [], tick) == ran;
      assert LeaveRl(ran) == ran;
      var counted := CountResidence(ran, tick.dt);
      assert AdvanceChain(cfg, counted, tick) == counted;
      assert ReturnFinished(cfg, counted, tick) == counted;
      assert CancelChain(counted) == counted;
    }
  }

  /** Outside RL a quiet tick only steps the mode machine. */
  lemma QuietTick(cfg: Config, m: Manager, h: Handoff, dt: real)
    requires Resting(cfg, m, h) && m.fsm.mode != Rl
    ensures var n := Apply(cfg, m, OnTick(Long(dt))); var f := Stepped(cfg, m.fsm, m.command.key, dt);
            CurrentFault(f) == NO_FAULT && (f.mode == Rl ==> !h.waiting) ==>
              && Resting(cfg, n, h) && n.fsm == f
              && n.requests.policy == m.requests.policy && n.requests.sequence == m.requests.sequence
  {
    hide StepBefore, StepPrepare, StepAfter, StepFsm, ObserveBefore;
    TickBefore(cfg, m, Long(dt));
    PollRests(cfg, m, h, dt);
    TickPrepare(cfg, m, h, dt);
    TickAfter(cfg, StepPrepare(cfg, m, Long(dt)), h, dt);
  }

  // ---------------------------------------------------------------- the way to RL

  lemma ToHome(cfg: Config, f: FsmState, dt: real)
    requires LongEnough(cfg.fsm, dt)
    ensures f.mode == PowerOff ==> Stepped(cfg, f, 1, dt).mode == Damp
    ensures f.mode == Damp ==> Stepped(cfg, f, 4, dt).mode == Home && Stepped(cfg, f, 4, dt).home.timer == dt
    ensures f.mode == Home && f.home.timer == dt ==>
              Stepped(cfg, f, 0, dt).mode == Home && Stepped(cfg, f, 0, dt).home.finished
  {}

  lemma ToZero(cfg: Config, f: FsmState, dt: real)
    requires LongEnough(cfg.fsm, dt)
    ensures f.mode == Home && f.home.finished ==>
              var g := Stepped(cfg, f, 2, dt); g.mode == Zero && g.zero.timer == dt && g.zero.settled >= 0.0
    ensures f.mode == Zero && f.zero.timer == dt && f.zero.settled >= 0.0 ==>
              Stepped(cfg, f, 0, dt).mode == Zero && Stepped(cfg, f, 0, dt).zero.finished
  {}

  lemma ToRl(cfg: Config, f: FsmState, dt: real)
    requires dt > 0.0 && WithRl(cfg)
    ensures f.mode == Zero && f.zero.finished ==>
              var g := Stepped(cfg, f, 3, dt); g.mode == Rl && CurrentFault(g) == NO_FAULT && !g.rl.switchRequested
  {}

  /** Press one key and tick once, knowing where the mode machine goes. */
  lemma Go(cfg: Config, events: seq<Event>, h: Handoff, key: int, dt: real) returns (longer: seq<Event>)
    requires Resting(cfg, Run(cfg, events), h) && Run(cfg, events).fsm.mode != Rl
    requires var f := Stepped(cfg, Run(cfg, events).fsm, key, dt);
             CurrentFault(f) == NO_FAULT && (f.mode == Rl ==> !h.waiting)
    ensures Resting(cfg, Run(cfg, longer), h) && Unasked(Run(cfg, longer))
    ensures Run(cfg, longer).fsm == Stepped(cfg, Run(cfg, events).fsm, key, dt)
  {
    hide Run, Apply, Stepped;
    var m := Run(cfg, events);
    PressKeepsResting(cfg, m, h, key);
    QuietTick(cfg, Apply(cfg, m, Press(key)), h, dt);
    RunTwice(cfg, events, Press(key), OnTick(Long(dt)));
    longer := events + [Press(key)] + [OnTick(Long(dt))];
  }

  lemma ReachZero(cfg: Config, before: seq<Event>, h: Handoff, dt: real) returns (events: seq<Event>)
    requires LongEnough(cfg.fsm, dt)
    requires Resting(cfg, Run(cfg, before), h) && Run(cfg, before).fsm.mode == PowerOff
    ensures var m := Run(cfg, events); Resting(cfg, m, h) && m.fsm.mode == Zero && m.fsm.zero.finished
  {
    hide Run, Stepped, Resting, LongEnough;
    ToHome(cfg, Run(cfg, before).fsm, dt);
    events := Go(cfg, before, h, 1, dt);
    ToHome(cfg, Run(cfg, events).fsm, dt);
    events := Go(cfg, events, h, 4, dt);
    ToHome(cfg, Run(cfg, events).fsm, dt);
    events := Go(cfg, events, h, 0, dt);
    ToZero(cfg, Run(cfg, events).fsm, dt);
    events := Go(cfg, events, h, 2, dt);
    ToZero(cfg, Run(cfg, events).fsm, dt);
    events := Go(cfg, events, h, 0, dt);
  }

  lemma ReachRl(cfg: Config, before: seq<Event>, h: Handoff, dt: real) returns (events: seq<Event>)
    requires WithRl(cfg) && LongEnough(cfg.fsm, dt) && !h.waiting
    requires Resting(cfg, Run(cfg, before), h) && Run(cfg, before).fsm.mode == PowerOff
    ensures var m := Run(cfg, events);
            && Resting(cfg, m, h) && Unasked(m) && m.fsm.mode == Rl
            && CurrentFault(m.fsm) == NO_FAULT && !m.fsm.rl.switchRequested
  {
    hide Run, Stepped, Resting;
    events := ReachZero(cfg, before, h, dt);
    ToRl(cfg, Run(cfg, events).fsm, dt);
    events := Go(cfg, events, h, 3, dt);
  }

  // ---------------------------------------------------------------- a policy is prepared in POWER_OFF

  /** In POWER_OFF a policy is wanted, and its preparation has come this far. */
  predicate Underway(cfg: Config, m: Manager, h: Handoff, prep: Preparation) {
    && Undisturbed(cfg, m) && m.fsm.mode == PowerOff && m.command.key == 0
    && m.hand == h && h.pending != "" && m.prep == prep.(runtimeReady := m.prep.runtimeReady, retiring := m.prep.retiring)
  }

  const IDLE := Preparation(None, false, None, false, false, true)

  function Collect(dt: real): Tick { Long(dt).(job := Done, retirementDone := true) }

  /** What a tick in POWER_OFF does to the preparation and the handoff. */
  lemma OffTick(cfg: Config, m: Manager, tick: Tick, dt: real)
    requires Undisturbed(cfg, m) && m.fsm.mode == PowerOff && m.command.key == 0 && tick in {Long(dt), Collect(dt)}
    requires var p := PollPolicyPreparation(cfg, m, tick); Undisturbed(cfg, p) && p.command.key == 0
    ensures var n := Apply(cfg, m, OnTick(tick)); var p := PreparePending(cfg, PollPolicyPreparation(cfg, m, tick), tick);
            Undisturbed(cfg, p) ==>
              Undisturbed(cfg, n) && n.fsm.mode == PowerOff && n.command.key == 0 && n.hand == p.hand && n.prep == p.prep
  {
    hide StepAfter;
    TickBefore(cfg, m, tick);
    var polled := PollPolicyPreparation(cfg, m, tick);
    assert ConfineFault(cfg, polled, tick) == polled;
    var prepared := PreparePending(cfg, polled, tick);
    assert prepared.fsm == polled.fsm && prepared.command == polled.command;
    if Undisturbed(cfg, prepared) {
      OffAfter(cfg, GateHome(cfg, prepared), tick, dt);
    }
    hide PollPolicyPreparation, PreparePending;
  }

  lemma OffAfter(cfg: Config, m: Manager, tick: Tick, dt: real)
    requires Undisturbed(cfg, m) && m.fsm.mode == PowerOff && m.command.key == 0 && tick in {Long(dt), Collect(dt)}
    ensures var n := StepAfter(cfg, m, [], tick);
            Undisturbed(cfg, n) && n.fsm.mode == PowerOff && n.command.key == 0 && n.hand == m.hand && n.prep == m.prep
  {
    assert PrepareAtStartup(cfg, m, tick) == m;
    var ran := RunStates(cfg, m, 0, tick);
    assert ran.fsm.mode == PowerOff && StateFault(ran.fsm) == [];
    assert LeaveRl(ran) == ran;
    var counted := CountResidence(ran, tick.dt);
    assert AdvanceChain(cfg, counted, tick) == counted;
    assert ReturnFinished(cfg, counted, tick) == counted;
  }

  lemma LaunchTick(cfg: Config, m: Manager, h: Handoff, dt: real)
    requires cfg.fsm.hasRl && Underway(cfg, m, h, IDLE) && !RequestedPolicyReady(m)
    ensures Underway(cfg, Apply(cfg, m, OnTick(Collect(dt))), h, IDLE.(job := Some(h.pending), running := true))
  {
    assert PollPolicyPreparation(cfg, m, Collect(dt)) == m.(prep := m.prep.(retiring := false));
    assert DecideLaunch(cfg, m, Collect(dt)) == Launch;
    OffTick(cfg, m, Collect(dt), dt);
    hide Apply;
  }

  lemma CollectTick(cfg: Config, m: Manager, h: Handoff, dt: real)
    requires Underway(cfg, m, h, IDLE.(job := Some(h.pending), running := true))
    ensures Underway(cfg, Apply(cfg, m, OnTick(Collect(dt))), h, IDLE.(prepared := Some(h.pending)))
  {
    assert DecidePoll(m, Collect(dt)) == Keep(h.pending);
    var polled := PollPolicyPreparation(cfg, m, Collect(dt));
    assert DecideLaunch(cfg, polled, Collect(dt)) == NoLaunch;
    OffTick(cfg, m, Collect(dt), dt);
    hide Apply;
  }

  lemma InstallTick(cfg: Config, m: Manager, h: Handoff, dt: real)
    requires Underway(cfg, m, h, IDLE.(prepared := Some(h.pending)))
    ensures var n := Apply(cfg, m, OnTick(Collect(dt)));
            Resting(cfg, n, h.(active := h.pending, returnAttempted := false, timer := 0.0)) && n.fsm.mode == PowerOff
  {
    assert DecidePoll(m, Collect(dt)) == Install(h.pending);
    var polled := PollPolicyPreparation(cfg, m, Collect(dt));
    assert DecideLaunch(cfg, polled, Collect(dt)) == NoLaunch;
    OffTick(cfg, m, Collect(dt), dt);
    hide Apply;
  }

  /** Three ticks later the wanted policy is installed. */
  lemma InstalledInPowerOff(cfg: Config, before: seq<Event>, h: Handoff, dt: real) returns (events: seq<Event>)
    requires cfg.fsm.hasRl && Underway(cfg, Run(cfg, before), h, IDLE) && !RequestedPolicyReady(Run(cfg, before))
    ensures var n := Run(cfg, events);
            Resting(cfg, n, h.(active := h.pending, returnAttempted := false, timer := 0.0)) && n.fsm.mode == PowerOff
  {
    hide Apply, Run, Underway, Resting;
    var e := OnTick(Collect(dt));
    var m := Run(cfg, before);
    LaunchTick(cfg, m, h, dt);
    CollectTick(cfg, Apply(cfg, m, e), h, dt);
    InstallTick(cfg, Apply(cfg, Apply(cfg, m, e), e), h, dt);
    RunTwice(cfg, before, e, e);
    var two := before + [e] + [e];
    events := two + [e];
    RunOnce(cfg, two, e);
  }

  lemma RunOnce(cfg: Config, events: seq<Event>, e: Event)
    ensures Run(cfg, events + [e]) == Apply(cfg, Run(cfg, events), e)
  {
    hide Apply, Initial;
    assert (events + [e])[..|events|] == events;
  }
}
