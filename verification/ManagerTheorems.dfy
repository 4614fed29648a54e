/** What the invariant means for whole runs of the supervisory controller. */
module ManagerTheorems {
  import opened RobotBase
  import opened Fsm
  import opened Manager
  import opened ManagerInvariant
  import Safety_ = SafetyRelease
  import Zero_ = ZeroPose

  // ---------------------------------------------------------------- live handoff

  /** A run in which no refused chain leaves an older switch behind hands over in RL only to
      a running policy that has agreed, and never with a latched fault. */
  lemma LiveHandoff(cfg: Config, events: seq<Event>)
    requires ValidConfig(cfg)
    ensures Orphaned(Run(cfg, events).log) || SafeHandoffs(Run(cfg, events).log)
  {
    RunHolds(cfg, events);
  }

  /** With prerequisites in the switch group of their targets this covers every run. */
  lemma GroupedLiveHandoff(cfg: Config, events: seq<Event>)
    requires ValidConfig(cfg) && PrerequisitesShareGroup(cfg)
    ensures SafeHandoffs(Run(cfg, events).log)
  {
    RunHolds(cfg, events);
  }

  /** Exactly which policy requests leave RL with a pending policy that nobody waits for. */
  lemma RequestExact(cfg: Config, m: Manager, policy: Name, sequence: nat, now: real)
    requires m.fsm.mode == Rl && (m.hand.pending == m.hand.active || m.hand.hot)
    ensures var n := SwitchPolicy(cfg, m, policy, sequence, now);
            (n.hand.pending == n.hand.active || n.hand.hot) <==>
            !(m.hand.pending != m.hand.active && DecideSwitch(cfg, m, policy).Outside?)
  {
    match DecideSwitch(cfg, m, policy)
    case Inadmissible =>
    case AlreadyActive =>
    case Outside =>
    case Chain(_) =>
    case Direct =>
  }

  /** The log only grows, and ticks never refuse a request; `chains` says whether a chain may
      move on. */
  ghost predicate Extends(old_: seq<Note>, new_: seq<Note>, chains: bool) {
    && old_ <= new_
    && forall i | |old_| <= i < |new_| :: !new_[i].OutsideGroup? && (chains || !new_[i].Advanced?)
  }

  lemma ExtendsTwice(a: seq<Note>, b: seq<Note>, c: seq<Note>, chains: bool)
    requires Extends(a, b, chains) && Extends(b, c, chains)
    ensures Extends(a, c, chains)
  {
    forall i | |a| <= i < |c|
      ensures !c[i].OutsideGroup? && (chains || !c[i].Advanced?)
    {
      if i < |b| {
        assert b[i] == c[i];
      }
    }
  }

  lemma ExtendsKeeps(a: seq<Note>, b: seq<Note>)
    requires Extends(a, b, true)
    ensures Orphaned(a) == Orphaned(b)
    ensures SafeHandoffs(b) ==> SafeHandoffs(a)
  {
    forall i | 0 <= i < |b| && b[i].OutsideGroup? && b[i].pending != b[i].active
      ensures Orphaned(a)
    {
      assert a[i] == b[i];
    }
    forall i | 0 <= i < |a|
      ensures a[i] == b[i]
    {}
  }

  lemma BeforeExtends(cfg: Config, m: Manager, tick: Tick)
    ensures Extends(m.log, StepBefore(cfg, m, tick).log, false)
  {
    var raised := m.(fsm := RaiseIn(m.fsm, tick.rlBefore));
    var (desk, seen) := ObserveBefore(cfg, raised, tick);
    var resolved := ResolveIn(raised, desk, seen);
    assert Extends(m.log, resolved.log, false);
    var asked := RequestHandoff(CancelRunningSwitch(cfg, resolved, tick.now));
    assert asked.log == resolved.log;
    PollExtends(cfg, asked, tick);
    ExtendsTwice(m.log, resolved.log, PollPolicyPreparation(cfg, asked, tick).log, false);
  }

  lemma PollExtends(cfg: Config, m: Manager, tick: Tick)
    ensures Extends(m.log, PollPolicyPreparation(cfg, m, tick).log, false)
  {}

  lemma PrepareExtends(cfg: Config, m: Manager, tick: Tick)
    ensures Extends(m.log, StepPrepare(cfg, m, tick).log, false)
  {
    var confined := ConfineFault(cfg, m, tick);
    assert confined.log == m.log;
    assert Extends(m.log, PreparePending(cfg, confined, tick).log, false);
  }

  lemma AfterExtends(cfg: Config, m: Manager, before: seq<FaultStatus>, tick: Tick)
    ensures Extends(m.log, StepAfter(cfg, m, before, tick).log, true)
  {
    var ran := RunStates(cfg, PrepareAtStartup(cfg, m, tick), m.command.key, tick);
    assert ran.log == m.log;
    var latched := LatchStateFault(cfg, ran, before, tick);
    assert Extends(m.log, latched.log, true);
    BookExtends(cfg, latched, tick);
    ExtendsTwice(m.log, latched.log, Book(cfg, latched, tick).log, true);
  }

  lemma BookExtends(cfg: Config, m: Manager, tick: Tick)
    ensures Extends(m.log, Book(cfg, m, tick).log, true)
  {
    var counted := CountResidence(LeaveRl(m), tick.dt);
    assert counted.log == m.log;
    assert Extends(m.log, AdvanceChain(cfg, counted, tick).log, true);
  }

  lemma StepExtends(cfg: Config, m: Manager, tick: Tick)
    ensures Extends(m.log, Step(cfg, m, tick).log, true)
    ensures Extends(StepBefore(cfg, m, tick).log, Step(cfg, m, tick).log, true)
  {
    var seen := ObserveBefore(cfg, m.(fsm := RaiseIn(m.fsm, tick.rlBefore)), tick).1;
    var polled := StepBefore(cfg, m, tick);
    var staged := StepPrepare(cfg, polled, tick);
    BeforeExtends(cfg, m, tick);
    PrepareExtends(cfg, polled, tick);
    AfterExtends(cfg, staged, seen, tick);
    ExtendsTwice(polled.log, staged.log, Step(cfg, m, tick).log, true);
    ExtendsTwice(m.log, polled.log, Step(cfg, m, tick).log, true);
  }

  /** RL runs undisturbed with a different policy pending. */
  ghost predicate Undecided(m: Manager) {
    && m.fsm.mode == Rl && !m.desk.fault.latched && m.sensorFault == NO_FAULT && m.command.key == 0
    && m.hand.pending != m.hand.active
  }

  /** No switch is under way for it. */
  ghost predicate Adrift(m: Manager) { Undecided(m) && !m.hand.hot }

  /** A quiet control tick: sensors fine, background work done, no time passed since the request.
      The running policy agrees to a handoff only if one was asked for. */
  function Quiet(m: Manager): Tick {
    CALM.(dt := 1.0, rlDt := 1.0, job := Done, retirementDone := true, switchReady := m.hand.hot, now := m.hand.started)
  }

  /** How far the background preparation of the pending policy has come. */
  function Distance(m: Manager): nat {
    if m.prep.prepared == Some(m.hand.pending) then 0 else if m.prep.job == Some(m.hand.pending) then 1 else 2
  }

  lemma QuietBefore(cfg: Config, m: Manager)
    requires ValidConfig(cfg) && Undecided(m) && m.fsm.rl.fault.None?
    ensures StepBefore(cfg, m, Quiet(m)) == PollPolicyPreparation(cfg, RequestHandoff(m), Quiet(m))
    ensures ObserveBefore(cfg, m.(fsm := RaiseIn(m.fsm, Quiet(m).rlBefore)), Quiet(m)).1 == []
  {
    var raised := m.(fsm := RaiseIn(m.fsm, Quiet(m).rlBefore));
    assert raised == m;
    var (desk, seen) := ObserveBefore(cfg, raised, Quiet(m));
    assert seen == [] && desk == m.desk;
    assert ResolveIn(raised, desk, seen) == m;
    assert CancelRunningSwitch(cfg, m, Quiet(m).now) == m;
  }

  /** A quiet tick installs the policy once it is prepared, agreed or not. */
  lemma QuietInstalls(cfg: Config, m: Manager)
    requires ValidConfig(cfg) && Undecided(m) && m.fsm.rl.fault.None? && Distance(m) == 0
    ensures var n := Step(cfg, m, Quiet(m));
            && n.hand.active == m.hand.pending
            && |m.log| < |n.log| && n.log[|m.log|] == Installed(m.hand.pending, m.hand.pending, Rl, m.hand.hot, false)
  {
    var asked, tick := RequestHandoff(m), Quiet(m);
    QuietBefore(cfg, m);
    assert DecidePoll(asked, tick) == Install(m.hand.pending);
    var polled := PollPolicyPreparation(cfg, asked, tick);
    var note := Installed(m.hand.pending, m.hand.pending, Rl, m.hand.hot, false);
    assert polled.log == m.log + [note] + [Retired(false)] && polled.hand.active == m.hand.pending;
    assert polled.log[|m.log|] == note;
    LaterKeepsActive(cfg, polled, [], tick);
    StepExtends(cfg, m, tick);
    hide StepBefore, StepPrepare, StepAfter, PollPolicyPreparation, RequestHandoff;
    assert Step(cfg, m, tick).log[|m.log|] == polled.log[|m.log|];
  }

  /** After the poll no stage of a step touches the active policy. */
  lemma LaterKeepsActive(cfg: Config, m: Manager, before: seq<FaultStatus>, tick: Tick)
    ensures StepAfter(cfg, StepPrepare(cfg, m, tick), before, tick).hand.active == m.hand.active
  {
    hide StepAfter;
    assert ConfineFault(cfg, m, tick).hand == m.hand;
    assert StepPrepare(cfg, m, tick).hand.active == m.hand.active;
    AfterKeepsActive(cfg, StepPrepare(cfg, m, tick), before, tick);
  }

  lemma AfterKeepsActive(cfg: Config, m: Manager, before: seq<FaultStatus>, tick: Tick)
    ensures StepAfter(cfg, m, before, tick).hand.active == m.hand.active
  {
    hide Book;
    var ran := RunStates(cfg, PrepareAtStartup(cfg, m, tick), m.command.key, tick);
    assert ran.hand == m.hand;
    var latched := LatchStateFault(cfg, ran, before, tick);
    assert latched.hand == m.hand;
    BookKeepsActive(cfg, latched, tick);
  }

  lemma StagesKeepActive(cfg: Config, m: Manager, tick: Tick)
    ensures LeaveRl(m).hand.active == m.hand.active
    ensures AdvanceChain(cfg, m, tick).hand.active == m.hand.active
    ensures ReturnFinished(cfg, m, tick).hand.active == m.hand.active
    ensures CancelChain(m).hand.active == m.hand.active
  {
    hide DecideReturn, ChainRuns, FinishPolicyAction;
  }

  lemma BookKeepsActive(cfg: Config, m: Manager, tick: Tick)
    ensures Book(cfg, m, tick).hand.active == m.hand.active
  {
    hide LeaveRl, AdvanceChain, ReturnFinished, CancelChain;
    var counted := CountResidence(LeaveRl(m), tick.dt);
    var advanced := AdvanceChain(cfg, counted, tick);
    StagesKeepActive(cfg, m, tick);
    StagesKeepActive(cfg, counted, tick);
    StagesKeepActive(cfg, advanced, tick);
    StagesKeepActive(cfg, ReturnFinished(cfg, advanced, tick), tick);
  }

  lemma QuietPoll(cfg: Config, m: Manager, tick: Tick)
    requires ValidConfig(cfg) && Flat(cfg, m, true) && Undecided(m) && Distance(m) > 0
    requires tick.job == Done && tick.retirementDone
    ensures var n := PollPolicyPreparation(cfg, m, tick);
            && n.fsm == m.fsm && n.command == m.command && n.hand == m.hand && n.desk == m.desk
            && n.sensorFault == m.sensorFault && n.startupPending == m.startupPending
            && n.previousMode == m.previousMode && n.prep.runtimeReady && !n.prep.failed
            && (Distance(m) == 1 ==> n.prep.prepared == Some(m.hand.pending) && !n.prep.running)
            && (Distance(m) == 2 ==> n.prep.prepared.None? && !n.prep.running)
  {}

  lemma QuietPrepare(cfg: Config, m: Manager, tick: Tick)
    requires ValidConfig(cfg) && cfg.fsm.hasRl && Undecided(m) && m.prep.runtimeReady && !m.prep.failed
    requires m.hand.pending != "" && !m.prep.running && !tick.launchFails
    ensures var n := StepPrepare(cfg, m, tick);
            && n.fsm == m.fsm && n.command == m.command && n.hand == m.hand && n.desk == m.desk
            && n.sensorFault == m.sensorFault && n.startupPending == m.startupPending && n.previousMode == m.previousMode
            && (m.prep.prepared.Some? ==> n.prep.prepared == m.prep.prepared)
            && (m.prep.prepared.None? ==> n.prep.job == Some(m.hand.pending) && n.prep.prepared.None?)
  {
    var confined := ConfineFault(cfg, m, tick);
    assert confined == m;
    assert DecideLaunch(cfg, m, tick) == if m.prep.prepared.None? then Launch else NoLaunch;
  }

  lemma QuietAfter(cfg: Config, m: Manager)
    requires Undecided(m) && !m.startupPending && m.fsm.rl.fault.None? && m.previousMode == Rl
    ensures var n := StepAfter(cfg, m, [], Quiet(m));
            Undecided(n) && n.hand == m.hand && n.prep == m.prep
  {
    var tick := Quiet(m);
    var started := PrepareAtStartup(cfg, m, tick);
    assert started == m;
    var ran := RunStates(cfg, m, 0, tick);
    assert ran == m;
    assert LatchStateFault(cfg, ran, [], tick) == ran;
    var counted := CountResidence(LeaveRl(ran), 1.0);
    assert AdvanceChain(cfg, counted, tick) == counted;
    assert DecideReturn(cfg, counted, tick) == Stay;
  }

  /** Until then each quiet tick brings the pending policy closer and changes nothing else. */
  lemma QuietProgress(cfg: Config, m: Manager)
    requires ValidConfig(cfg) && cfg.fsm.hasRl && Flat(cfg, m, true) && Undecided(m) && Distance(m) > 0
    requires m.fsm.rl.fault.None? && m.previousMode == Rl
    ensures var n := Step(cfg, m, Quiet(m));
            Undecided(n) && n.hand == m.hand && Distance(n) < Distance(m)
  {
    QuietBefore(cfg, m);
    var asked := RequestHandoff(m);
    QuietPoll(cfg, asked, Quiet(m));
    var polled := PollPolicyPreparation(cfg, asked, Quiet(m));
    QuietPrepare(cfg, polled, Quiet(m));
    QuietAfter(cfg, StepPrepare(cfg, polled, Quiet(m)));
  }

  function RunFrom(cfg: Config, m: Manager, events: seq<Event>): Manager
    decreases |events|
  {
    if events == [] then m else RunFrom(cfg, Apply(cfg, m, events[0]), events[1..])
  }

  lemma RunFromOne(cfg: Config, m: Manager, e: Event, rest: seq<Event>)
    ensures RunFrom(cfg, m, [e] + rest) == RunFrom(cfg, Apply(cfg, m, e), rest)
  {
    hide Apply;
    assert ([e] + rest)[1..] == rest;
  }

  lemma RunFromNone(cfg: Config, m: Manager)
    ensures RunFrom(cfg, m, []) == m
  {}

  lemma {:induction false} RunJoins(cfg: Config, events: seq<Event>, more: seq<Event>)
    ensures Run(cfg, events + more) == RunFrom(cfg, Run(cfg, events), more)
    decreases |more|
  {
    hide Apply;
    if more == [] {
      assert events + more == events;
    } else {
      var longer := events + [more[0]];
      assert longer[..|longer| - 1] == events;
      assert events + more == longer + more[1..];
      RunJoins(cfg, longer, more[1..]);
    }
  }

  /** What the invariant says about such a state. */
  lemma UndecidedIsReady(cfg: Config, m: Manager)
    requires Inv(cfg, m) && Undecided(m)
    ensures cfg.fsm.hasRl && Flat(cfg, m, true) && m.fsm.rl.fault.None? && m.previousMode == Rl
  {}

  /** Quiet ticks alone lead to the installation of the pending policy. */
  lemma {:induction false} QuietArrives(cfg: Config, m: Manager) returns (more: seq<Event>, e: Event)
    requires ValidConfig(cfg) && Inv(cfg, m) && Undecided(m)
    ensures var n := RunFrom(cfg, m, more); var o := Apply(cfg, n, e);
            && n.fsm.mode == Rl && n.hand == m.hand && o.hand.active == m.hand.pending
            && |n.log| < |o.log| && o.log[|n.log|] == Installed(m.hand.pending, m.hand.pending, Rl, m.hand.hot, false)
    decreases Distance(m)
  {
    UndecidedIsReady(cfg, m);
    ApplyTick(cfg, m, Quiet(m));
    hide Apply, Step, Inv, Flat;
    if Distance(m) == 0 {
      QuietInstalls(cfg, m);
      more, e := [], OnTick(Quiet(m));
      RunFromNone(cfg, m);
    } else {
      QuietProgress(cfg, m);
      StepKeeps(cfg, m, Quiet(m));
      var rest;
      rest, e := QuietArrives(cfg, Step(cfg, m, Quiet(m)));
      more := [OnTick(Quiet(m))] + rest;
      RunFromOne(cfg, m, OnTick(Quiet(m)), rest);
    }
  }

  lemma ApplyTick(cfg: Config, m: Manager, tick: Tick)
    ensures Apply(cfg, m, OnTick(tick)) == Step(cfg, m, tick)
  {}

  /** With no switch under way this is an unagreed handoff. */
  lemma DriftIsUnsafe(cfg: Config, events: seq<Event>) returns (all: seq<Event>)
    requires ValidConfig(cfg) && Adrift(Run(cfg, events))
    ensures !SafeHandoffs(Run(cfg, all).log)
  {
    hide Apply, Inv;
    RunHolds(cfg, events);
    var more, e := QuietArrives(cfg, Run(cfg, events));
    RunJoins(cfg, events, more);
    RunJoins(cfg, events + more, [e]);
    RunFromOne(cfg, Run(cfg, events + more), e, []);
    assert [e] + [] == [e];
    RunFromNone(cfg, Apply(cfg, Run(cfg, events + more), e));
    all := events + more + [e];
  }

  lemma OrphaningCommand(cfg: Config, m: Manager, c: Command, now: real)
    requires ValidConfig(cfg) && Inv(cfg, m) && !Orphaned(m.log) && Orphaned(SetCommand(cfg, m, c, now).log)
    ensures Adrift(SetCommand(cfg, m, c, now).(sensorFault := NO_FAULT))
  {
    hide Told, Inv, LogSound, NoteSound, LastInstalled;
    ToldKeeps(cfg, m, c, now);
    var told := Told(cfg, m, c, now);
    LogOf(cfg, told);
    if AsksForPolicy(m, c) && DecideSwitch(cfg, told, c.switchPolicy).Outside? {
      OutsideIsAdrift(cfg, told, c.switchPolicy, c.requestSequence, now);
    }
  }

  lemma LogOf(cfg: Config, m: Manager)
    requires Inv(cfg, m)
    ensures LogSound(cfg, m.log, m.desk.sequence)
  {}

  lemma OutsideIsAdrift(cfg: Config, m: Manager, policy: Name, sequence: nat, now: real)
    requires LogSound(cfg, m.log, m.desk.sequence) && !Orphaned(m.log) && DecideSwitch(cfg, m, policy).Outside?
    requires Orphaned(SwitchPolicy(cfg, m, policy, sequence, now).log) && !PrerequisitesShareGroup(cfg)
    ensures Adrift(SwitchPolicy(cfg, m, policy, sequence, now).(sensorFault := NO_FAULT))
  {
    AppendNote(cfg, m.log, OutsideGroup(m.hand.pending, m.hand.active), m.desk.sequence);
  }

  /** The call that orphans a switch leaves RL adrift, once the driver reports no fault. */
  lemma OrphaningCall(cfg: Config, m: Manager, e: Event)
    requires ValidConfig(cfg) && Inv(cfg, m) && !Orphaned(m.log) && Orphaned(Apply(cfg, m, e).log)
    ensures Adrift(Apply(cfg, Apply(cfg, m, e), OnSensorFault(NO_FAULT)))
  {
    hide Inv, Step, SetCommand, Orphaned;
    match e
    case OnTick(tick) =>
      StepExtends(cfg, m, tick);
      ExtendsKeeps(m.log, Step(cfg, m, tick).log);
    case OnCommand(c, now) => OrphaningCommand(cfg, m, c, now);
    case OnAcknowledge(_) =>
    case OnSensorFault(_) =>
    case OnSensorData =>
  }

  lemma {:induction false} OrphanIsUnsafe(cfg: Config, events: seq<Event>) returns (all: seq<Event>)
    requires ValidConfig(cfg) && Orphaned(Run(cfg, events).log)
    ensures !SafeHandoffs(Run(cfg, all).log)
    decreases |events|
  {
    var shorter, e := events[..|events| - 1], events[|events| - 1];
    if Orphaned(Run(cfg, shorter).log) {
      all := OrphanIsUnsafe(cfg, shorter);
    } else {
      RunHolds(cfg, shorter);
      OrphaningCall(cfg, Run(cfg, shorter), e);
      var calmed := events + [OnSensorFault(NO_FAULT)];
      assert calmed[..|calmed| - 1] == events;
      all := DriftIsUnsafe(cfg, calmed);
    }
  }

  /** The exact condition: a configuration hands over safely in all its runs exactly if none of
      its runs refuses a chain outside the group while another switch is pending. */
  lemma SafeExactlyIfNeverOrphaned(cfg: Config)
    requires ValidConfig(cfg)
    ensures (forall events :: SafeHandoffs(Run(cfg, events).log)) <==> (forall events :: !Orphaned(Run(cfg, events).log))
  {
    forall events | !Orphaned(Run(cfg, events).log)
      ensures SafeHandoffs(Run(cfg, events).log)
    {
      LiveHandoff(cfg, events);
    }
    if exists events :: Orphaned(Run(cfg, events).log) {
      var events :| Orphaned(Run(cfg, events).log);
      var all := OrphanIsUnsafe(cfg, events);
    }
  }

  // ---------------------------------------------------------------- faults

  /** After every API call a latched fault means POWER_OFF or SAFETY. */
  lemma FaultConfined(cfg: Config, events: seq<Event>)
    requires ValidConfig(cfg)
    ensures var m := Run(cfg, events); m.desk.fault.latched ==> m.fsm.mode == PowerOff || m.fsm.mode == Safety
    ensures var m := Run(cfg, events); m.desk.fault.latched ==> m.desk.fault.sequence == m.desk.sequence
  {
    RunHolds(cfg, events);
  }

  /** Latched sequences strictly increase over a run. */
  lemma SequencesIncrease(cfg: Config, events: seq<Event>, i: nat, j: nat)
    requires ValidConfig(cfg)
    requires i < j < |Run(cfg, events).log|
    requires Run(cfg, events).log[i].Latched? && Run(cfg, events).log[j].Latched?
    ensures 0 < Run(cfg, events).log[i].sequence < Run(cfg, events).log[j].sequence <= Run(cfg, events).desk.sequence
  {
    RunHolds(cfg, events);
  }

  /** When the observations of a cycle latch a new fault, and when they leave the latch alone. */
  lemma LatchesExactly(desk: FaultDesk, seen: seq<FaultStatus>)
    ensures var after := Resolve(desk, seen);
            var active := exists i :: 0 <= i < |seen| && seen[i].active;
            var root := exists i :: 0 <= i < |seen| && seen[i].active && MatchesCurrent(desk, seen[i]);
            var latched := exists i :: 0 <= i < |seen| && seen[i].latched;
            && (after.sequence == desk.sequence + 1 <==>
                  (active && !(desk.fault.latched && desk.fault.active && root)) ||
                  (!active && !desk.fault.latched && latched))
            && (after.sequence != desk.sequence + 1 ==> after.sequence == desk.sequence)
            && (desk.fault.latched ==> after.fault.latched)
            && (active ==> after.fault.latched && after.fault.active)
            && (!active ==> (desk.fault.latched ==> after.fault == desk.fault.(active := false)))
  {
    var root := Find(seen, (f: FaultStatus) => f.active && MatchesCurrent(desk, f));
    var firstActive := Find(seen, (f: FaultStatus) => f.active);
    var firstLatched := Find(seen, (f: FaultStatus) => f.latched);
    assert root.Some? ==> root.value.active;
  }

  lemma StepKeepsLatch(cfg: Config, m: Manager, tick: Tick)
    requires m.desk.fault.latched
    ensures Step(cfg, m, tick).desk.fault.latched
  {
    var raised := m.(fsm := RaiseIn(m.fsm, tick.rlBefore));
    var (desk, seen) := ObserveBefore(cfg, raised, tick);
    LatchesExactly(desk, seen);
    var polled := StepBefore(cfg, m, tick);
    assert polled.desk == Resolve(desk, seen);
    var staged := StepPrepare(cfg, polled, tick);
    assert staged.desk == polled.desk;
    var ran := RunStates(cfg, PrepareAtStartup(cfg, staged, tick), staged.command.key, tick);
    assert ran.desk == staged.desk;
    LatchesExactly(ran.desk, seen + StateFault(ran.fsm));
    BookKeepsDesk(cfg, LatchStateFault(cfg, ran, seen, tick), tick);
  }

  lemma BookKeepsDesk(cfg: Config, m: Manager, tick: Tick)
    ensures Book(cfg, m, tick).desk == m.desk
  {
    var counted := CountResidence(LeaveRl(m), tick.dt);
    assert counted.desk == m.desk;
    assert AdvanceChain(cfg, counted, tick).desk == m.desk;
  }

  lemma CommandKeepsDesk(cfg: Config, m: Manager, c: Command, now: real)
    ensures SetCommand(cfg, m, c, now).desk == m.desk
  {
    assert Told(cfg, m, c, now).desk == m.desk;
  }

  /** The latch is cleared by one call only, and this is exactly when that call clears it. */
  lemma ClearedExactly(cfg: Config, m: Manager, e: Event)
    requires m.desk.fault.latched
    ensures !Apply(cfg, m, e).desk.fault.latched <==>
            && e.OnAcknowledge? && m.fsm.mode == PowerOff
            && e.sequence != 0 && e.sequence == m.desk.fault.sequence && e.sequence != m.desk.previousAck
            && !m.desk.fault.active && !m.sensorFault.active
  {
    match e
    case OnTick(tick) => StepKeepsLatch(cfg, m, tick);
    case OnCommand(c, now) => CommandKeepsDesk(cfg, m, c, now);
    case OnAcknowledge(_) =>
    case OnSensorFault(_) =>
    case OnSensorData =>
  }

  /** After an acknowledgement the driver's still latched report stays silent exactly if it
      carries a sequence and is the fault that was, or already had been, acknowledged. */
  lemma AcknowledgedStaysSilent(m: Manager, sequence: nat)
    requires m.desk.fault.latched && !AcknowledgeFault(m, sequence).desk.fault.latched && m.sensorFault.latched
    ensures var s := m.sensorFault; var d := m.desk;
            ReportedSensorFault(AcknowledgeFault(m, sequence).desk, s).1 == [] <==>
            s.sequence != 0 &&
            ((s.source == d.fault.source && s.code == d.fault.code && s.native == d.fault.native && s.sequence == d.observed) ||
             d.acknowledged == SensorAck(s.sequence, s.source, s.code, s.native))
  {}

  // ---------------------------------------------------------------- SAFETY is left in time

  function Ticks(events: seq<Event>): nat {
    if events == [] then 0 else (if events[0].OnTick? then 1 else 0) + Ticks(events[1..])
  }

  ghost predicate TicksAtLeast(events: seq<Event>, period: real) {
    forall i | 0 <= i < |events| :: events[i].OnTick? ==> events[i].tick.dt >= period
  }

  /** The shortest time some ticks can take. */
  function TimeOf(ticks: int, period: real): real { ticks as real * period }

  lemma OneTickMore(ticks: int, period: real)
    ensures TimeOf(ticks + 1, period) == TimeOf(ticks, period) + period && TimeOf(0, period) == 0.0
  {}

  lemma BeforeInSafety(cfg: Config, m: Manager, tick: Tick)
    requires m.fsm.mode == Safety
    ensures var n := StepBefore(cfg, m, tick); n.fsm.mode == Safety && n.fsm.safety == m.fsm.safety
  {
    var raised := m.(fsm := RaiseIn(m.fsm, tick.rlBefore));
    var (desk, seen) := ObserveBefore(cfg, raised, tick);
    var asked := RequestHandoff(CancelRunningSwitch(cfg, ResolveIn(raised, desk, seen), tick.now));
    assert asked.fsm == m.fsm;
    PollInSafety(cfg, asked, tick);
    hide ObserveBefore, ResolveIn, CancelRunningSwitch, RequestHandoff, PollPolicyPreparation, RaiseIn;
  }

  lemma PollInSafety(cfg: Config, m: Manager, tick: Tick)
    ensures var n := PollPolicyPreparation(cfg, m, tick);
            n.fsm.mode == m.fsm.mode && n.fsm.safety == m.fsm.safety
  {
    hide DecidePoll, HandAfterPoll, PrepAfterPoll, CatalogAfterPoll, LogAfterPoll;
  }

  lemma PrepareInSafety(cfg: Config, m: Manager, tick: Tick)
    requires m.fsm.mode == Safety
    ensures var n := StepPrepare(cfg, m, tick); n.fsm.mode == Safety && n.fsm.safety == m.fsm.safety
  {
    assert ConfineFault(cfg, m, tick).fsm == m.fsm;
    hide DecideLaunch, CatalogAfterFailure;
  }

  lemma AfterInSafety(cfg: Config, m: Manager, before: seq<FaultStatus>, tick: Tick)
    requires m.fsm.mode == Safety
    ensures var n := StepAfter(cfg, m, before, tick);
            if m.fsm.safety.finished then n.fsm.mode == PowerOff
            else n.fsm.mode == Safety && n.fsm.safety == Safety_.RunSafety(cfg.fsm.release, m.fsm.safety, tick.dt)
  {
    hide Book, Resolve, Safety_.RunSafety;
    var started := PrepareAtStartup(cfg, m, tick);
    assert started.fsm == m.fsm;
    var ran := RunStates(cfg, started, m.command.key, tick);
    var latched := LatchStateFault(cfg, ran, before, tick);
    assert latched.fsm == ran.fsm;
    BookKeepsFsm(cfg, latched, tick);
  }

  lemma TickInSafety(cfg: Config, m: Manager, tick: Tick)
    requires m.fsm.mode == Safety
    ensures var n := Step(cfg, m, tick);
            if m.fsm.safety.finished then n.fsm.mode == PowerOff
            else n.fsm.mode == Safety && n.fsm.safety == Safety_.RunSafety(cfg.fsm.release, m.fsm.safety, tick.dt)
  {
    hide StepBefore, StepPrepare, StepAfter, Safety_.RunSafety;
    BeforeInSafety(cfg, m, tick);
    var polled := StepBefore(cfg, m, tick);
    PrepareInSafety(cfg, polled, tick);
    var seen := ObserveBefore(cfg, m.(fsm := RaiseIn(m.fsm, tick.rlBefore)), tick).1;
    AfterInSafety(cfg, StepPrepare(cfg, polled, tick), seen, tick);
  }

  lemma BookKeepsFsm(cfg: Config, m: Manager, tick: Tick)
    ensures Book(cfg, m, tick).fsm == m.fsm
  {
    var counted := CountResidence(LeaveRl(m), tick.dt);
    assert counted.fsm == m.fsm;
    assert AdvanceChain(cfg, counted, tick).fsm == m.fsm;
  }

  lemma CommandKeepsFsm(cfg: Config, m: Manager, c: Command, now: real)
    ensures SetCommand(cfg, m, c, now).fsm == m.fsm
  {
    assert Told(cfg, m, c, now).fsm == m.fsm;
  }

  /** What one API call can do to a release that is still going on. */
  lemma EventInSafety(cfg: Config, m: Manager, e: Event)
    requires m.fsm.mode == Safety
    ensures var n := Apply(cfg, m, e);
            if !e.OnTick? then n.fsm == m.fsm
            else if m.fsm.safety.finished then n.fsm.mode == PowerOff
            else n.fsm.mode == Safety && n.fsm.safety == Safety_.RunSafety(cfg.fsm.release, m.fsm.safety, e.tick.dt)
  {
    match e {
      case OnTick(tick) => TickInSafety(cfg, m, tick);
      case OnCommand(c, now) => CommandKeepsFsm(cfg, m, c, now);
      case OnAcknowledge(_) =>
      case OnSensorFault(_) =>
      case OnSensorData =>
    }
  }

  /** The release will be over before this many ticks are. */
  ghost predicate Bounded(cfg: Config, r: Safety_.Release, ticks: nat, period: real) {
    if r.finished then ticks >= 1 else ticks >= 2 && r.timer + TimeOf(ticks - 1, period) >= cfg.fsm.release
  }

  /** SAFETY is left for POWER_OFF within a bounded number of ticks whatever is commanded:
      once all ticks but one add up to the release time, POWER_OFF has been reached. */
  lemma {:induction false} SafetyEnds(cfg: Config, m: Manager, events: seq<Event>, period: real) returns (k: nat)
    requires m.fsm.mode == Safety && period > 0.0 && TicksAtLeast(events, period)
    requires Bounded(cfg, m.fsm.safety, Ticks(events), period)
    ensures k <= |events| && RunFrom(cfg, m, events[..k]).fsm.mode == PowerOff
    decreases |events|
  {
    hide Apply;
    var e, rest := events[0], events[1..];
    var n := Apply(cfg, m, e);
    EventInSafety(cfg, m, e);
    if n.fsm.mode == PowerOff {
      k := 1;
      RunFromNone(cfg, n);
      RunFromOne(cfg, m, e, []);
      assert events[..1] == [e] + [];
    } else {
      StillBounded(cfg, m.fsm.safety, n.fsm.safety, events, period);
      var j := SafetyEnds(cfg, n, rest, period);
      k := j + 1;
      RunFromOne(cfg, m, e, rest[..j]);
      assert events[..k] == [e] + rest[..j];
    }
  }

  lemma StillBounded(cfg: Config, r: Safety_.Release, s: Safety_.Release, events: seq<Event>, period: real)
    requires Bounded(cfg, r, Ticks(events), period) && period > 0.0 && TicksAtLeast(events, period)
    requires events[0].OnTick? ==> !r.finished && s == Safety_.RunSafety(cfg.fsm.release, r, events[0].tick.dt)
    requires !events[0].OnTick? ==> s == r
    ensures Bounded(cfg, s, Ticks(events[1..]), period) && TicksAtLeast(events[1..], period)
  {
    hide TimeOf;
    if events[0].OnTick? {
      var ticks := Ticks(events);
      OneTickMore(ticks - 2, period);
    }
  }

  // ---------------------------------------------------------------- prerequisite chain

  /** The chain moves on only after the prerequisite policy has run for its full duration in
      the present uninterrupted RL residence. */
  lemma ChainTakesItsTime(cfg: Config, events: seq<Event>, i: nat)
    requires ValidConfig(cfg) && i < |Run(cfg, events).log| && Run(cfg, events).log[i].Advanced?
    ensures var n := Run(cfg, events).log[i];
            && n.target in cfg.prerequisites && n.policy == cfg.prerequisites[n.target].policy
            && n.residence >= cfg.prerequisites[n.target].duration
  {
    RunHolds(cfg, events);
    assert NoteSound(cfg, Run(cfg, events).log[i]);
  }

  /** Leaving RL voids the runtime and its residence. */
  lemma LeavingForcesReinstall(cfg: Config, m: Manager, tick: Tick)
    requires ValidConfig(cfg) && Inv(cfg, m) && m.fsm.mode == Rl && Step(cfg, m, tick).fsm.mode != Rl
    ensures var n := Step(cfg, m, tick); !n.prep.runtimeReady && n.residence == 0.0
  {
    var seen := ObserveBefore(cfg, m.(fsm := RaiseIn(m.fsm, tick.rlBefore)), tick).1;
    var polled := StepBefore(cfg, m, tick);
    StepBeforeKeeps(cfg, m, tick);
    var staged := StepPrepare(cfg, polled, tick);
    assert staged.previousMode == Rl;
    var ran := RunStates(cfg, PrepareAtStartup(cfg, staged, tick), staged.command.key, tick);
    assert ran.previousMode == Rl;
    var latched := LatchStateFault(cfg, ran, seen, tick);
    BookKeepsFsm(cfg, latched, tick);
    BookOutsideRl(cfg, latched, tick);
  }

  lemma BookOutsideRl(cfg: Config, m: Manager, tick: Tick)
    requires m.previousMode == Rl && m.fsm.mode != Rl
    ensures !Book(cfg, m, tick).prep.runtimeReady && Book(cfg, m, tick).residence == 0.0
  {
    var counted := CountResidence(LeaveRl(m), tick.dt);
    assert !counted.prep.runtimeReady && counted.fsm.mode != Rl && counted.residence == 0.0;
    assert AdvanceChain(cfg, counted, tick) == counted;
    assert DecideReturn(cfg, counted, tick) == Stay;
  }

  // ---------------------------------------------------------------- background work

  /** Nothing is launched or retired while its predecessor is still running, a running
      preparation and a prepared policy never coexist, and the active policy is the one of the
      last installation, which was wanted at that moment. */
  lemma BackgroundNeverBlocks(cfg: Config, events: seq<Event>)
    requires ValidConfig(cfg)
    ensures var m := Run(cfg, events);
            && !(m.prep.job.Some? && m.prep.prepared.Some?)
            && m.hand.active == LastInstalled(cfg, m.log)
            && (forall i | 0 <= i < |m.log| :: m.log[i].Launched? ==> !m.log[i].blocked)
            && (forall i | 0 <= i < |m.log| :: m.log[i].Retired? ==> !m.log[i].blocked)
            && (forall i | 0 <= i < |m.log| :: m.log[i].Installed? ==> m.log[i].policy == m.log[i].pending)
  {
    RunHolds(cfg, events);
    var m := Run(cfg, events);
    assert forall i | 0 <= i < |m.log| :: NoteSound(cfg, m.log[i]);
  }

  // ---------------------------------------------------------------- gate to motion

  /** Every entry to RL or TRAJECTORY comes from ZERO after a settled block, the entry before it
      went from HOME to ZERO, and the journal is one path from POWER_OFF to the present mode. */
  lemma GateToMotion(cfg: Config, events: seq<Event>, i: nat)
    requires ValidConfig(cfg) && i < |Run(cfg, events).fsm.journal| && Motion(Run(cfg, events).fsm.journal[i].to)
    ensures var j := Run(cfg, events).fsm.journal;
            && j[i].from == Zero && Zero_.HasSettledBlock(cfg.fsm.zero, j[i].visit.runs)
            && i > 0 && j[i - 1].to == Zero && j[i - 1].from == Home
  {
    RunHolds(cfg, events);
    var f := Run(cfg, events).fsm;
    assert Lawful(cfg.fsm, f.journal[i]);
    assert i > 0;
    assert f.journal[i - 1].to == f.journal[i - 1 + 1].from;
    assert Lawful(cfg.fsm, f.journal[i - 1]);
  }

  /** On the way to RL the requested policy is installed and no preparation is outstanding. */
  lemma ReadyBeforeRl(cfg: Config, events: seq<Event>)
    requires ValidConfig(cfg) && cfg.fsm.hasRl && Run(cfg, events).fsm.mode in {Home, Zero}
    ensures RequestedPolicyReady(Run(cfg, events))
  {
    RunHolds(cfg, events);
  }
}
