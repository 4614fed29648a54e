/** How long a live switch may take: its clock starts with the call that begins it, and it is given
    up exactly when its time has run out. */
module SwitchClock {
  import opened RobotBase
  import opened Fsm
  import opened Manager
  import opened ManagerInvariant
  import opened ManagerTheorems
  import opened ManagerCatalog
  import opened StepFaults

  // ---------------------------------------------------------------- a switch under way

  /** A switch is under way in RL, with no key pressed and nothing latched. */
  predicate Underway(m: Manager) {
    m.fsm.mode == Rl && m.hand.hot && m.hand.pending != m.hand.active && m.command.key == 0 && !m.desk.fault.latched
  }

  /** Nothing goes wrong in this step: no fault is reported or run into, no background work fails,
      and the running policy has not ended. */
  predicate Smooth(cfg: Config, m: Manager, tick: Tick) {
    && RootReport(cfg, m, tick).None? && !LateTrouble(tick)
    && tick.job != Broken && !tick.launchFails && !tick.policyFinished
  }

  /** The robot stays with the policy that ran. */
  predicate GivenUp(m: Manager, n: Manager) { n.hand.active == m.hand.active && n.hand.pending == m.hand.active }

  predicate TimeIsUp(cfg: Config, m: Manager, tick: Tick) { tick.now - m.hand.started > cfg.switchTimeout }

  lemma BeforeSwitch(cfg: Config, m: Manager, tick: Tick)
    requires Inv(cfg, m) && Underway(m) && Smooth(cfg, m, tick)
    ensures var r := ResolveIn(Raised(m, tick), ObserveBefore(cfg, Raised(m, tick), tick).0,
        ObserveBefore(cfg, Raised(m, tick), tick).1);
            && r.hand == m.hand && r.fsm.mode == Rl && r.fsm.rl.fault.None? && !r.desk.fault.latched && r.command == m.command
            && r.prep == m.prep && r.catalog == m.catalog && r.requests == m.requests && r.previousMode == m.previousMode
            && r.startupPending == m.startupPending && r.residence == m.residence
  {
    Resolves(cfg, m, tick);
    RlIsClean(cfg, m);
    hide Inv, ObserveBefore, Resolve;
  }

  /** The states a switch can be in after the poll: kept, installed or given up. */
  predicate Polled(m: Manager, p: Manager) {
    && p.fsm.mode == Rl && p.fsm.rl.fault.None? && p.command.key in {0, 5} && !p.desk.fault.latched
    && (p.hand == m.hand ||
        (p.hand.active == p.hand.pending == m.hand.pending && (p.hand.waiting <==> m.hand.waiting) && p.hand.final == m.hand.final))
  }

  lemma PollSwitch(cfg: Config, m: Manager, tick: Tick)
    requires JobsSound(m.fsm.mode, m.hand, m.prep) && Underway(m) && m.fsm.rl.fault.None?
    requires tick.job != Broken && tick.rlEntry.None?
    ensures Polled(m, PollPolicyPreparation(cfg, RequestHandoff(m), tick))
    ensures JobsSound(Rl, PollPolicyPreparation(cfg, RequestHandoff(m), tick).hand,
        PollPolicyPreparation(cfg, RequestHandoff(m), tick).prep)
  {
    hide CatalogAfterPoll, LogAfterPoll, Concluded, ActionArrives;
    PollReasons(RequestHandoff(m), tick);
  }

  /** A switch that has been given up stays given up. */
  predicate Stays(m: Manager, active: Name) {
    && m.fsm.mode == Rl && m.fsm.rl.fault.None? && m.command.key == 0 && !m.desk.fault.latched
    && m.hand.active == m.hand.pending == active && !m.hand.hot && !m.hand.waiting && m.prep.runtimeReady
  }

  lemma PollGivenUp(cfg: Config, m: Manager, active: Name, tick: Tick)
    requires Stays(m, active) && JobsSound(m.fsm.mode, m.hand, m.prep)
    requires tick.job != Broken && tick.rlEntry.None?
    ensures Stays(PollPolicyPreparation(cfg, RequestHandoff(m), tick), active)
  {
    hide CatalogAfterPoll, LogAfterPoll, Concluded;
    PollReasons(RequestHandoff(m), tick);
  }

  lemma PrepareSwitch(cfg: Config, m: Manager, tick: Tick)
    requires m.fsm.mode == Rl && !m.desk.fault.latched && !tick.launchFails
    ensures var n := StepPrepare(cfg, m, tick);
            && n.hand == m.hand && n.fsm == m.fsm && n.desk == m.desk && n.command == m.command
            && n.prep.runtimeReady == m.prep.runtimeReady
  {
    hide Concluded, RequestedPolicyReady;
    assert ConfineFault(cfg, m, tick) == m;
  }

  /** What is still pending keeps its clock. */
  predicate ClockKept(h: Handoff, after: Handoff) {
    after.pending == h.pending && after.pending != after.active ==> after.started == h.started && after.hot == h.hot
  }

  /** The rest of the step: only a chain whose time has come moves on. */
  lemma AfterSwitch(cfg: Config, m: Manager, before: seq<FaultStatus>, tick: Tick)
    requires m.fsm.mode == Rl && m.fsm.rl.fault.None? && m.command.key in {0, 5} && !m.desk.fault.latched
    requires !LateTrouble(tick) && !tick.policyFinished
    ensures var n := StepAfter(cfg, m, before, tick);
            && n.hand.active == m.hand.active
            && ClockKept(m.hand, n.hand)
            && (n.hand.pending == m.hand.pending
                 || (m.hand.waiting && n.hand.pending == m.hand.final && m.hand.active == m.hand.pending))
            && (n.hand.hot == m.hand.hot || n.hand.pending != m.hand.pending || m.hand.waiting)
  {
    hide Resolve, CancelChain, ChainRuns, FinishPolicyAction;
    var started := PrepareAtStartup(cfg, m, tick);
    assert started.fsm == m.fsm && started.hand == m.hand && started.command.key == m.command.key;
    var ran := RunStates(cfg, started, m.command.key, tick);
    assert ran.fsm.mode == Rl && ran.fsm.rl.fault.None? && ran.hand == m.hand;
    assert LatchStateFault(cfg, ran, before, tick) == ran;
    BookSwitch(cfg, ran, tick);
  }

  lemma BookSwitch(cfg: Config, m: Manager, tick: Tick)
    requires m.fsm.mode == Rl && !tick.policyFinished
    ensures var n := Book(cfg, m, tick);
            && n.hand.active == m.hand.active
            && ClockKept(m.hand, n.hand)
            && (n.hand.pending == m.hand.pending
                 || (m.hand.waiting && n.hand.pending == m.hand.final && m.hand.active == m.hand.pending))
            && (n.hand.hot == m.hand.hot || n.hand.pending != m.hand.pending || m.hand.waiting)
  {
    hide FinishPolicyAction;
  }

  lemma RequestsStay(cfg: Config, m: Manager, tick: Tick)
    requires m.requests.status.phase != Preparing
    ensures StepAfter(cfg, StepPrepare(cfg, m, tick), [], tick).requests.status == m.requests.status
    ensures forall before ::
              StepAfter(cfg, StepPrepare(cfg, m, tick), before, tick).requests
              == StepAfter(cfg, StepPrepare(cfg, m, tick), [], tick).requests
  {
    PrepareRequests(cfg, m, tick);
    var n := StepPrepare(cfg, m, tick);
    forall before
      ensures StepAfter(cfg, n, before, tick).requests == n.requests
    {
      AfterRequests(cfg, n, before, tick);
    }
    hide StepPrepare, StepAfter;
  }

  lemma PrepareRequests(cfg: Config, m: Manager, tick: Tick)
    requires m.requests.status.phase != Preparing
    ensures StepPrepare(cfg, m, tick).requests.status == m.requests.status
  {
    hide DecideLaunch, CatalogAfterFailure, ForceSwitch, RequestedPolicyReady;
  }

  lemma AfterRequests(cfg: Config, m: Manager, before: seq<FaultStatus>, tick: Tick)
    ensures StepAfter(cfg, m, before, tick).requests == m.requests
  {
    hide Book, StepFsm, Resolve, ForceSwitch;
    var ran := RunStates(cfg, PrepareAtStartup(cfg, m, tick), m.command.key, tick);
    assert ran.requests == m.requests;
    BookRequests(cfg, LatchStateFault(cfg, ran, before, tick), tick);
  }

  lemma BookRequests(cfg: Config, m: Manager, tick: Tick)
    ensures Book(cfg, m, tick).requests == m.requests
  {
    hide FinishPolicyAction, DecideReturn, ChainRuns;
  }

  lemma PollRequests(cfg: Config, m: Manager, tick: Tick)
    requires !m.hand.hot && m.requests.status.phase != Preparing
    ensures PollPolicyPreparation(cfg, RequestHandoff(m), tick).requests.status == m.requests.status
  {
    hide DecidePoll, CatalogAfterPoll, HandAfterPoll, PrepAfterPoll, LogAfterPoll, ActionArrives;
  }

  /** The verdict of a request that is given up with its switch. */
  function VerdictGivenUp(s: SwitchStatus): SwitchStatus { if s.phase == Preparing then s.(phase := Refused) else s }

  lemma GivenUpStep(cfg: Config, m: Manager, tick: Tick)
    requires ValidConfig(cfg) && Inv(cfg, m) && Underway(m) && Smooth(cfg, m, tick) && TimeIsUp(cfg, m, tick)
    ensures var n := Step(cfg, m, tick);
            && GivenUp(m, n) && !n.hand.hot && !n.hand.waiting
            && n.requests.status == VerdictGivenUp(m.requests.status)
  {
    BeforeSwitch(cfg, m, tick);
    JobsOf(cfg, m);
    var (desk, seen) := ObserveBefore(cfg, Raised(m, tick), tick);
    var r := ResolveIn(Raised(m, tick), desk, seen);
    var c := CancelRunningSwitch(cfg, r, tick.now);
    assert c == r.(catalog := CatalogAfterFailure(r.catalog, r.hand.pending), hand := Retained(r.hand),
                   requests := Concluded(r.requests, Refused));
    assert Stays(c, m.hand.active) && JobsSound(c.fsm.mode, c.hand, c.prep);
    hide Inv, ObserveBefore, ResolveIn, CancelRunningSwitch, StepPrepare, StepAfter, PollPolicyPreparation, JobsSound;
    PollGivenUp(cfg, c, m.hand.active, tick);
    PollRequests(cfg, c, tick);
    var polled := PollPolicyPreparation(cfg, RequestHandoff(c), tick);
    PrepareSwitch(cfg, polled, tick);
    AfterSwitch(cfg, StepPrepare(cfg, polled, tick), seen, tick);
    RequestsStay(cfg, polled, tick);
    QuietAfterGivenUp(cfg, StepPrepare(cfg, polled, tick), seen, tick);
  }

  lemma QuietAfterGivenUp(cfg: Config, m: Manager, before: seq<FaultStatus>, tick: Tick)
    requires m.fsm.mode == Rl && m.fsm.rl.fault.None? && m.command.key == 0 && !LateTrouble(tick) && !tick.policyFinished
    requires !m.hand.hot && !m.hand.waiting
    ensures var n := StepAfter(cfg, m, before, tick); !n.hand.hot && !n.hand.waiting
  {
    hide Resolve, CancelChain, FinishPolicyAction;
    var started := PrepareAtStartup(cfg, m, tick);
    var ran := RunStates(cfg, started, m.command.key, tick);
    assert ran.fsm.mode == Rl && ran.fsm.rl.fault.None? && ran.hand == m.hand;
    assert LatchStateFault(cfg, ran, before, tick) == ran;
    NothingMoves(cfg, ran, tick);
  }

  lemma NothingMoves(cfg: Config, m: Manager, tick: Tick)
    requires m.fsm.mode == Rl && !tick.policyFinished && !m.hand.hot && !m.hand.waiting
    ensures !Book(cfg, m, tick).hand.hot && !Book(cfg, m, tick).hand.waiting
  {
    hide FinishPolicyAction;
  }

  lemma JobsOf(cfg: Config, m: Manager)
    requires Inv(cfg, m)
    ensures JobsSound(m.fsm.mode, m.hand, m.prep)
  {}

  /** Where a switch can be after a step in which it was kept: still pending, installed, or, for a
      chain whose time has come as well, on to its target. */
  lemma KeptStep(cfg: Config, m: Manager, tick: Tick)
    requires ValidConfig(cfg) && Inv(cfg, m) && Underway(m) && Smooth(cfg, m, tick) && !TimeIsUp(cfg, m, tick)
    ensures var n := Step(cfg, m, tick);
            && (n.hand.pending == m.hand.pending
                 || (m.hand.waiting && n.hand.pending == m.hand.final && n.hand.active == m.hand.pending))
            && n.hand.active in {m.hand.active, m.hand.pending}
            && ClockKept(m.hand, n.hand) && !GivenUp(m, n)
  {
    BeforeSwitch(cfg, m, tick);
    JobsOf(cfg, m);
    var (desk, seen) := ObserveBefore(cfg, Raised(m, tick), tick);
    var r := ResolveIn(Raised(m, tick), desk, seen);
    assert CancelRunningSwitch(cfg, r, tick.now) == r;
    hide Inv, ObserveBefore, ResolveIn, CancelRunningSwitch, StepPrepare, StepAfter, PollPolicyPreparation, JobsSound;
    PollSwitch(cfg, r, tick);
    var polled := PollPolicyPreparation(cfg, RequestHandoff(r), tick);
    PrepareSwitch(cfg, polled, tick);
    AfterSwitch(cfg, StepPrepare(cfg, polled, tick), seen, tick);
  }

  /** A step in which nothing else goes wrong gives a live switch up exactly if its time is up; a
      pending request is then refused. */
  lemma GivenUpExactly(cfg: Config, m: Manager, tick: Tick)
    requires ValidConfig(cfg) && Inv(cfg, m) && Underway(m) && Smooth(cfg, m, tick)
    ensures var n := Step(cfg, m, tick);
            && (GivenUp(m, n) <==> TimeIsUp(cfg, m, tick))
            && (GivenUp(m, n) ==> !n.hand.hot && !n.hand.waiting && n.requests.status == VerdictGivenUp(m.requests.status))
  {
    hide Step, Inv, Smooth;
    if TimeIsUp(cfg, m, tick) {
      GivenUpStep(cfg, m, tick);
    } else {
      KeptStep(cfg, m, tick);
    }
  }

  // ---------------------------------------------------------------- where the clock starts

  function TimeOf(e: Event): real {
    match e
    case OnTick(tick) => tick.now
    case OnCommand(_, now) => now
    case _ => 0.0
  }

  /** A policy request or a catalog request of this call has been accepted. */
  predicate Accepts(m: Manager, n: Manager, e: Event) {
    && e.OnCommand?
    && ((AsksForPolicy(m, e.command)
         && n.requests.status == SwitchStatus(e.command.requestSequence, Preparing, e.command.switchPolicy))
        || (e.command.interaction.operation != NoOperation && e.command.interaction.sequence != m.catalog.previousSequence
            && n.catalog.previousSequence == e.command.interaction.sequence
            && n.catalog.status.sequence == e.command.interaction.sequence && n.catalog.status.accepted))
  }

  /** This call has begun a live switch: something else is pending than before, or the same has
      been asked for anew. */
  predicate Begins(m: Manager, n: Manager, e: Event) {
    && m.fsm.mode == Rl && n.fsm.mode == Rl && n.hand.hot && n.hand.pending != n.hand.active
    && (n.hand.pending != m.hand.pending || Accepts(m, n, e))
  }

  lemma ActionStarts(cfg: Config, m: Manager, r: Interaction, now: real)
    requires m.fsm.mode == Rl
    ensures var n := HandlePolicyAction(cfg, m, r, now);
            n.hand == m.hand || (n.hand.started == now && (n.hand.pending != n.hand.active ==> n.hand.hot))
    ensures var n := HandlePolicyAction(cfg, m, r, now);
            r.operation != NoOperation && r.sequence != m.catalog.previousSequence
            && n.catalog.previousSequence == r.sequence && n.catalog.status.sequence == r.sequence && n.catalog.status.accepted ==>
              n.hand.started == now && (n.hand.pending != n.hand.active ==> n.hand.hot)
  {
    hide ActionsAllowed, RequestedPolicyReady, CatalogEntry, FinishPolicyAction;
  }

  lemma RequestStarts(cfg: Config, m: Manager, policy: Name, sequence: nat, now: real)
    requires m.fsm.mode == Rl
    ensures var n := SwitchPolicy(cfg, m, policy, sequence, now);
            && (n.hand == m.hand || n.hand.started == now)
            && (n.hand.pending != m.hand.pending && n.hand.pending != n.hand.active ==> n.hand.hot)
            && (n.requests.status.phase == Preparing ==> n.hand.started == now && n.hand.hot)
            && n.catalog.status.sequence == m.catalog.status.sequence
  {
    hide Admissible, OutsideGroupOf;
  }

  lemma CommandStarts(cfg: Config, m: Manager, c: Command, now: real)
    requires Begins(m, SetCommand(cfg, m, c, now), OnCommand(c, now))
    ensures SetCommand(cfg, m, c, now).hand.started == now
  {
    var heard := m.(command := c);
    ActionStarts(cfg, heard, c.interaction, now);
    hide HandlePolicyAction, SwitchPolicy;
    var told := Told(cfg, m, c, now);
    ToldAside(cfg, m, c, now);
    if AsksForPolicy(m, c) {
      RequestStarts(cfg, told, c.switchPolicy, c.requestSequence, now);
      RequestCatalog(cfg, told, c.switchPolicy, c.requestSequence, now);
    }
  }

  lemma ToldAside(cfg: Config, m: Manager, c: Command, now: real)
    ensures var n := HandlePolicyAction(cfg, m.(command := c), c.interaction, now);
            n.fsm == m.fsm && n.hand.active == m.hand.active && n.requests == m.requests
  {
    hide DecideAction, CatalogAfterAction;
  }

  lemma RequestCatalog(cfg: Config, m: Manager, policy: Name, sequence: nat, now: real)
    ensures var n := SwitchPolicy(cfg, m, policy, sequence, now);
            && n.fsm == m.fsm && n.catalog.previousSequence == m.catalog.previousSequence
            && (n.catalog == m.catalog || n.hand.pending == n.hand.active)
  {
    hide Admissible, OutsideGroupOf;
  }

  /** A stage of a step leaves what is pending, or settles on the running policy. */
  predicate Settles(h: Handoff, after: Handoff) { after.pending == h.pending || after.pending == after.active }

  lemma BeforeSettles(cfg: Config, m: Manager, tick: Tick)
    ensures Settles(m.hand, StepPrepare(cfg, StepBefore(cfg, m, tick), tick).hand)
  {
    var (desk, seen) := ObserveBefore(cfg, Raised(m, tick), tick);
    var r := ResolveIn(Raised(m, tick), desk, seen);
    var c := RequestHandoff(CancelRunningSwitch(cfg, r, tick.now));
    assert Settles(m.hand, c.hand);
    var p := PollPolicyPreparation(cfg, c, tick);
    PollSettles(cfg, c, tick);
    hide ObserveBefore, Resolve, ResolveIn, PollPolicyPreparation, CancelRunningSwitch;
    assert p == StepBefore(cfg, m, tick);
    PrepareSettles(cfg, p, tick);
  }

  lemma PollSettles(cfg: Config, m: Manager, tick: Tick)
    ensures Settles(m.hand, PollPolicyPreparation(cfg, m, tick).hand)
    ensures m.hand.pending == m.hand.active ==>
        PollPolicyPreparation(cfg, m, tick).hand.pending == PollPolicyPreparation(cfg, m, tick).hand.active
  {
    PollReasons(m, tick);
    hide CatalogAfterPoll, LogAfterPoll, PrepAfterPoll;
  }

  lemma PrepareSettles(cfg: Config, m: Manager, tick: Tick)
    ensures var n := StepPrepare(cfg, m, tick);
            n.hand.active == m.hand.active && (n.hand.pending == m.hand.pending || n.hand.pending == m.hand.active)
  {
    hide ForceSwitch, RequestedPolicyReady, CatalogAfterFailure;
  }

  /** In RL only a chain that moves on or a finished policy makes something else pending, and either
      starts the clock. */
  lemma TickStarts(cfg: Config, m: Manager, tick: Tick)
    requires Step(cfg, m, tick).fsm.mode == Rl
    ensures var n := Step(cfg, m, tick);
            n.hand.pending != m.hand.pending && n.hand.pending != n.hand.active ==> n.hand.hot && n.hand.started == tick.now
  {
    BeforeSettles(cfg, m, tick);
    var p := StepPrepare(cfg, StepBefore(cfg, m, tick), tick);
    var before := ObserveBefore(cfg, Raised(m, tick), tick).1;
    hide StepPrepare, StepBefore, ObserveBefore, Resolve, Book, StepFsm, ForceSwitch;
    var ran := RunStates(cfg, PrepareAtStartup(cfg, p, tick), p.command.key, tick);
    var latched := LatchStateFault(cfg, ran, before, tick);
    assert latched.hand == p.hand;
    assert Step(cfg, m, tick) == Book(cfg, latched, tick);
    BookStarts(cfg, latched, tick);
  }

  lemma BookStarts(cfg: Config, m: Manager, tick: Tick)
    requires Book(cfg, m, tick).fsm.mode == Rl
    ensures var n := Book(cfg, m, tick);
            && n.hand.active == m.hand.active
            && (n.hand.pending == m.hand.pending || n.hand.pending == n.hand.active || (n.hand.hot && n.hand.started == tick.now))
  {
    hide FinishPolicyAction;
  }

  lemma ClockStarts(cfg: Config, m: Manager, e: Event)
    requires Begins(m, Apply(cfg, m, e), e)
    ensures Apply(cfg, m, e).hand.started == TimeOf(e)
  {
    hide SetCommand, Step;
    match e {
      case OnTick(tick) => TickStarts(cfg, m, tick);
      case OnCommand(c, now) => CommandStarts(cfg, m, c, now);
      case _ =>
    }
  }

  // ---------------------------------------------------------------- from its start to its end

  function Ticks(cfg: Config, m: Manager, ticks: seq<Tick>): Manager
    decreases |ticks|
  {
    if ticks == [] then m else Ticks(cfg, Step(cfg, m, ticks[0]), ticks[1..])
  }

  /** The switch to `target` stays under way, and nothing goes wrong. */
  predicate Going(cfg: Config, m: Manager, target: Name, ticks: seq<Tick>)
    decreases |ticks|
  {
    && Underway(m) && m.hand.pending == target
    && (ticks == [] || (Smooth(cfg, m, ticks[0]) && Going(cfg, Step(cfg, m, ticks[0]), target, ticks[1..])))
  }

  lemma {:induction false} ClockRuns(cfg: Config, m: Manager, target: Name, ticks: seq<Tick>)
    requires ValidConfig(cfg) && Inv(cfg, m) && Going(cfg, m, target, ticks)
    ensures var n := Ticks(cfg, m, ticks); Inv(cfg, n) && Underway(n) && n.hand.started == m.hand.started
    decreases |ticks|
  {
    hide Inv, Step, Smooth, StepPrepare;
    if ticks != [] {
      var n := Step(cfg, m, ticks[0]);
      StepKeeps(cfg, m, ticks[0]);
      assert Underway(n) && n.hand.pending == target;
      if TimeIsUp(cfg, m, ticks[0]) {
        GivenUpStep(cfg, m, ticks[0]);
      } else {
        KeptStep(cfg, m, ticks[0]);
      }
      ClockRuns(cfg, n, target, ticks[1..]);
    }
  }

  /** A live switch, whichever call has begun it, is given up exactly by the step that comes more than
      the permitted time after that call; whatever steps have passed in between. */
  lemma SwitchKeptExactly(cfg: Config, events: seq<Event>, e: Event, ticks: seq<Tick>, last: Tick)
    requires ValidConfig(cfg)
    requires Begins(Run(cfg, events), Run(cfg, events + [e]), e)
    requires Going(cfg, Run(cfg, events + [e]), Run(cfg, events + [e]).hand.pending, ticks)
    requires Smooth(cfg, Ticks(cfg, Run(cfg, events + [e]), ticks), last)
    ensures var n := Ticks(cfg, Run(cfg, events + [e]), ticks);
            GivenUp(n, Step(cfg, n, last)) <==> last.now - TimeOf(e) > cfg.switchTimeout
  {
    var all := events + [e];
    assert all[..|all| - 1] == events;
    var m := Run(cfg, all);
    assert m == Apply(cfg, Run(cfg, events), e);
    RunHolds(cfg, all);
    ClockStarts(cfg, Run(cfg, events), e);
    ClockRuns(cfg, m, m.hand.pending, ticks);
    hide Run, Inv, Step, Apply, Going;
    GivenUpExactly(cfg, Ticks(cfg, m, ticks), last);
  }
}
