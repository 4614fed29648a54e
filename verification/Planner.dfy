/** The asynchronous motion planner of sonic_planner.cpp: a worker that turns command snapshots
    into motions, generation counters, cancellation and the idle claim. Every block under the
    planner's mutex is one atomic step. */
module Planner {
  import opened Curves
  import opened RobotBase

  /** `mode` fixes the planner's mode; a negative one selects it by speed. */
  datatype Config = Config(mode: int, epsilon: real, slow: real, walk: real, lookahead: real)

  predicate ValidConfig(cfg: Config) {
    -1 <= cfg.mode <= 26 && 0.0 < cfg.slow < cfg.walk && cfg.lookahead >= 0.0
  }

  function SpeedSquared(c: Twist): real { Times(c.vx, c.vx) + Times(c.vy, c.vy) }

  predicate AtMost(c: Twist, limit: real) { limit >= 0.0 && SpeedSquared(c) <= Times(limit, limit) }

  predicate Below(c: Twist, limit: real) { limit > 0.0 && SpeedSquared(c) < Times(limit, limit) }

  predicate CommandChanged(a: Twist, b: Twist, epsilon: real) {
    Abs(a.vx - b.vx) > epsilon || Abs(a.vy - b.vy) > epsilon || Abs(a.wz - b.wz) > epsilon
  }

  predicate IsStaticMode(mode: int) { mode in {0, 4, 5, 6, 7, 9} }

  function SelectMode(cfg: Config, c: Twist): int {
    if cfg.mode >= 0 then cfg.mode
    else if AtMost(c, cfg.epsilon) && Abs(c.wz) <= cfg.epsilon then 0
    else if Below(c, cfg.slow) then 1
    else if Below(c, cfg.walk) then 2
    else 3
  }

  predicate NeedsPeriodicReplan(cfg: Config, c: Twist) {
    !IsStaticMode(SelectMode(cfg, c)) && (!AtMost(c, cfg.epsilon) || Abs(c.wz) > cfg.epsilon)
  }

  /** A command as it was handed over, and the request generation it belonged to. */
  datatype Issue = Issue(command: Twist, generation: nat)

  /** A published motion: the hand-over it was generated from, and when it ends. */
  datatype Plan = Plan(source: nat, end: real)

  datatype Worker =
    | Gone
    | Loading
    | Waiting(handled: nat)
    | Generating(source: nat, elapsed: real)
    | Generated(source: nat, end: real)
    | Blending(source: nat, end: real)
    | Failing

  /** `issues` and `plans` are the histories since the last reset. */
  datatype State = State(
    running: bool, joining: bool, failed: bool, command: Twist, elapsed: real, requested: nat, published: nat,
    idle: bool, readyAt: real, worker: Worker, issues: seq<Issue>, plans: seq<Plan>)

  function Constructed(): State {
    State(false, false, false, STANDSTILL, 0.0, 0, 0, false, 0.0, Gone, [], [])
  }

  predicate Idle(s: State) { s.idle && s.published == s.requested && s.elapsed >= s.readyAt }

  // ---------------------------------------------------------------- client

  function RequestStop(s: State): State { s.(running := false) }

  /** Reset first stops the worker and waits for it to leave. */
  function BeginReset(s: State): State { s.(running := false, joining := true) }

  /** A robot state that yields no seed motion is an error. */
  function FinishReset(s: State, seedOk: bool): State {
    if !s.joining || !s.worker.Gone? then s
    else if !seedOk then s.(joining := false)
    else
      State(true, false, false, STANDSTILL, 0.0, 1, 0, false, 0.0, Loading, [Issue(STANDSTILL, 1)], [])
  }

  /** Only a change beyond the tolerance asks for a new plan. */
  function Update(cfg: Config, s: State, command: Twist, elapsed: real): State {
    var requested := s.requested + if CommandChanged(s.command, command, cfg.epsilon) then 1 else 0;
    s.(command := command, elapsed := Max(0.0, elapsed), requested := requested,
       issues := s.issues + [Issue(command, requested)])
  }

  // ---------------------------------------------------------------- worker

  function Leave(s: State): State { s.(worker := Gone) }

  function Fail(s: State): State { s.(worker := Gone, failed := true, running := false) }

  /** A new generation, or the next period of a moving command. */
  function Wake(cfg: Config, s: State, handled: nat, due: bool): State {
    if !s.running then Leave(s)
    else if s.issues != [] && (s.requested != handled || (due && NeedsPeriodicReplan(cfg, s.command))) then
      s.(worker := Generating(|s.issues| - 1, s.elapsed))
    else s
  }

  function Publish(cfg: Config, s: State, source: nat, end: real): State {
    if !s.running then Leave(s)
    else if source >= |s.issues| then s
    else
      var issue := s.issues[source];
      s.(idle := SelectMode(cfg, issue.command) == 0, readyAt := end, published := issue.generation,
         plans := s.plans + [Plan(source, end)], worker := Waiting(issue.generation))
  }

  /** `loads` and `length` are the outcomes of loading, and of generating or blending; None is an
      exception. */
  function Work(cfg: Config, s: State, loads: bool, due: bool, length: Option<real>): State {
    match s.worker
    case Gone => s
    case Loading => if loads then s.(worker := Waiting(0)) else Fail(s)
    case Waiting(handled) => Wake(cfg, s, handled, due)
    case Generating(source, elapsed) =>
      if length.None? then s.(worker := Failing)
      else s.(worker := Generated(source, elapsed + cfg.lookahead + Max(0.0, length.value)))
    case Generated(source, end) => if !s.running then Leave(s) else s.(worker := Blending(source, end))
    case Blending(source, end) => if length.None? then s.(worker := Failing) else Publish(cfg, s, source, end)
    case Failing => if !s.running then Leave(s) else Fail(s)
  }

  datatype Event =
    | OnBeginReset
    | OnFinishReset(seedOk: bool)
    | OnUpdate(command: Twist, elapsed: real)
    | OnRequestStop
    | OnWork(loads: bool, due: bool, length: Option<real>)

  /** The client does not update while it waits in Reset. */
  function Next(cfg: Config, s: State, e: Event): State {
    match e
    case OnBeginReset => BeginReset(s)
    case OnFinishReset(seedOk) => FinishReset(s, seedOk)
    case OnUpdate(command, elapsed) => if s.joining then s else Update(cfg, s, command, elapsed)
    case OnRequestStop => RequestStop(s)
    case OnWork(loads, due, length) => Work(cfg, s, loads, due, length)
  }

  function RunFrom(cfg: Config, s: State, events: seq<Event>): State {
    if events == [] then s else Next(cfg, RunFrom(cfg, s, events[..|events| - 1]), events[|events| - 1])
  }

  function Run(cfg: Config, events: seq<Event>): State { RunFrom(cfg, Constructed(), events) }

  // ---------------------------------------------------------------- invariant

  /** Generations count the changes beyond the tolerance. */
  ghost predicate IssuesSound(cfg: Config, issues: seq<Issue>, command: Twist, requested: nat) {
    && (issues != [] ==> issues[|issues| - 1] == Issue(command, requested))
    && (forall i | 0 < i < |issues| ::
          issues[i].generation ==
          issues[i - 1].generation + if CommandChanged(issues[i - 1].command, issues[i].command, cfg.epsilon) then 1 else 0)
  }

  function SourceOf(w: Worker): Option<nat> {
    match w
    case Generating(source, _) => Some(source)
    case Generated(source, _) => Some(source)
    case Blending(source, _) => Some(source)
    case _ => None
  }

  ghost predicate PlansSound(cfg: Config, issues: seq<Issue>, plans: seq<Plan>, w: Worker, published: nat, idle: bool, readyAt: real) {
    && (forall i | 0 <= i < |plans| :: plans[i].source < |issues|)
    && (forall i, j | 0 <= i < j < |plans| :: plans[i].source <= plans[j].source)
    && (SourceOf(w).Some? ==> SourceOf(w).value < |issues|)
    && (SourceOf(w).Some? ==> forall i | 0 <= i < |plans| :: plans[i].source <= SourceOf(w).value)
    && (if plans == [] then published == 0 && !idle
        else
          var last := plans[|plans| - 1];
          && published == issues[last.source].generation && readyAt == last.end
          && (idle <==> SelectMode(cfg, issues[last.source].command) == 0))
  }

  /** A motion that is being generated has a worker, and a worker is only left by stopping. */
  ghost predicate Inv(cfg: Config, s: State) {
    && IssuesSound(cfg, s.issues, s.command, s.requested)
    && PlansSound(cfg, s.issues, s.plans, s.worker, s.published, s.idle, s.readyAt)
    && (s.joining && !s.worker.Gone? ==> !s.running)
  }

  lemma UpdateKeeps(cfg: Config, s: State, command: Twist, elapsed: real)
    requires Inv(cfg, s) && !s.joining
    ensures Inv(cfg, Update(cfg, s, command, elapsed))
  {
    hide SelectMode, CommandChanged;
    if s.issues == [] {
    } else {
      assert s.issues[|s.issues| - 1] == Issue(s.command, s.requested);
    }
  }

  lemma PublishKeeps(cfg: Config, s: State)
    requires Inv(cfg, s) && s.worker.Blending?
    ensures Inv(cfg, Publish(cfg, s, s.worker.source, s.worker.end))
  {
    hide SelectMode, CommandChanged, IssuesSound;
  }

  lemma WakeKeeps(cfg: Config, s: State, due: bool)
    requires Inv(cfg, s) && s.worker.Waiting?
    ensures Inv(cfg, Wake(cfg, s, s.worker.handled, due))
  {
    hide SelectMode, CommandChanged, NeedsPeriodicReplan, IssuesSound;
  }

  /** A step that at most drops its source. */
  lemma StageKeeps(cfg: Config, s: State, w: Worker, failed: bool, running: bool)
    requires Inv(cfg, s) && (SourceOf(w) == None || SourceOf(w) == SourceOf(s.worker))
    requires (running ==> s.running) && !s.worker.Gone?
    ensures Inv(cfg, s.(worker := w, failed := failed, running := running))
  {
    hide SelectMode, CommandChanged, IssuesSound;
  }

  lemma WorkKeeps(cfg: Config, s: State, loads: bool, due: bool, length: Option<real>)
    requires Inv(cfg, s)
    ensures Inv(cfg, Work(cfg, s, loads, due, length))
  {
    hide Inv, Publish, Wake;
    match s.worker
    case Gone =>
    case Loading =>
      StageKeeps(cfg, s, Gone, true, false);
      StageKeeps(cfg, s, Waiting(0), s.failed, s.running);
    case Waiting(_) => WakeKeeps(cfg, s, due);
    case Generating(source, elapsed) =>
      var t := Work(cfg, s, loads, due, length);
      StageKeeps(cfg, s, t.worker, s.failed, s.running);
    case Generated(source, end) =>
      StageKeeps(cfg, s, Gone, s.failed, s.running);
      StageKeeps(cfg, s, Blending(source, end), s.failed, s.running);
    case Blending(_, _) => if length.None? { StageKeeps(cfg, s, Failing, s.failed, s.running); } else { PublishKeeps(cfg, s); }
    case Failing =>
      StageKeeps(cfg, s, Gone, s.failed, s.running);
      StageKeeps(cfg, s, Gone, true, false);
  }

  lemma NextKeeps(cfg: Config, s: State, e: Event)
    requires Inv(cfg, s)
    ensures Inv(cfg, Next(cfg, s, e))
  {
    match e
    case OnBeginReset =>
    case OnFinishReset(_) =>
    case OnUpdate(command, elapsed) => if !s.joining { UpdateKeeps(cfg, s, command, elapsed); } hide Inv, Update;
    case OnRequestStop =>
    case OnWork(loads, due, length) => WorkKeeps(cfg, s, loads, due, length); hide Inv, Work;
  }

  lemma {:induction false} RunHolds(cfg: Config, events: seq<Event>)
    ensures Inv(cfg, Run(cfg, events))
    decreases |events|
  {
    hide Next;
    if events != [] {
      RunHolds(cfg, events[..|events| - 1]);
      NextKeeps(cfg, Run(cfg, events[..|events| - 1]), events[|events| - 1]);
    }
  }

  lemma {:induction false} GenerationsRise(cfg: Config, s: State, i: nat, j: nat)
    requires IssuesSound(cfg, s.issues, s.command, s.requested) && i <= j < |s.issues|
    ensures s.issues[i].generation <= s.issues[j].generation <= s.requested
    decreases |s.issues| - i
  {
    if i < j {
      GenerationsRise(cfg, s, i + 1, j);
    } else if i + 1 < |s.issues| {
      GenerationsRise(cfg, s, i + 1, i + 1);
    }
  }

  // ---------------------------------------------------------------- theorems

  /** What is published was requested, and publications do not go back to older commands. */
  lemma PublishedWasRequested(cfg: Config, events: seq<Event>)
    ensures var s := Run(cfg, events);
            && s.published <= s.requested
            && (forall i, j | 0 <= i < j < |s.plans| :: s.plans[i].source <= s.plans[j].source < |s.issues|)
  {
    RunHolds(cfg, events);
    var s := Run(cfg, events);
    hide Run, SelectMode, CommandChanged;
    if s.plans != [] {
      GenerationsRise(cfg, s, s.plans[|s.plans| - 1].source, s.plans[|s.plans| - 1].source);
    }
  }

  /** Since the hand-over i no command has differed from the one before it beyond the tolerance. */
  ghost predicate Quiet(cfg: Config, issues: seq<Issue>, i: nat) {
    forall k | i < k < |issues| :: !CommandChanged(issues[k - 1].command, issues[k].command, cfg.epsilon)
  }

  /** An idle planner shows a motion that was generated in mode 0 from a hand-over of the present
      generation, has run to that motion's end, and has seen no change beyond the tolerance since. */
  lemma IdleIsCurrent(cfg: Config, events: seq<Event>)
    requires Idle(Run(cfg, events))
    ensures var s := Run(cfg, events);
            && s.plans != []
            && var last := s.plans[|s.plans| - 1];
               && last.source < |s.issues| && SelectMode(cfg, s.issues[last.source].command) == 0
               && s.issues[last.source].generation == s.requested
               && s.elapsed >= last.end && Quiet(cfg, s.issues, last.source)
  {
    RunHolds(cfg, events);
    var s := Run(cfg, events);
    hide Run, SelectMode, CommandChanged;
    var i := s.plans[|s.plans| - 1].source;
    forall k | i < k < |s.issues|
      ensures !CommandChanged(s.issues[k - 1].command, s.issues[k].command, cfg.epsilon)
    {
      GenerationsRise(cfg, s, i, k - 1);
      GenerationsRise(cfg, s, k, k);
    }
  }

  /** How far commands can have drifted while every single step stayed within the tolerance. */
  lemma {:induction false} QuietDrift(cfg: Config, issues: seq<Issue>, i: nat, k: nat)
    requires Quiet(cfg, issues, i) && i <= k < |issues|
    ensures Abs(issues[k].command.vx - issues[i].command.vx) <= Times((k - i) as real, cfg.epsilon)
    ensures Abs(issues[k].command.vy - issues[i].command.vy) <= Times((k - i) as real, cfg.epsilon)
    ensures Abs(issues[k].command.wz - issues[i].command.wz) <= Times((k - i) as real, cfg.epsilon)
    decreases k
  {
    assert Times(0.0, cfg.epsilon) == 0.0;
    if i < k {
      QuietDrift(cfg, issues, i, k - 1);
      OneMoreStep(k - 1 - i, cfg.epsilon);
      assert !CommandChanged(issues[k - 1].command, issues[k].command, cfg.epsilon);
      hide Times;
    }
  }

  lemma OneMoreStep(n: int, epsilon: real)
    ensures Times((n + 1) as real, epsilon) == Times(n as real, epsilon) + epsilon
  {}

  /** Two steps within the tolerance keep the claim and leave mode 0. */
  lemma DriftWhileIdle(cfg: Config, s: State)
    requires ValidConfig(cfg) && Idle(s) && cfg.mode == -1 && cfg.epsilon > 0.0 && s.command == STANDSTILL && s.elapsed >= 0.0
    ensures var t := Update(cfg, Update(cfg, s, Nudged(cfg, 0.75), s.elapsed), Nudged(cfg, 1.5), s.elapsed);
            Idle(t) && SelectMode(cfg, t.command) != 0
  {
    BeyondTolerance(cfg.epsilon);
    hide Times;
    assert !AtMost(Nudged(cfg, 1.5), cfg.epsilon);
  }

  /** A forward command, in multiples of the tolerance. */
  function Nudged(cfg: Config, factor: real): Twist { Twist(factor * cfg.epsilon, 0.0, 0.0) }

  lemma RunOne(cfg: Config, events: seq<Event>, e: Event)
    ensures Run(cfg, events + [e]) == Next(cfg, Run(cfg, events), e)
  {
    hide Next;
    assert (events + [e])[..|events|] == events;
  }

  const WORK := OnWork(true, false, Some(0.0))

  /** The worker after a reset, up to its first publication. */
  lemma FirstPublication(cfg: Config) returns (events: seq<Event>)
    ensures var s := Run(cfg, events);
            && !s.joining && s.command == STANDSTILL && s.requested == s.published == 1 && s.readyAt == cfg.lookahead
            && s.idle == (SelectMode(cfg, STANDSTILL) == 0)
  {
    hide SelectMode;
    events := [OnBeginReset];
    RunOne(cfg, [], OnBeginReset);
    assert [] + [OnBeginReset] == events;
    RunOne(cfg, events, OnFinishReset(true));
    events := events + [OnFinishReset(true)];
    for i := 0 to 5
      invariant var s := Run(cfg, events);
                && s.running && !s.joining && s.command == STANDSTILL && s.requested == 1 && s.elapsed == 0.0
                && s.issues == [Issue(STANDSTILL, 1)]
                && s.worker == [Loading, Waiting(0), Generating(0, 0.0), Generated(0, cfg.lookahead),
                                Blending(0, cfg.lookahead), Waiting(1)][i]
                && (i == 5 ==> s.published == 1 && s.readyAt == cfg.lookahead && s.idle == (SelectMode(cfg, STANDSTILL) == 0))
    {
      RunOne(cfg, events, WORK);
      events := events + [WORK];
    }
  }

  /** A run from construction on whose planner claims idleness while it is told to walk. */
  lemma WalksWhileIdle(cfg: Config) returns (events: seq<Event>)
    requires ValidConfig(cfg) && cfg.mode == -1 && cfg.epsilon > 0.0
    ensures Idle(Run(cfg, events)) && SelectMode(cfg, Run(cfg, events).command) != 0
  {
    hide Next, Update, SelectMode, Nudged, Run, Idle;
    StandstillIsStatic(cfg);
    events := FirstPublication(cfg);
    BecomesIdle(cfg, Run(cfg, events));
    RunUpdate(cfg, events, STANDSTILL, cfg.lookahead);
    events := events + [OnUpdate(STANDSTILL, cfg.lookahead)];
    var s := Run(cfg, events);
    DriftWhileIdle(cfg, s);
    RunUpdate(cfg, events, Nudged(cfg, 0.75), s.elapsed);
    events := events + [OnUpdate(Nudged(cfg, 0.75), s.elapsed)];
    RunUpdate(cfg, events, Nudged(cfg, 1.5), s.elapsed);
    events := events + [OnUpdate(Nudged(cfg, 1.5), s.elapsed)];
  }

  lemma RunUpdate(cfg: Config, events: seq<Event>, command: Twist, elapsed: real)
    requires !Run(cfg, events).joining
    ensures Run(cfg, events + [OnUpdate(command, elapsed)]) == Update(cfg, Run(cfg, events), command, elapsed)
    ensures !Run(cfg, events + [OnUpdate(command, elapsed)]).joining
  {
    RunOne(cfg, events, OnUpdate(command, elapsed));
  }

  /** Standing still until the first motion has ended. */
  lemma BecomesIdle(cfg: Config, s: State)
    requires ValidConfig(cfg) && cfg.epsilon > 0.0 && s.command == STANDSTILL && s.idle
    requires s.requested == s.published && s.readyAt == cfg.lookahead
    ensures var t := Update(cfg, s, STANDSTILL, cfg.lookahead); Idle(t) && t.command == STANDSTILL && t.elapsed >= 0.0
  {}

  lemma StandstillIsStatic(cfg: Config)
    requires cfg.mode == -1 && cfg.epsilon > 0.0
    ensures SelectMode(cfg, STANDSTILL) == 0
  {
    Nonnegative(cfg.epsilon, cfg.epsilon);
  }

  /** Without a positive tolerance only repetitions of a command are quiet. */
  lemma {:induction false} QuietIsConstant(cfg: Config, issues: seq<Issue>, i: nat, k: nat)
    requires cfg.epsilon <= 0.0 && Quiet(cfg, issues, i) && i <= k < |issues|
    ensures issues[k].command == issues[i].command
    decreases k
  {
    if i < k {
      QuietIsConstant(cfg, issues, i, k - 1);
      assert !CommandChanged(issues[k - 1].command, issues[k].command, cfg.epsilon);
    }
  }

  /** The exact condition: in all runs an idle planner has been told to stand still, if and only
      if the mode is fixed or the tolerance is not positive. */
  lemma IdleStandsExactly(cfg: Config)
    requires ValidConfig(cfg)
    ensures (forall events :: Idle(Run(cfg, events)) ==> SelectMode(cfg, Run(cfg, events).command) == 0) <==>
            cfg.mode != -1 || cfg.epsilon <= 0.0
  {
    if cfg.mode != -1 || cfg.epsilon <= 0.0 {
      forall events | Idle(Run(cfg, events))
        ensures SelectMode(cfg, Run(cfg, events).command) == 0
      {
        IdleIsCurrent(cfg, events);
        RunHolds(cfg, events);
        var s := Run(cfg, events);
        if cfg.mode == -1 {
          QuietIsConstant(cfg, s.issues, s.plans[|s.plans| - 1].source, |s.issues| - 1);
        }
      }
    } else {
      var events := WalksWhileIdle(cfg);
      assert Idle(Run(cfg, events));
    }
  }

  lemma BeyondTolerance(epsilon: real)
    requires epsilon > 0.0
    ensures Times(1.5 * epsilon, 1.5 * epsilon) + Times(0.0, 0.0) > Times(epsilon, epsilon)
  {
    Positive(epsilon, epsilon);
    assert Times(1.5 * epsilon, 1.5 * epsilon) == 2.25 * Times(epsilon, epsilon);
  }

  /** No reset is completed; one whose robot state yields no seed motion is not. */
  predicate NoReset(events: seq<Event>) {
    forall i | 0 <= i < |events| :: !(events[i].OnFinishReset? && events[i].seedOk)
  }

  ghost predicate Unpublished(s: State, t: State) {
    && !t.running && t.plans == s.plans && t.published == s.published && t.idle == s.idle && t.readyAt == s.readyAt
    && (s.worker.Gone? ==> t.worker.Gone?)
  }

  lemma StoppedStep(cfg: Config, s: State, e: Event)
    requires !s.running && !(e.OnFinishReset? && e.seedOk)
    ensures Unpublished(s, Next(cfg, s, e))
  {
    hide SelectMode, CommandChanged, NeedsPeriodicReplan;
  }

  /** Between a stop and the completion of the next reset nothing is published. */
  lemma {:induction false} NothingAfterStop(cfg: Config, s: State, events: seq<Event>)
    requires !s.running && NoReset(events)
    ensures Unpublished(s, RunFrom(cfg, s, events))
    decreases |events|
  {
    hide Next;
    if events != [] {
      var shorter, e := events[..|events| - 1], events[|events| - 1];
      assert !(e.OnFinishReset? && e.seedOk);
      NothingAfterStop(cfg, s, shorter);
      StoppedStep(cfg, RunFrom(cfg, s, shorter), e);
    }
  }

  /** Steps the worker still takes after a stop. */
  function StepsLeft(w: Worker): nat {
    match w
    case Gone => 0
    case Loading => 2
    case Waiting(_) => 1
    case Generating(_, _) => 2
    case Generated(_, _) => 1
    case Blending(_, _) => 2
    case Failing => 1
  }

  /** After a stop every step of the worker brings it closer to leaving, so Reset can join it. */
  lemma StopIsJoined(cfg: Config, s: State, loads: bool, due: bool, length: Option<real>)
    requires !s.running && !s.worker.Gone?
    ensures StepsLeft(Work(cfg, s, loads, due, length).worker) < StepsLeft(s.worker)
    ensures !Work(cfg, s, loads, due, length).running
  {}
}
