/** The planner round by round: how commands select a mode, when the worker plans, and that every
    change of command is answered. */
module PlannerRounds {
  import opened Curves
  import opened RobotBase
  import opened Planner

  // ---------------------------------------------------------------- commands

  /** The horizontal speed of a command. */
  predicate Speed(c: Twist, v: real) { v >= 0.0 && Times(v, v) == Times(c.vx, c.vx) + Times(c.vy, c.vy) }

  lemma SquareOrder(x: real, y: real)
    requires x >= 0.0 && y >= 0.0
    ensures Times(x, x) <= Times(y, y) <==> x <= y
  {
    if x <= y {
      Nonnegative(x, y - x);
      Nonnegative(y, y - x);
      assert Times(y, y) - Times(x, x) == Times(x, y - x) + Times(y, y - x);
    } else {
      Nonnegative(y, x - y);
      Positive(x, x - y);
      assert Times(x, x) - Times(y, y) == Times(x, x - y) + Times(y, x - y);
    }
  }

  /** A fixed mode is always selected; otherwise standing still, slow walking, walking and running
      are told apart by the speed, and standing still by the turning rate as well. */
  lemma ModeExactly(cfg: Config, c: Twist, v: real)
    requires ValidConfig(cfg) && Speed(c, v)
    ensures cfg.mode >= 0 ==> SelectMode(cfg, c) == cfg.mode
    ensures var mode, stands := SelectMode(cfg, c), v <= cfg.epsilon && Abs(c.wz) <= cfg.epsilon;
            cfg.mode == -1 ==>
              && (mode == 0 <==> stands) && (mode == 1 <==> !stands && v < cfg.slow)
              && (mode == 2 <==> !stands && cfg.slow <= v < cfg.walk) && (mode == 3 <==> !stands && cfg.walk <= v)
  {
    if cfg.epsilon >= 0.0 {
      SquareOrder(v, cfg.epsilon);
    }
    SquareOrder(cfg.slow, v);
    SquareOrder(cfg.walk, v);
    hide Times;
  }

  /** Only a change of some component beyond the tolerance asks for a new plan, and every hand-over
      replaces command and time. */
  lemma UpdateExactly(cfg: Config, s: State, c: Twist, elapsed: real)
    requires !s.joining
    ensures var t := Next(cfg, s, OnUpdate(c, elapsed)); var e, old_ := cfg.epsilon, s.command;
            && t.command == c && t.elapsed == (if elapsed > 0.0 then elapsed else 0.0)
            && (t.requested == s.requested + 1 <==>
                  || c.vx - old_.vx > e || old_.vx - c.vx > e || c.vy - old_.vy > e || old_.vy - c.vy > e
                  || c.wz - old_.wz > e || old_.wz - c.wz > e)
            && (t.requested == s.requested || t.requested == s.requested + 1)
            && t.issues == s.issues + [Issue(c, t.requested)] && t.plans == s.plans && t.worker == s.worker
  {}

  // ---------------------------------------------------------------- the worker

  /** A motion that is repeated while the command lasts: not one of the static modes, and not
      standing still. */
  predicate Repeats(cfg: Config, c: Twist, v: real) {
    cfg.mode !in {0, 4, 5, 6, 7, 9} && (v > cfg.epsilon || Abs(c.wz) > cfg.epsilon)
  }

  lemma RepeatsExactly(cfg: Config, c: Twist, v: real)
    requires ValidConfig(cfg) && Speed(c, v)
    ensures NeedsPeriodicReplan(cfg, c) <==> Repeats(cfg, c, v)
  {
    ModeExactly(cfg, c, v);
    if cfg.epsilon >= 0.0 {
      SquareOrder(v, cfg.epsilon);
    }
    hide SelectMode, Times;
  }

  /** A waiting worker of a running planner stays at rest exactly if the newest generation has been
      handled and no repetition is due. */
  lemma RestsExactly(cfg: Config, s: State, v: real, loads: bool, due: bool, length: Option<real>)
    requires ValidConfig(cfg) && Speed(s.command, v) && s.running && s.issues != [] && s.worker.Waiting?
    ensures var t := Next(cfg, s, OnWork(loads, due, length));
            && (t == s <==> s.requested == s.worker.handled && !(due && Repeats(cfg, s.command, v)))
            && (t != s ==> t == s.(worker := Generating(|s.issues| - 1, s.elapsed)))
  {
    RepeatsExactly(cfg, s.command, v);
    hide NeedsPeriodicReplan, Repeats;
  }

  /** Worker steps in which nothing fails, without an update in between. */
  function Works(cfg: Config, s: State, length: real, n: nat): State
    decreases n
  {
    if n == 0 then s else Works(cfg, Next(cfg, s, OnWork(true, false, Some(length))), length, n - 1)
  }

  lemma {:induction false} WorksJoin(cfg: Config, s: State, length: real, n: nat, m: nat)
    ensures Works(cfg, s, length, n + m) == Works(cfg, Works(cfg, s, length, n), length, m)
    decreases n
  {
    hide Next;
    if n > 0 {
      WorksJoin(cfg, Next(cfg, s, OnWork(true, false, Some(length))), length, n - 1, m);
    }
  }

  lemma WorksOne(cfg: Config, s: State, length: real)
    ensures Works(cfg, s, length, 1) == Next(cfg, s, OnWork(true, false, Some(length)))
  {
    hide Next;
    assert Works(cfg, Next(cfg, s, OnWork(true, false, Some(length))), length, 0) ==
      Next(cfg, s, OnWork(true, false, Some(length)));
  }

  /** What is published from a hand-over. */
  function Answered(cfg: Config, s: State, source: nat, end: real): State
    requires source < |s.issues|
  {
    var issue := s.issues[source];
    s.(plans := s.plans + [Plan(source, end)], published := issue.generation, readyAt := end,
       idle := SelectMode(cfg, issue.command) == 0, worker := Waiting(issue.generation))
  }

  /** A plan under way is published three steps after generation began, ending the lookahead and its
      length after the hand-over's time. */
  lemma PlanEnds(cfg: Config, s: State, length: real)
    requires s.running && s.worker.Generating? && s.worker.source < |s.issues|
    ensures var w := s.worker;
            Works(cfg, s, length, 3) == Answered(cfg, s, w.source, w.elapsed + cfg.lookahead + Max(0.0, length))
  {
    hide SelectMode;
    var w := s.worker;
    var end := w.elapsed + cfg.lookahead + Max(0.0, length);
    var one, two := s.(worker := Generated(w.source, end)), s.(worker := Blending(w.source, end));
    WorksJoin(cfg, s, length, 1, 2);
    WorksJoin(cfg, one, length, 1, 1);
    WorksOne(cfg, s, length);
    WorksOne(cfg, one, length);
    WorksOne(cfg, two, length);
  }

  /** One whole round from a waiting worker: the newest hand-over is planned and published. */
  lemma RoundEnds(cfg: Config, s: State, length: real)
    requires s.running && s.issues != [] && s.worker.Waiting? && s.requested != s.worker.handled
    ensures Works(cfg, s, length, 4) == Answered(cfg, s, |s.issues| - 1, s.elapsed + cfg.lookahead + Max(0.0, length))
  {
    hide SelectMode, NeedsPeriodicReplan;
    var one := s.(worker := Generating(|s.issues| - 1, s.elapsed));
    WorksJoin(cfg, s, length, 1, 3);
    WorksOne(cfg, s, length);
    PlanEnds(cfg, one, length);
  }

  lemma {:induction false} Idles(cfg: Config, s: State, length: real, n: nat)
    requires s.running && s.worker == Waiting(s.requested)
    ensures Works(cfg, s, length, n) == s
  {
    if n > 0 {
      Idles(cfg, s, length, n - 1);
    }
  }

  /** A running planner has a worker, a hand-over, and a record of what it has handled. */
  ghost predicate Manned(s: State) {
    && (s.running ==> !s.worker.Gone? && s.issues != [])
    && (s.worker.Waiting? ==> s.worker.handled == s.published)
    && (s.worker.Loading? ==> s.published == 0)
  }

  lemma MannedStep(cfg: Config, s: State, e: Event)
    requires Manned(s)
    ensures Manned(Next(cfg, s, e))
  {
    hide SelectMode, CommandChanged, NeedsPeriodicReplan;
  }

  lemma {:induction false} RunManned(cfg: Config, events: seq<Event>)
    ensures Manned(Run(cfg, events))
    decreases |events|
  {
    hide Next, Manned;
    if events == [] {
      NobodyYet();
    } else {
      RunManned(cfg, events[..|events| - 1]);
      MannedStep(cfg, Run(cfg, events[..|events| - 1]), events[|events| - 1]);
    }
  }

  lemma NobodyYet()
    ensures Manned(Constructed())
  {}

  /** The newest hand-over carries the newest generation. */
  lemma NewestIsRequested(cfg: Config, s: State)
    requires Inv(cfg, s) && s.issues != []
    ensures s.issues[|s.issues| - 1] == Issue(s.command, s.requested)
  {
    hide CommandChanged, SelectMode;
  }

  /** The published motion is of the newest generation. */
  ghost predicate UpToDate(s: State) {
    && s.published == s.requested && s.worker == Waiting(s.requested) && s.plans != []
    && var source := s.plans[|s.plans| - 1].source; source < |s.issues| && s.issues[source].generation == s.requested
  }

  lemma RoundIsUpToDate(cfg: Config, s: State, end: real)
    requires Inv(cfg, s) && s.issues != []
    ensures UpToDate(Answered(cfg, s, |s.issues| - 1, end))
    ensures Answered(cfg, s, |s.issues| - 1, end).idle == (SelectMode(cfg, s.command) == 0)
  {
    NewestIsRequested(cfg, s);
    hide SelectMode, CommandChanged;
  }

  /** From a waiting worker four steps bring the planner up to date, with the newest hand-over. */
  lemma WaitingAnswers(cfg: Config, s: State, length: real)
    requires Inv(cfg, s) && Manned(s) && s.running && s.worker.Waiting?
    ensures var t := Works(cfg, s, length, 4);
            && t.published == t.requested == s.requested && t.worker == Waiting(s.requested) && t.running
            && (s.published != s.requested ==>
                  UpToDate(t) && t.plans == s.plans + [Plan(|s.issues| - 1, s.elapsed + cfg.lookahead + Max(0.0, length))])
            && (s.published == s.requested ==> t == s)
  {
    hide Inv, Works, SelectMode;
    if s.published == s.requested {
      Idles(cfg, s, length, 4);
    } else {
      RoundEnds(cfg, s, length);
      RoundIsUpToDate(cfg, s, s.elapsed + cfg.lookahead + Max(0.0, length));
    }
  }

  lemma AnsweredKeeps(cfg: Config, s: State, length: real)
    requires Inv(cfg, s) && s.running && s.worker.Generating?
    ensures s.worker.source < |s.issues|
        && Inv(cfg, Answered(cfg, s, s.worker.source, s.worker.elapsed + cfg.lookahead + Max(0.0, length)))
  {
    hide SelectMode, CommandChanged, IssuesSound;
  }

  /** The worker's way back to waiting, from wherever it is. */
  lemma BackToWaiting(cfg: Config, s: State, length: real) returns (n: nat)
    requires Inv(cfg, s) && Manned(s) && s.running && !s.worker.Failing?
    ensures var t := Works(cfg, s, length, n);
            && n <= 3 && t.running && t.worker.Waiting? && Inv(cfg, t) && Manned(t)
            && t.requested == s.requested && t.issues == s.issues && t.command == s.command
  {
    hide Inv, Manned, SelectMode, Works, Next;
    NotGone(s);
    if s.worker.Waiting? {
      n := 0;
      WorksNone(cfg, s, length);
    } else if s.worker.Generating? {
      n := 3;
      GeneratingEnds(cfg, s, length);
    } else if s.worker.Generated? {
      n := 2;
      GeneratedEnds(cfg, s, length);
    } else {
      n := 1;
      WorksOne(cfg, s, length);
      LastStep(cfg, s, length);
    }
    KeptBy(cfg, s, length, n);
  }

  lemma NotGone(s: State)
    requires Manned(s) && s.running
    ensures !s.worker.Gone? && s.issues != []
  {}

  lemma WorksNone(cfg: Config, s: State, length: real)
    ensures Works(cfg, s, length, 0) == s
  {}

  lemma {:induction false} KeptBy(cfg: Config, s: State, length: real, n: nat)
    requires Inv(cfg, s) && Manned(s)
    ensures Inv(cfg, Works(cfg, s, length, n)) && Manned(Works(cfg, s, length, n))
    decreases n
  {
    hide Inv, Manned, Next;
    if n > 0 {
      var e := OnWork(true, false, Some(length));
      NextKeeps(cfg, s, e);
      MannedStep(cfg, s, e);
      KeptBy(cfg, Next(cfg, s, e), length, n - 1);
    }
  }

  /** Where one step leads that ends a stage. */
  lemma LastStep(cfg: Config, s: State, length: real)
    requires Inv(cfg, s) && s.running && (s.worker.Loading? || s.worker.Blending?)
    ensures var t := Next(cfg, s, OnWork(true, false, Some(length)));
            t.running && t.worker.Waiting? && t.requested == s.requested && t.issues == s.issues && t.command == s.command
  {
    hide SelectMode, CommandChanged, IssuesSound;
  }

  lemma GeneratedEnds(cfg: Config, s: State, length: real)
    requires Inv(cfg, s) && s.running && s.worker.Generated?
    ensures var t := Works(cfg, s, length, 2);
            t.running && t.worker.Waiting? && t.requested == s.requested && t.issues == s.issues && t.command == s.command
  {
    hide SelectMode, CommandChanged, IssuesSound;
    WorksJoin(cfg, s, length, 1, 1);
    WorksOne(cfg, s, length);
    WorksOne(cfg, Next(cfg, s, OnWork(true, false, Some(length))), length);
  }

  lemma GeneratingEnds(cfg: Config, s: State, length: real)
    requires Inv(cfg, s) && s.running && s.worker.Generating?
    ensures var t := Works(cfg, s, length, 3);
            t.running && t.worker.Waiting? && t.requested == s.requested && t.issues == s.issues && t.command == s.command
  {
    AnsweredKeeps(cfg, s, length);
    hide Inv, SelectMode, Works;
    PlanEnds(cfg, s, length);
  }

  /** Every change of command is answered: from each state of each run in which the planner runs and
      has not failed, at most seven steps of the worker in which nothing fails publish a motion of
      the newest generation, and the worker then rests. If the worker was waiting, that motion is
      planned from the newest hand-over. */
  lemma CommandsAreAnswered(cfg: Config, events: seq<Event>, length: real) returns (n: nat)
    requires Run(cfg, events).running && !Run(cfg, events).worker.Failing?
    ensures var s, t := Run(cfg, events), Works(cfg, Run(cfg, events), length, n);
            && n <= 7 && t.published == t.requested == s.requested && t.worker == Waiting(s.requested) && t.running
            && t.command == s.command
            && (s.worker.Waiting? && s.published != s.requested ==>
                  s.issues != [] && t.plans == s.plans + [Plan(|s.issues| - 1, s.elapsed + cfg.lookahead + Max(0.0, length))])
  {
    RunHolds(cfg, events);
    RunManned(cfg, events);
    hide Run, Inv, Manned, Works, Next;
    var s := Run(cfg, events);
    NotGone(s);
    if s.worker.Waiting? {
      n := 4;
      WaitingAnswers(cfg, s, length);
      CommandStays(cfg, s, length, 4);
    } else {
      var m := BackToWaiting(cfg, s, length);
      var w := Works(cfg, s, length, m);
      WaitingAnswers(cfg, w, length);
      CommandStays(cfg, w, length, 4);
      WorksJoin(cfg, s, length, m, 4);
      n := m + 4;
    }
  }

  /** Some component has changed by more than the tolerance. */
  predicate Differs(cfg: Config, c: Twist, d: Twist) {
    var e := cfg.epsilon;
    || c.vx - d.vx > e || d.vx - c.vx > e || c.vy - d.vy > e || d.vy - c.vy > e || c.wz - d.wz > e || d.wz - c.wz > e
  }

  /** A command that differs from the one before it is planned: a few successful steps of a waiting
      worker later a motion generated from it is published. One that does not differ leaves the
      worker at rest, with nothing outstanding, unless something was. */
  lemma ChangeIsAnswered(cfg: Config, events: seq<Event>, c: Twist, elapsed: real, length: real) returns (n: nat)
    requires Run(cfg, events).running && !Run(cfg, events).joining && Run(cfg, events).worker.Waiting?
    ensures var s, u := Run(cfg, events), Run(cfg, events + [OnUpdate(c, elapsed)]);
            var t := Works(cfg, u, length, n);
            && t.command == c
            && (if Differs(cfg, c, s.command) then
                  && t.published == t.requested == s.requested + 1 && |t.plans| == |s.plans| + 1
                  && t.plans[|s.plans|].source < |u.issues| && u.issues[t.plans[|s.plans|].source] == Issue(c, s.requested + 1)
                else
                  && t.requested == s.requested
                  && (s.published == s.requested ==> u.worker == s.worker && u.published == u.requested))
  {
    var all := events + [OnUpdate(c, elapsed)];
    assert all[..|all| - 1] == events;
    var s := Run(cfg, events);
    UpdateExactly(cfg, s, c, elapsed);
    UpdateKeepsWorker(cfg, s, c, elapsed);
    PublishedWasRequested(cfg, events);
    hide Run, Works, Next;
    n := CommandsAreAnswered(cfg, all, length);
  }

  lemma UpdateKeepsWorker(cfg: Config, s: State, c: Twist, elapsed: real)
    requires !s.joining
    ensures var t := Next(cfg, s, OnUpdate(c, elapsed));
            t.running == s.running && t.published == s.published && t.worker == s.worker
  {}

  lemma {:induction false} CommandStays(cfg: Config, s: State, length: real, n: nat)
    ensures Works(cfg, s, length, n).command == s.command
    decreases n
  {
    if n > 0 {
      var e := OnWork(true, false, Some(length));
      CommandStays(cfg, Next(cfg, s, e), length, n - 1);
      WorkKeepsCommand(cfg, s, length);
    }
    hide Next;
  }

  lemma WorkKeepsCommand(cfg: Config, s: State, length: real)
    ensures Next(cfg, s, OnWork(true, false, Some(length))).command == s.command
  {
    hide SelectMode, NeedsPeriodicReplan;
  }

  /** The planner fails exactly when loading fails, or an exception of a round meets a planner that
      still runs; a failed planner does not run. */
  lemma FailsExactly(cfg: Config, s: State, loads: bool, due: bool, length: Option<real>)
    requires !s.failed
    ensures var t := Next(cfg, s, OnWork(loads, due, length));
            && (t.failed <==> (s.worker.Loading? && !loads) || (s.worker.Failing? && s.running))
            && (t.failed ==> !t.running && t.worker.Gone?)
            && (t.worker.Failing? <==> (s.worker.Generating? || s.worker.Blending?) && length.None?)
  {
    hide SelectMode, NeedsPeriodicReplan;
  }
}
