/** The RL protocol round by round: what a control run and an inference come to when the other
    thread does not interfere, when samples are released, and what becomes of each that is taken. */
module RlRounds {
  import opened Curves
  import opened RobotBase
  import opened RlPipeline

  // ---------------------------------------------------------------- one control run

  /** The control thread alone, finding every lock free. */
  function ControlAlone(cfg: Config, s: State, targetOk: bool, n: nat): State {
    if n == 0 then s else Next(cfg, ControlAlone(cfg, s, targetOk, n - 1), Event.Control(targetOk, false))
  }

  lemma {:induction false} ControlThen(cfg: Config, s: State, targetOk: bool, n: nat)
    ensures ControlAlone(cfg, s, targetOk, n + 1) == ControlAlone(cfg, Next(cfg, s, Event.Control(targetOk, false)), targetOk, n)
  {
    hide Next;
    if n > 0 {
      ControlThen(cfg, s, targetOk, n - 1);
    } else {
      assert ControlAlone(cfg, s, targetOk, 1) == Next(cfg, ControlAlone(cfg, s, targetOk, 0), Event.Control(targetOk, false));
    }
  }

  lemma {:induction false} RestsOn(cfg: Config, s: State, targetOk: bool, n: nat)
    requires s.control.Resting?
    ensures ControlAlone(cfg, s, targetOk, n) == s
  {
    if n > 0 {
      RestsOn(cfg, s, targetOk, n - 1);
    }
  }

  /** Both buffers are free, as between the steps of either thread. */
  predicate Quiet(s: State) { s.inbox.owner == Free && s.outbox.owner == Free }

  /** The command in use is too old, or the first one overdue. */
  predicate Overdue(cfg: Config, s: State) {
    if s.outbox.full then cfg.maxAge > 0.0 && s.clock - s.outbox.at > cfg.maxAge
    else cfg.firstTimeout > 0.0 && s.clock - s.entered > cfg.firstTimeout
  }

  predicate Unapplied(s: State) { s.outbox.full && s.outbox.count != s.appliedCount }

  /** What a run records as a fault, if anything. */
  function FaultOfRun(cfg: Config, s: State, dt: real, rlDt: real, tilted: bool, targetOk: bool): Option<FaultCode> {
    if dt <= 0.0 || rlDt <= 0.0 then Some(InvalidData)
    else if tilted then Some(LimitExceeded)
    else if Overdue(cfg, s) then Some(if s.outbox.full then CommandTimeout else InferenceTimeout)
    else if Unapplied(s) && !targetOk then Some(InvalidData)
    else None
  }

  /** A run in which the policy's period is up. */
  predicate ReleasesNow(s: State, dt: real, rlDt: real, tilted: bool) {
    dt > 0.0 && rlDt > 0.0 && !tilted && s.sinceInfer + dt >= rlDt
  }

  /** The sample a run releases. */
  function SampleOf(s: State, sensor: int, command: int): Sample { Sample(s.releases + 1, s.clock, sensor, command) }

  lemma TwoSteps(cfg: Config, s: State, targetOk: bool, one: State, two: State)
    requires one == ControlStep(cfg, s, targetOk, false) && two == ControlStep(cfg, one, targetOk, false)
    ensures ControlAlone(cfg, s, targetOk, 2) == two
  {
    hide ControlStep;
    ControlThen(cfg, s, targetOk, 1);
    ControlThen(cfg, one, targetOk, 0);
  }

  lemma ThreeSteps(cfg: Config, s: State, targetOk: bool, one: State, two: State, three: State)
    requires one == ControlStep(cfg, s, targetOk, false) && two == ControlStep(cfg, one, targetOk, false)
    requires three == ControlStep(cfg, two, targetOk, false)
    ensures ControlAlone(cfg, s, targetOk, 3) == three
  {
    hide ControlStep;
    ControlThen(cfg, s, targetOk, 2);
    TwoSteps(cfg, one, targetOk, two, three);
  }

  /** From a release to the look at the action. */
  lemma ReleasePart(cfg: Config, s: State, targetOk: bool)
    requires s.control.Releasing? && Quiet(s)
    ensures var c := s.control; var sample := Sample(s.releases + 1, c.time, c.sensor, c.command);
            ControlAlone(cfg, s, targetOk, 3) ==
            s.(releases := s.releases + 1, released := s.released + [sample], control := Looking(s.clock, c.rlDt),
               inbox := Inbox(Free, sample.number, sample.released, sample.sensor, sample.command, true))
  {
    hide ControlAlone, Look, LookAgain, ApplyAction, FinishApply;
    var c := s.control;
    var one := Release(s, c.time, c.sensor, c.command, c.rlDt, false);
    var two := one.(inbox := one.inbox.(sensor := c.sensor), control := WritingCommand(c.command, c.rlDt));
    var three := two.(inbox := two.inbox.(owner := Free, command := c.command, unread := true),
      control := Looking(s.clock, c.rlDt));
    ThreeSteps(cfg, s, targetOk, one, two, three);
  }

  lemma OverduePart(cfg: Config, s: State, targetOk: bool)
    requires s.control.Looking? && s.control.now == s.clock && Quiet(s) && Overdue(cfg, s)
    ensures var code := if s.outbox.full then CommandTimeout else InferenceTimeout;
            ControlAlone(cfg, s, targetOk, 3) == s.(fault := FirstOf(s.fault, code), triggered := true, control := Resting)
  {
    hide ControlAlone, ApplyAction, FinishApply, Release;
    var code := if s.outbox.full then CommandTimeout else InferenceTimeout;
    var one := Report(s, code, true);
    var two := s.(fault := FirstOf(s.fault, code), triggered := true, control := Resting);
    ThreeSteps(cfg, s, targetOk, one, two, two);
  }

  lemma NothingNewPart(cfg: Config, s: State, targetOk: bool)
    requires s.control.Looking? && s.control.now == s.clock && Quiet(s) && !Overdue(cfg, s) && !Unapplied(s)
    ensures var seen := if s.outbox.full then Some(s.outbox.at) else None;
            ControlAlone(cfg, s, targetOk, 3) == s.(control := Resting, passed := s.passed + [Pass(s.clock, seen, false)])
  {
    hide ControlAlone, ApplyAction, FinishApply, Release;
    var seen := if s.outbox.full then Some(s.outbox.at) else None;
    var one := s.(control := Resting, passed := s.passed + [Pass(s.clock, seen, false)]);
    ThreeSteps(cfg, s, targetOk, one, one, one);
  }

  /** An action that has not been put out, from the look to the end. */
  lemma ApplyPart(cfg: Config, s: State, targetOk: bool)
    requires s.control.Looking? && s.control.now == s.clock && Quiet(s) && !Overdue(cfg, s) && Unapplied(s)
    requires s.appliedCount <= s.outbox.count
    ensures var t := ControlAlone(cfg, s, targetOk, 3);
            if targetOk then
              t == s.(control := Resting, blend := t.blend, appliedCount := s.outbox.count,
                      applied := s.applied + [Application(s.outbox.count, s.outbox.number, s.outbox.action, s.outbox.at, s.clock)],
                      passed := s.passed + [Pass(s.clock, Some(s.outbox.at), false)])
            else t == s.(control := Resting, blend := t.blend, fault := FirstOf(s.fault, InvalidData), triggered := true)
  {
    hide ControlAlone, Release, Credited;
    var one := s.(outbox := s.outbox.(owner := ByControl), control := Applying(s.clock, s.control.rlDt));
    var two := ApplyAction(cfg, one, s.clock, s.control.rlDt, targetOk);
    var three := ControlStep(cfg, two, targetOk, false);
    ThreeSteps(cfg, s, targetOk, one, two, three);
  }

  /** From the look at the action to the end of the run. */
  lemma LookPart(cfg: Config, s: State, targetOk: bool)
    requires s.control.Looking? && s.control.now == s.clock && Quiet(s) && s.appliedCount <= s.outbox.count
    ensures Looked(cfg, s, ControlAlone(cfg, s, targetOk, 3), targetOk)
  {
    hide ControlAlone;
    if Overdue(cfg, s) {
      OverduePart(cfg, s, targetOk);
    } else if Unapplied(s) {
      ApplyPart(cfg, s, targetOk);
    } else {
      NothingNewPart(cfg, s, targetOk);
    }
  }

  /** A run has gone from the look at the action to its end. */
  predicate Looked(cfg: Config, s: State, t: State, targetOk: bool) {
    var fault := FaultOfRun(cfg, s, 1.0, 1.0, false, targetOk);
    && t.control.Resting? && t.triggered == (s.triggered || fault.Some?)
    && t.fault == (if s.fault.Some? then s.fault else fault)
    && t.outbox == s.outbox && t.inbox == s.inbox && t.released == s.released
    && t.sinceInfer == s.sinceInfer && t.inference == s.inference && t.published == s.published
    && t.applied == s.applied +
         (if fault.None? && Unapplied(s)
          then [Application(s.outbox.count, s.outbox.number, s.outbox.action, s.outbox.at, s.clock)] else [])
  }

  /** How a run begins. */
  lemma BeginPart(cfg: Config, s: State, dt: real, rlDt: real, tilted: bool, sensor: int, command: int)
    requires s.control.Resting? && !s.triggered
    ensures var b := Next(cfg, s, BeginRun(dt, rlDt, tilted, sensor, command));
            if dt <= 0.0 || rlDt <= 0.0 then b == s.(fault := FirstOf(s.fault, InvalidData), control := Alarming(false))
            else if tilted then b == s.(fault := FirstOf(s.fault, LimitExceeded), control := Alarming(false))
            else
              b == s.(sinceInfer := b.sinceInfer,
                      control := if s.sinceInfer + dt >= rlDt then Releasing(s.clock, sensor, command, rlDt)
                                 else Looking(s.clock, rlDt))
  {
    hide Remainder;
  }

  /** A whole control run that the inference thread does not disturb. It releases a sample exactly if
      the policy's period is up, records a fault exactly if its periods are not positive, the robot
      is tilted, the command is too old or the first one overdue, or a new target is refused; and
      otherwise it puts out the newest action exactly if there is one it has not yet put out. */
  lemma ControlRun(cfg: Config, s: State, dt: real, rlDt: real, tilted: bool, sensor: int, command: int, targetOk: bool)
    requires ValidConfig(cfg) && Inv(cfg, s) && s.control.Resting? && !s.triggered && Quiet(s)
    ensures var t := ControlAlone(cfg, Next(cfg, s, BeginRun(dt, rlDt, tilted, sensor, command)), targetOk, 6);
            var fault, releases := FaultOfRun(cfg, s, dt, rlDt, tilted, targetOk), ReleasesNow(s, dt, rlDt, tilted);
            && t.control.Resting? && (t.triggered <==> fault.Some?) && t.fault == (if s.fault.Some? then s.fault else fault)
            && t.released == s.released + (if releases then [SampleOf(s, sensor, command)] else [])
            && t.inbox == (if releases then Inbox(Free, s.releases + 1, s.clock, sensor, command, true) else s.inbox)
            && t.outbox == s.outbox && t.inference == s.inference && t.published == s.published
            && t.applied == s.applied +
                 (if fault.None? && Unapplied(s)
                  then [Application(s.outbox.count, s.outbox.number, s.outbox.action, s.outbox.at, s.clock)] else [])
  {
    hide Inv, ControlAlone, Next;
    BehindCache(cfg, s);
    BeginPart(cfg, s, dt, rlDt, tilted, sensor, command);
    var b := Next(cfg, s, BeginRun(dt, rlDt, tilted, sensor, command));
    if b.control.Alarming? {
      AlarmPart(cfg, b, targetOk);
    } else {
      Joined(cfg, b, targetOk, 3, 3);
      if b.control.Looking? {
        LookPart(cfg, b, targetOk);
        RestsOn(cfg, ControlAlone(cfg, b, targetOk, 3), targetOk, 3);
      } else {
        ReleasePart(cfg, b, targetOk);
        LookPart(cfg, ControlAlone(cfg, b, targetOk, 3), targetOk);
      }
    }
  }

  lemma BehindCache(cfg: Config, s: State)
    requires Inv(cfg, s)
    ensures s.appliedCount <= s.outbox.count
  {}

  lemma AlarmPart(cfg: Config, s: State, targetOk: bool)
    requires s.control == Alarming(false)
    ensures ControlAlone(cfg, s, targetOk, 6) == s.(triggered := true, control := Resting)
  {
    ControlThen(cfg, s, targetOk, 5);
    RestsOn(cfg, Next(cfg, s, Event.Control(targetOk, false)), targetOk, 5);
  }

  lemma {:induction false} Joined(cfg: Config, s: State, targetOk: bool, n: nat, m: nat)
    ensures ControlAlone(cfg, s, targetOk, n + m) == ControlAlone(cfg, ControlAlone(cfg, s, targetOk, n), targetOk, m)
  {
    hide Next;
    if m > 0 {
      Joined(cfg, s, targetOk, n, m - 1);
    }
  }

  // ---------------------------------------------------------------- the policy's period

  /** Whole periods that are up in a run: at least one exactly if the run releases. */
  function PeriodsUp(s: State, dt: real, rlDt: real): int
    requires rlDt > 0.0
  {
    if s.sinceInfer + dt >= rlDt then ((s.sinceInfer + dt) / rlDt).Floor else 0
  }

  /** Control time that has counted towards the period: of runs that begin, with valid periods and
      a robot that is not tilted. */
  function CountedTime(cfg: Config, now: real, events: seq<Event>): real {
    if events == [] then 0.0
    else
      var s, e := Run(cfg, now, events[..|events| - 1]), events[|events| - 1];
      CountedTime(cfg, now, events[..|events| - 1]) + if Counts(s, e) then e.dt else 0.0
  }

  predicate Counts(s: State, e: Event) {
    e.BeginRun? && s.control.Resting? && !s.triggered && e.dt > 0.0 && e.rlDt > 0.0 && !e.tilted
  }

  lemma PeriodStep(cfg: Config, s: State, e: Event, period: real)
    requires period > 0.0 && (e.BeginRun? ==> e.rlDt == period) && 0.0 <= s.sinceInfer < period
    ensures var t := Next(cfg, s, e); 0.0 <= t.sinceInfer < period
    ensures var t := Next(cfg, s, e);
            Counts(s, e) ==>
              && t.sinceInfer == s.sinceInfer + e.dt - Times(PeriodsUp(s, e.dt, period) as real, period)
              && (t.control.Releasing? <==> PeriodsUp(s, e.dt, period) >= 1)
    ensures !Counts(s, e) ==> Next(cfg, s, e).sinceInfer == s.sinceInfer
  {
    hide Late, Expired, Credited, Remainder, Min, Max, Times;
    if Counts(s, e) {
      RemainderWithin(s.sinceInfer + e.dt, period);
      NoPeriods(period);
    }
  }

  lemma NoPeriods(period: real)
    ensures Times(0.0, period) == 0.0
  {}

  lemma RemainderWithin(x: real, period: real)
    requires period > 0.0 && x >= 0.0
    ensures 0.0 <= Remainder(x, period) < period && (x >= period <==> (x / period).Floor >= 1)
    ensures x < period ==> (x / period).Floor == 0
    ensures Remainder(x, period) == x - Times((x / period).Floor as real, period)
  {
    var q := x / period;
    WholePart(q, period, x);
    InUnits(q, period, x);
  }

  lemma InUnits(q: real, period: real, x: real)
    requires period > 0.0 && q == x / period
    ensures x == Times(q, period) && (x >= 0.0 ==> q >= 0.0) && (x >= period <==> q >= 1.0)
  {
    assert x == q * period;
    if q < 1.0 {
      Positive(1.0 - q, period);
      assert Times(1.0 - q, period) == period - x;
    } else {
      Nonnegative(q - 1.0, period);
      assert Times(q - 1.0, period) == x - period;
    }
    if q < 0.0 {
      Positive(-q, period);
      assert Times(-q, period) == -x;
    }
  }

  lemma WholePart(q: real, period: real, x: real)
    requires period > 0.0 && q == x / period
    ensures 0.0 <= x - Times(q.Floor as real, period) < period
  {
    var part := q - q.Floor as real;
    InUnits(q, period, x);
    Nonnegative(part, period);
    Positive(1.0 - part, period);
    assert Times(1.0 - part, period) == period - Times(part, period);
    assert Times(part, period) == Times(q, period) - Times(q.Floor as real, period);
  }

  /** Whole periods of the counted time up to now. */
  ghost predicate OnBeat(cfg: Config, now: real, events: seq<Event>, period: real, k: int) {
    CountedTime(cfg, now, events) == Times(k as real, period) + Run(cfg, now, events).sinceInfer
  }

  /** In every run with one policy period the time since the last release is the counted control time
      less whole periods; so a sample is due exactly in the runs that complete a period, however
      control periods vary. */
  lemma {:induction false} ReleasesKeepBeat(cfg: Config, now: real, events: seq<Event>, period: real) returns (k: int)
    requires period > 0.0 && Steady(events, period)
    ensures OnBeat(cfg, now, events, period, k) && 0.0 <= Run(cfg, now, events).sinceInfer < period
    decreases |events|
  {
    hide Next, Times, PeriodsUp;
    NoPeriods(period);
    if events == [] {
      k := 0;
    } else {
      var shorter, e := events[..|events| - 1], events[|events| - 1];
      k := ReleasesKeepBeat(cfg, now, shorter, period);
      var s := Run(cfg, now, shorter);
      PeriodStep(cfg, s, e, period);
      if Counts(s, e) {
        MorePeriods(k, PeriodsUp(s, e.dt, period), period);
        k := k + PeriodsUp(s, e.dt, period);
      }
    }
  }

  lemma MorePeriods(k: int, more: int, period: real)
    ensures Times((k + more) as real, period) == Times(k as real, period) + Times(more as real, period)
  {
    assert (k + more) as real == k as real + more as real;
  }

  // ---------------------------------------------------------------- one inference

  /** The inference thread alone; `outcome` is what computing comes to. */
  function InferAlone(cfg: Config, s: State, outcome: Outcome, n: nat): State
    decreases n
  {
    if n == 0 then s else InferAlone(cfg, Next(cfg, s, Infer(outcome)), outcome, n - 1)
  }

  lemma {:induction false} WaitsOn(cfg: Config, s: State, outcome: Outcome, n: nat)
    requires s.inference.Stopped? || (s.inference.Waiting? && s.running && !s.inbox.unread)
    ensures InferAlone(cfg, s, outcome, n) == s
  {
    if n > 0 {
      WaitsOn(cfg, s, outcome, n - 1);
    }
  }

  /** The released sample that waits to be inferred. */
  function Pending(s: State): Sample { Sample(s.inbox.number, s.inbox.released, s.inbox.sensor, s.inbox.command) }

  predicate PastDeadline(cfg: Config, s: State) { cfg.deadline > 0.0 && s.clock - s.inbox.released > cfg.deadline }

  /** The fault of an inference, if any: an exception, a late result unless those are discarded, or
      an unusable action. */
  function FaultOfInference(cfg: Config, s: State, outcome: Outcome): Option<FaultCode> {
    if outcome.Throws? then Some(InternalError)
    else if PastDeadline(cfg, s) then if cfg.discardLate then None else Some(InferenceTimeout)
    else if outcome.action.None? then Some(InvalidData) else None
  }

  lemma TakePart(cfg: Config, s: State, outcome: Outcome, n: nat)
    requires s.inference.Waiting? && s.running && s.inbox.unread && Quiet(s)
    ensures InferAlone(cfg, s, outcome, n + 3) ==
            InferAlone(cfg, s.(started := s.started + [s.inbox.number], inbox := s.inbox.(unread := false),
                               inference := Computing(Pending(s))), outcome, n)
  {
    hide Compute, InferAlone;
    var one := Next(cfg, s, Infer(outcome));
    var two := Next(cfg, one, Infer(outcome));
    var three := Next(cfg, two, Infer(outcome));
    InferThen(cfg, s, outcome, n + 2);
    InferThen(cfg, one, outcome, n + 1);
    InferThen(cfg, two, outcome, n);
  }

  lemma InferThen(cfg: Config, s: State, outcome: Outcome, n: nat)
    ensures InferAlone(cfg, s, outcome, n + 1) == InferAlone(cfg, Next(cfg, s, Infer(outcome)), outcome, n)
  {
    hide Next;
  }

  lemma PublishPart(cfg: Config, s: State, outcome: Outcome)
    requires s.inference.Computed? && s.outbox.owner == Free
    ensures var i := s.inference;
            InferAlone(cfg, s, outcome, 3) ==
            s.(inference := Waiting, lastPublished := Some(s.clock), verdicts := s.verdicts + [Kept(i.sample.number)],
               outbox := Outbox(Free, i.action, true, i.sample.number, s.clock, s.outbox.count + 1),
               published := s.published + [Publication(i.sample, i.action, i.finish, s.clock)])
  {
    hide Compute, InferAlone;
    var one := Next(cfg, s, Infer(outcome));
    var two := Next(cfg, one, Infer(outcome));
    var three := Next(cfg, two, Infer(outcome));
    InferThen(cfg, s, outcome, 2);
    InferThen(cfg, one, outcome, 1);
    InferThen(cfg, two, outcome, 0);
    NoSteps(cfg, three, outcome);
  }

  lemma NoSteps(cfg: Config, s: State, outcome: Outcome)
    ensures InferAlone(cfg, s, outcome, 0) == s
  {}

  /** A whole inference that the control thread does not disturb. It takes the newest sample, and
      publishes the action computed from it exactly if that was in time and usable; it is a fault
      exactly as said, and a discarded result leaves nothing behind. */
  lemma InferenceRun(cfg: Config, s: State, outcome: Outcome)
    requires s.inference.Waiting? && s.running && s.inbox.unread && Quiet(s)
    ensures var t := InferAlone(cfg, s, outcome, 7); var fault := FaultOfInference(cfg, s, outcome);
            && t.started == s.started + [s.inbox.number]
            && t.triggered == (s.triggered || fault.Some?) && t.fault == (if s.fault.Some? then s.fault else fault)
            && t.inference == (if fault.Some? then Stopped else Waiting)
            && (if fault.None? && !PastDeadline(cfg, s) then
                  && t.published == s.published + [Publication(Pending(s), outcome.action.value, s.clock, s.clock)]
                  && t.outbox == Outbox(Free, outcome.action.value, true, s.inbox.number, s.clock, s.outbox.count + 1)
                else t.published == s.published && t.outbox == s.outbox)
            && t.control == s.control && t.applied == s.applied && t.inbox == s.inbox.(unread := false)
  {
    hide InferAlone;
    var c := s.(started := s.started + [s.inbox.number], inbox := s.inbox.(unread := false), inference := Computing(Pending(s)));
    TakePart(cfg, s, outcome, 4);
    InferThen(cfg, c, outcome, 3);
    var d := Next(cfg, c, Infer(outcome));
    if d.inference.Computed? {
      PublishPart(cfg, d, outcome);
    } else if d.inference.Waiting? {
      WaitsOn(cfg, d, outcome, 3);
    } else {
      InferThen(cfg, d, outcome, 2);
      WaitsOn(cfg, Next(cfg, d, Infer(outcome)), outcome, 2);
    }
  }

  /** When the inference thread stays where it is: stopped, with no sample to take, or while the other
      thread holds the buffer it needs. */
  lemma InferenceRestsExactly(cfg: Config, s: State, outcome: Outcome)
    requires ValidConfig(cfg) && Inv(cfg, s)
    ensures Next(cfg, s, Infer(outcome)) == s <==>
            || s.inference.Stopped?
            || (s.inference.Waiting? && s.running && (!s.inbox.unread || s.inbox.owner != Free))
            || (s.inference.Computed? && s.outbox.owner != Free)
  {
    var t := Next(cfg, s, Infer(outcome));
    hide Inv, Late;
    if s.inference.Publishing? {
      assert |t.published| == |s.published| + 1;
    }
  }

  /** In terms of the step: a step of inference records a fault exactly when it has computed, and the
      computation threw while the state was running, was late without being discarded, or unusable. */
  lemma InferenceFaultsExactly(cfg: Config, s: State, outcome: Outcome, code: FaultCode)
    requires s.fault.None?
    ensures Next(cfg, s, Infer(outcome)).fault == Some(code) <==>
            && s.inference.Computing?
            && var late := cfg.deadline > 0.0 && s.clock - s.inference.sample.released > cfg.deadline;
               || (code == InternalError && outcome.Throws? && s.running)
               || (code == InferenceTimeout && outcome.Returns? && late && !cfg.discardLate)
               || (code == InvalidData && outcome.Returns? && !late && outcome.action.None?)
  {}

  // ---------------------------------------------------------------- what becomes of a sample

  function IdOf(v: Verdict): nat { if v.Kept? then v.number else v.sample.number }

  function Ids(verdicts: seq<Verdict>): (r: seq<nat>)
    ensures |r| == |verdicts| && forall i | 0 <= i < |r| :: r[i] == IdOf(verdicts[i])
  {
    seq(|verdicts|, i requires 0 <= i < |verdicts| => IdOf(verdicts[i]))
  }

  function KeptOf(verdicts: seq<Verdict>): seq<nat> {
    if verdicts == [] then []
    else
      KeptOf(verdicts[..|verdicts| - 1]) + if verdicts[|verdicts| - 1].Kept? then [verdicts[|verdicts| - 1].number] else []
  }

  lemma VerdictAppend(verdicts: seq<Verdict>, v: Verdict)
    ensures Ids(verdicts + [v]) == Ids(verdicts) + [IdOf(v)]
    ensures KeptOf(verdicts + [v]) == KeptOf(verdicts) + if v.Kept? then [v.number] else []
  {
    assert (verdicts + [v])[..|verdicts|] == verdicts;
  }

  /** A discarded sample was late, and late ones are discarded. */
  predicate Justified(cfg: Config, v: Verdict) {
    v.Discarded? ==> cfg.discardLate && cfg.deadline > 0.0 && v.at - v.sample.released > cfg.deadline
  }

  /** Each started sample has its verdict, except the one in hand, or the one of a fault. */
  ghost predicate Accounted(cfg: Config, i: Inference, started: seq<nat>, verdicts: seq<Verdict>, published: seq<Publication>) {
    && KeptOf(verdicts) == Numbers(published)
    && (forall k | 0 <= k < |verdicts| :: Justified(cfg, verdicts[k]))
    && (if i.Waiting? || i.Unlocking? then Ids(verdicts) == started
        else if RlPipeline.Holding(i) then started != [] && Ids(verdicts) == started[..|started| - 1]
        else Ids(verdicts) == started || (started != [] && Ids(verdicts) == started[..|started| - 1]))
  }

  /** The sample in hand gets its verdict. */
  lemma VerdictGiven(cfg: Config, s: State, v: Verdict, published: seq<Publication>, i: Inference)
    requires Inv(cfg, s) && Accounted(cfg, s.inference, s.started, s.verdicts, s.published)
    requires (s.inference.Computing? || s.inference.Publishing?) && IdOf(v) == s.inference.sample.number && Justified(cfg, v)
    requires Numbers(published) == Numbers(s.published) + (if v.Kept? then [v.number] else [])
    requires i.Waiting? || i.Unlocking?
    ensures Accounted(cfg, i, s.started, s.verdicts + [v], published)
  {
    hide KeptOf, Numbers, Ids, Inv;
    HeldIsLast(cfg, s);
    VerdictAppend(s.verdicts, v);
    assert s.started == s.started[..|s.started| - 1] + [s.started[|s.started| - 1]];
  }

  lemma AccountedStep(cfg: Config, s: State, outcome: Outcome)
    requires ValidConfig(cfg) && Inv(cfg, s) && Accounted(cfg, s.inference, s.started, s.verdicts, s.published)
    ensures var t := InferenceStep(cfg, s, outcome); Accounted(cfg, t.inference, t.started, t.verdicts, t.published)
  {
    hide KeptOf, Numbers, Ids, Inv;
    match s.inference
    case Computing(sample) =>
      var t := InferenceStep(cfg, s, outcome);
      if t.inference.Waiting? {
        VerdictGiven(cfg, s, Discarded(sample, s.clock), s.published, Waiting);
      }
    case Publishing(sample, action, finish) =>
      var p := Publication(sample, action, finish, s.clock);
      NumbersAppend(s.published, p);
      VerdictGiven(cfg, s, Kept(sample.number), s.published + [p], Unlocking);
    case Waiting =>
      assert (s.started + [s.inbox.number])[..|s.started|] == s.started;
    case _ =>
  }

  lemma NumbersAppend(published: seq<Publication>, p: Publication)
    ensures Numbers(published + [p]) == Numbers(published) + [p.sample.number]
  {}

  lemma HeldIsLast(cfg: Config, s: State)
    requires Inv(cfg, s) && s.started != [] && (s.inference.Computing? || s.inference.Publishing?)
    ensures s.inference.sample.number == s.started[|s.started| - 1]
  {}

  lemma ControlLeaves(cfg: Config, s: State, e: Event)
    requires !e.Infer?
    ensures var t := Next(cfg, s, e);
            && t.inference == s.inference && t.started == s.started && t.verdicts == s.verdicts && t.published == s.published
  {
    hide ControlStep, Remainder, Max;
    match e
    case Control(targetOk, unlucky) => ControlStepLeaves(cfg, s, targetOk, unlucky);
    case _ =>
  }

  predicate InferenceSame(s: State, t: State) {
    t.inference == s.inference && t.started == s.started && t.verdicts == s.verdicts && t.published == s.published
  }

  lemma ControlStepLeaves(cfg: Config, s: State, targetOk: bool, unlucky: bool)
    ensures InferenceSame(s, ControlStep(cfg, s, targetOk, unlucky))
  {
    hide Look, LookAgain, ApplyAction;
    match s.control
    case Looking(now, rlDt) => LookLeaves(cfg, s, now, rlDt, unlucky);
    case Contended(now, seen) => AgainLeaves(cfg, s, now, seen);
    case Applying(now, rlDt) => if s.appliedCount <= s.outbox.count { ApplyLeaves(cfg, s, now, rlDt, targetOk); }
    case _ =>
  }

  lemma LookLeaves(cfg: Config, s: State, now: real, rlDt: real, unlucky: bool)
    ensures InferenceSame(s, Look(cfg, s, now, rlDt, unlucky))
  {
    hide Expired;
  }

  lemma AgainLeaves(cfg: Config, s: State, now: real, seen: Option<real>)
    ensures InferenceSame(s, LookAgain(cfg, s, now, seen))
  {
    hide Expired;
  }

  lemma ApplyLeaves(cfg: Config, s: State, now: real, rlDt: real, targetOk: bool)
    requires s.appliedCount <= s.outbox.count
    ensures InferenceSame(s, ApplyAction(cfg, s, now, rlDt, targetOk))
  {
    hide Credited;
  }

  lemma {:induction false} RunAccounted(cfg: Config, now: real, events: seq<Event>)
    requires ValidConfig(cfg)
    ensures var s := Run(cfg, now, events); Accounted(cfg, s.inference, s.started, s.verdicts, s.published)
    decreases |events|
  {
    if events != [] {
      hide Next, Inv, Accounted;
      var shorter, e := events[..|events| - 1], events[|events| - 1];
      var s := Run(cfg, now, shorter);
      RunAccounted(cfg, now, shorter);
      RunHolds(cfg, now, shorter);
      match e
      case Infer(outcome) =>
        InferNext(cfg, s, outcome);
        AccountedStep(cfg, s, outcome);
      case _ => ControlLeaves(cfg, s, e);
    }
  }

  lemma InferNext(cfg: Config, s: State, outcome: Outcome)
    ensures Next(cfg, s, Infer(outcome)) == InferenceStep(cfg, s, outcome)
  {}

  /** Under every interleaving no sample that was taken is lost in silence: while there is no fault
      and inference waits, each has been published or was discarded for being late, in the order in
      which they were taken; and if late results are not discarded, each has been published. */
  lemma NothingIsLost(cfg: Config, now: real, events: seq<Event>)
    requires ValidConfig(cfg) && Run(cfg, now, events).inference.Waiting?
    ensures var s := Run(cfg, now, events);
            && Ids(s.verdicts) == s.started && KeptOf(s.verdicts) == Numbers(s.published)
            && (forall k | 0 <= k < |s.verdicts| :: Justified(cfg, s.verdicts[k]))
            && (!cfg.discardLate ==> Numbers(s.published) == s.started)
  {
    hide Run;
    RunAccounted(cfg, now, events);
    var s := Run(cfg, now, events);
    if !cfg.discardLate {
      AllKept(cfg, s.verdicts);
    }
  }

  lemma {:induction false} AllKept(cfg: Config, verdicts: seq<Verdict>)
    requires !cfg.discardLate && forall k | 0 <= k < |verdicts| :: Justified(cfg, verdicts[k])
    ensures KeptOf(verdicts) == Ids(verdicts)
  {
    if verdicts != [] {
      var older, v := verdicts[..|verdicts| - 1], verdicts[|verdicts| - 1];
      assert verdicts == older + [v] && Justified(cfg, v);
      AllKept(cfg, older);
      VerdictAppend(older, v);
    }
  }
}
