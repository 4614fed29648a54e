/** The RL mode of state_rl.cpp as a protocol of two threads. The control thread releases sensor
    samples and applies actions, using its locks only if they are free; the inference thread
    takes the newest sample, computes and publishes. Every event is one atomic step. */
module RlPipeline {
  import opened Curves
  import opened RobotBase

  datatype Config = Config(
    deadline: real, discardLate: bool, firstTimeout: real, maxAge: real,
    blendDuration: real, poseMatches: bool)

  predicate ValidConfig(cfg: Config) {
    && cfg.deadline >= 0.0 && cfg.firstTimeout >= 0.0 && cfg.maxAge >= 0.0 && cfg.blendDuration >= 0.0
    && (cfg.discardLate ==> cfg.deadline > 0.0 && cfg.firstTimeout > 0.0 && cfg.maxAge > 0.0)
  }

  type Vector = seq<real>

  /** The content of one release: sensor and command readings under the release's number. */
  datatype Sample = Sample(number: nat, released: real, sensor: int, command: int)

  datatype Owner = Free | ByControl | ByInference

  /** The shared snapshot; its fields are written and copied one after the other. */
  datatype Inbox = Inbox(owner: Owner, number: nat, released: real, sensor: int, command: int, unread: bool)

  /** The action cache, likewise; `count` numbers the publications. */
  datatype Outbox = Outbox(owner: Owner, action: Vector, full: bool, number: nat, at: real, count: nat)

  datatype Control =
    | Resting
    | Releasing(time: real, sensor: int, command: int, rlDt: real)
    | WritingSensor(sensor: int, command: int, rlDt: real)
    | WritingCommand(command: int, rlDt: real)
    | Looking(now: real, rlDt: real)
    | Missing(now: real)
    | Contended(now: real, seen: Option<real>)
    | Applying(now: real, rlDt: real)
    | Finishing(now: real, action: Vector)
    | Alarming(locked: bool)

  datatype Inference =
    | Waiting
    | TakingSensor(number: nat, released: real)
    | TakingCommand(number: nat, released: real, sensor: int)
    | Computing(sample: Sample)
    | Computed(sample: Sample, action: Vector, finish: real)
    | Publishing(sample: Sample, action: Vector, finish: real)
    | Unlocking
    | Raising
    | Stopped

  datatype Publication = Publication(sample: Sample, action: Vector, finish: real, at: real)

  datatype Application = Application(index: nat, number: nat, action: Vector, at: real, now: real)

  /** A control run that ended without a fault: the publication time it went by, if there was
      any, and whether that was replaced while the run looked at it. */
  datatype Pass = Pass(now: real, seen: Option<real>, replaced: bool)

  /** Progress of the entry transition, the action time it was credited with, and how many
      credited actions were refused for their target. */
  datatype Blend = Blend(elapsed: real, credit: real, refused: nat)

  /** What became of a started sample: it was published, or late and discarded. */
  datatype Verdict = Kept(number: nat) | Discarded(sample: Sample, at: real)

  /** A fault is first recorded under its mutex, and then triggers the change of mode. */
  datatype State = State(
    clock: real, entered: real, running: bool, fault: Option<FaultCode>, triggered: bool, sinceInfer: real,
    inbox: Inbox, outbox: Outbox, lastPublished: Option<real>,
    control: Control, inference: Inference, releases: nat, appliedCount: nat, blend: Blend,
    released: seq<Sample>, started: seq<nat>, verdicts: seq<Verdict>, published: seq<Publication>,
    applied: seq<Application>, passed: seq<Pass>)

  function Enter(now: real): State {
    State(now, now, true, None, false, 0.0,
          Inbox(Free, 0, 0.0, 0, 0, false), Outbox(Free, [], false, 0, 0.0, 0), None,
          Resting, Waiting, 0, 0, Blend(0.0, 0.0, 0), [], [], [], [], [], [])
  }

  // ---------------------------------------------------------------- steps

  /** What inference comes to: an exception, or an action that may be unusable. */
  datatype Outcome = Throws | Returns(action: Option<Vector>)

  datatype Event =
    | Elapse(to: real)
    | BeginRun(dt: real, rlDt: real, tilted: bool, sensor: int, command: int)
    | Control(targetOk: bool, unlucky: bool)
    | Infer(outcome: Outcome)
    | Suspend

  /** The first fault sticks. */
  function FirstOf(fault: Option<FaultCode>, code: FaultCode): Option<FaultCode> {
    if fault.None? then Some(code) else fault
  }

  /** The control thread records a fault, perhaps with the action lock held. */
  function Report(s: State, code: FaultCode, locked: bool): State {
    s.(fault := FirstOf(s.fault, code), control := Alarming(locked),
       outbox := if locked then s.outbox.(owner := ByControl) else s.outbox)
  }

  /** The inference thread records a fault. */
  function Raise(s: State, code: FaultCode): State { s.(fault := FirstOf(s.fault, code), inference := Raising) }

  /** The control thread triggers the change of mode and ends its run. */
  function Trigger(s: State, locked: bool): State {
    s.(triggered := true, control := Resting, outbox := if locked then s.outbox.(owner := Free) else s.outbox)
  }

  function Remainder(x: real, period: real): (r: real)
    requires period > 0.0
  {
    x - (x / period).Floor as real * period
  }

  /** The transition check keeps a state that has triggered from running again. */
  function Begin(s: State, dt: real, rlDt: real, tilted: bool, sensor: int, command: int): State {
    if !s.control.Resting? || s.triggered then s
    else if dt <= 0.0 || rlDt <= 0.0 then Report(s, InvalidData, false)
    else if tilted then Report(s, LimitExceeded, false)
    else if s.sinceInfer + dt >= rlDt then
      s.(sinceInfer := Remainder(s.sinceInfer + dt, rlDt), control := Releasing(s.clock, sensor, command, rlDt))
    else s.(sinceInfer := s.sinceInfer + dt, control := Looking(s.clock, rlDt))
  }

  /** A release is skipped while the inference thread copies the previous one, or looks whether
      there is one. */
  function Release(s: State, time: real, sensor: int, command: int, rlDt: real, unlucky: bool): State {
    if s.inbox.owner != Free || unlucky then s.(control := Looking(s.clock, rlDt))
    else
      s.(releases := s.releases + 1,
         released := s.released + [Sample(s.releases + 1, time, sensor, command)],
         inbox := s.inbox.(owner := ByControl, number := s.releases + 1, released := time),
         control := WritingSensor(sensor, command, rlDt))
  }

  function Age(entered: real, now: real, seen: Option<real>): real { now - if seen.Some? then seen.value else entered }

  function LeaseOf(cfg: Config, seen: Option<real>): real { if seen.Some? then cfg.maxAge else cfg.firstTimeout }

  predicate Expired(cfg: Config, entered: real, now: real, seen: Option<real>) {
    LeaseOf(cfg, seen) > 0.0 && Age(entered, now, seen) > LeaseOf(cfg, seen)
  }

  function ExpiryCode(seen: Option<real>): FaultCode { if seen.Some? then CommandTimeout else InferenceTimeout }

  /** End a run, either with the fault of an expired lease or on the record. */
  function Conclude(s: State, expired: bool, p: Pass, locked: bool): State {
    if expired then Report(s, ExpiryCode(p.seen), locked) else s.(control := Resting, passed := s.passed + [p])
  }

  /** With the action lock taken, look for a usable new action. */
  function Look(cfg: Config, s: State, now: real, rlDt: real, unlucky: bool): State {
    var seen := if s.outbox.full then Some(s.outbox.at) else None;
    if s.outbox.owner != Free || unlucky then s.(control := Missing(now))
    else if Expired(cfg, s.entered, now, seen) then Conclude(s, true, Pass(now, seen, false), true)
    else if !s.outbox.full || s.outbox.count == s.appliedCount then Conclude(s, false, Pass(now, seen, false), true)
    else s.(outbox := s.outbox.(owner := ByControl), control := Applying(now, rlDt))
  }

  /** A busy publisher does not renew the lease. */
  function LookAgain(cfg: Config, s: State, now: real, seen: Option<real>): State {
    var replaced := s.lastPublished != seen;
    Conclude(s, Expired(cfg, s.entered, now, seen) && !replaced, Pass(now, seen, replaced), false)
  }

  function Credited(cfg: Config, b: Blend, rlDt: real, steps: nat): Blend {
    var credit := Times(Max(0.0, rlDt), steps as real);
    if cfg.blendDuration <= 0.0 || !cfg.poseMatches then b.(credit := b.credit + credit)
    else Blend(Min(cfg.blendDuration, b.elapsed + credit), b.credit + credit, b.refused)
  }

  /** Blend the new action in; an unusable target is a fault and is not put out. */
  function ApplyAction(cfg: Config, s: State, now: real, rlDt: real, targetOk: bool): State
    requires s.appliedCount <= s.outbox.count
  {
    var steps := s.outbox.count - s.appliedCount;
    var blend := Credited(cfg, s.blend, rlDt, steps);
    if targetOk then s.(blend := blend, control := Finishing(now, s.outbox.action))
    else
      Report(s, InvalidData, true).(blend := blend.(refused := blend.refused + steps))
  }

  function FinishApply(s: State, now: real, action: Vector): State {
    s.(appliedCount := s.outbox.count,
       applied := s.applied + [Application(s.outbox.count, s.outbox.number, action, s.outbox.at, now)],
       passed := s.passed + [Pass(now, Some(s.outbox.at), false)],
       outbox := s.outbox.(owner := Free), control := Resting)
  }

  function ControlStep(cfg: Config, s: State, targetOk: bool, unlucky: bool): State {
    match s.control
    case Resting => s
    case Releasing(time, sensor, command, rlDt) => Release(s, time, sensor, command, rlDt, unlucky)
    case WritingSensor(sensor, command, rlDt) =>
      s.(inbox := s.inbox.(sensor := sensor), control := WritingCommand(command, rlDt))
    case WritingCommand(command, rlDt) =>
      s.(inbox := s.inbox.(owner := Free, command := command, unread := true), control := Looking(s.clock, rlDt))
    case Looking(now, rlDt) => Look(cfg, s, now, rlDt, unlucky)
    case Missing(now) => s.(control := Contended(now, s.lastPublished))
    case Contended(now, seen) => LookAgain(cfg, s, now, seen)
    case Applying(now, rlDt) => if s.appliedCount <= s.outbox.count then ApplyAction(cfg, s, now, rlDt, targetOk) else s
    case Finishing(now, action) => FinishApply(s, now, action)
    case Alarming(locked) => Trigger(s, locked)
  }

  function Take(s: State): State {
    if !s.running then s.(inference := Stopped)
    else if !s.inbox.unread || s.inbox.owner != Free then s
    else
      s.(inbox := s.inbox.(owner := ByInference, unread := false),
         started := s.started + [s.inbox.number],
         inference := TakingSensor(s.inbox.number, s.inbox.released))
  }

  predicate Late(cfg: Config, sample: Sample, finish: real) {
    cfg.deadline > 0.0 && finish - sample.released > cfg.deadline
  }

  function Compute(cfg: Config, s: State, sample: Sample, outcome: Outcome): State {
    if outcome.Throws? then if s.running then Raise(s, InternalError) else s.(inference := Stopped)
    else if Late(cfg, sample, s.clock) then
      if cfg.discardLate then s.(inference := Waiting, verdicts := s.verdicts + [Discarded(sample, s.clock)])
        else Raise(s, InferenceTimeout)
    else if outcome.action.None? then Raise(s, InvalidData)
    else s.(inference := Computed(sample, outcome.action.value, s.clock))
  }

  function InferenceStep(cfg: Config, s: State, outcome: Outcome): State {
    match s.inference
    case Waiting => Take(s)
    case TakingSensor(number, time) => s.(inference := TakingCommand(number, time, s.inbox.sensor))
    case TakingCommand(number, time, sensor) =>
      s.(inbox := s.inbox.(owner := Free), inference := Computing(Sample(number, time, sensor, s.inbox.command)))
    case Computing(sample) => Compute(cfg, s, sample, outcome)
    case Computed(sample, action, finish) =>
      if s.outbox.owner != Free then s
      else s.(outbox := s.outbox.(owner := ByInference, action := action, full := true),
              inference := Publishing(sample, action, finish))
    case Publishing(sample, action, finish) =>
      s.(outbox := s.outbox.(number := sample.number, at := s.clock, count := s.outbox.count + 1),
         lastPublished := Some(s.clock),
         published := s.published + [Publication(sample, action, finish, s.clock)],
         verdicts := s.verdicts + [Kept(sample.number)],
         inference := Unlocking)
    case Unlocking => s.(outbox := s.outbox.(owner := Free), inference := Waiting)
    case Raising => s.(triggered := true, inference := Stopped)
    case Stopped => s
  }

  function Next(cfg: Config, s: State, e: Event): State {
    match e
    case Elapse(to) => s.(clock := Max(s.clock, to))
    case BeginRun(dt, rlDt, tilted, sensor, command) => Begin(s, dt, rlDt, tilted, sensor, command)
    case Control(targetOk, unlucky) => ControlStep(cfg, s, targetOk, unlucky)
    case Infer(outcome) => InferenceStep(cfg, s, outcome)
    case Suspend => s.(running := false)
  }

  function Run(cfg: Config, now: real, events: seq<Event>): State {
    if events == [] then Enter(now) else Next(cfg, Run(cfg, now, events[..|events| - 1]), events[|events| - 1])
  }

  // ---------------------------------------------------------------- invariant

  ghost predicate Increasing(numbers: seq<nat>) {
    forall i, j | 0 <= i < j < |numbers| :: numbers[i] < numbers[j]
  }

  function LastOf(numbers: seq<nat>): nat { if numbers == [] then 0 else numbers[|numbers| - 1] }

  /** Release numbers count the releases. */
  ghost predicate Counted(releases: nat, released: seq<Sample>) {
    releases == |released| && forall i | 0 <= i < |released| :: released[i].number == i + 1
  }

  predicate Writing(c: Control) { c.WritingSensor? || c.WritingCommand? }

  predicate Taking(i: Inference) { i.TakingSensor? || i.TakingCommand? }

  /** What the control thread has not written yet it still holds; the rest is the last release. */
  ghost predicate InboxSound(inbox: Inbox, c: Control, i: Inference, started: seq<nat>, released: seq<Sample>) {
    && inbox.number == |released|
    && (inbox.owner == ByControl <==> Writing(c))
    && (inbox.owner == ByInference <==> Taking(i))
    && (inbox.unread || Writing(c) ==> LastOf(started) < |released|)
    && (released != [] ==>
          var last := released[|released| - 1];
          && inbox.released == last.released
          && last.sensor == (if c.WritingSensor? then c.sensor else inbox.sensor)
          && last.command == (if Writing(c) then c.command else inbox.command))
  }

  predicate Genuine(released: seq<Sample>, sample: Sample) {
    0 < sample.number <= |released| && sample == released[sample.number - 1]
  }

  /** The sample the inference thread holds, as far as it has been copied. */
  ghost predicate InferenceSound(cfg: Config, i: Inference, started: seq<nat>, released: seq<Sample>) {
    match i
    case Waiting => true
    case TakingSensor(number, time) =>
      0 < number == LastOf(started) == |released| && time == released[number - 1].released
    case TakingCommand(number, time, sensor) =>
      && 0 < number == LastOf(started) == |released| && time == released[number - 1].released
      && sensor == released[number - 1].sensor
    case Computing(sample) => sample.number == LastOf(started) && Genuine(released, sample)
    case Computed(sample, _, finish) =>
      sample.number == LastOf(started) && Genuine(released, sample) && !Late(cfg, sample, finish)
    case Publishing(sample, _, finish) =>
      sample.number == LastOf(started) && Genuine(released, sample) && !Late(cfg, sample, finish)
    case Unlocking => true
    case Raising => true
    case Stopped => true
  }

  ghost predicate StartedSound(started: seq<nat>, released: seq<Sample>) {
    Increasing(started) && LastOf(started) <= |released|
  }

  function Numbers(published: seq<Publication>): (r: seq<nat>)
    ensures |r| == |published| && forall i | 0 <= i < |r| :: r[i] == published[i].sample.number
  {
    seq(|published|, i requires 0 <= i < |published| => published[i].sample.number)
  }

  predicate Holding(i: Inference) { !i.Waiting? && !i.Unlocking? && !i.Raising? && !i.Stopped? }

  function Last(published: seq<Publication>): Publication
    requires published != []
  {
    published[|published| - 1]
  }

  ghost predicate PublishedSound(cfg: Config, i: Inference, started: seq<nat>, released: seq<Sample>,
      published: seq<Publication>, lastPublished: Option<real>) {
    && (forall k | 0 <= k < |published| ::
          Genuine(released, published[k].sample) && !Late(cfg, published[k].sample, published[k].finish))
    && Increasing(Numbers(published))
    && (published != [] ==> Last(published).sample.number <= LastOf(started))
    && (published != [] && Holding(i) ==> Last(published).sample.number < LastOf(started))
    && lastPublished == (if published == [] then None else Some(Last(published).at))
  }

  /** Unless the inference thread is writing it, the cache is the last publication. */
  ghost predicate OutboxSound(outbox: Outbox, c: Control, i: Inference, published: seq<Publication>) {
    && outbox.count == |published|
    && (outbox.owner == ByControl <==> c.Applying? || c.Finishing? || (c.Alarming? && c.locked))
    && (outbox.owner == ByInference <==> i.Publishing? || i.Unlocking?)
    && (if i.Publishing? then outbox.action == i.action && outbox.full
        else outbox.full == (published != []) &&
             (published != [] ==>
                && outbox.action == Last(published).action && outbox.at == Last(published).at
                && outbox.number == Last(published).sample.number))
  }

  predicate Young(cfg: Config, now: real, at: real) { cfg.maxAge > 0.0 ==> now - at <= cfg.maxAge }

  /** An application puts out exactly one publication, young enough. */
  predicate Faithful(cfg: Config, published: seq<Publication>, a: Application) {
    && 0 < a.index <= |published|
    && a.number == published[a.index - 1].sample.number && a.action == published[a.index - 1].action
    && a.at == published[a.index - 1].at && Young(cfg, a.now, a.at)
  }

  ghost predicate AppliedSound(cfg: Config, outbox: Outbox, c: Control, appliedCount: nat,
      published: seq<Publication>, applied: seq<Application>) {
    && appliedCount <= outbox.count
    && (forall i | 0 <= i < |applied| :: Faithful(cfg, published, applied[i]))
    && (forall i, j | 0 <= i < j < |applied| :: applied[i].index < applied[j].index)
    && (forall i | 0 <= i < |applied| :: applied[i].index <= appliedCount)
    && (c.Applying? || c.Finishing? ==> appliedCount < outbox.count && Young(cfg, c.now, outbox.at))
    && (c.Finishing? ==> c.action == outbox.action)
  }

  predicate Blends(cfg: Config) { cfg.blendDuration > 0.0 && cfg.poseMatches }

  ghost predicate BlendSound(cfg: Config, blend: Blend, triggered: bool, c: Control) {
    && blend.credit >= 0.0
    && blend.elapsed == (if Blends(cfg) then Min(cfg.blendDuration, blend.credit) else 0.0)
    && (blend.refused > 0 ==> c.Alarming? || (c.Resting? && triggered))
  }

  ghost predicate PassedSound(cfg: Config, entered: real, outbox: Outbox, c: Control, passed: seq<Pass>) {
    && (forall i | 0 <= i < |passed| :: passed[i].replaced || !Expired(cfg, entered, passed[i].now, passed[i].seen))
    && (c.Applying? || c.Finishing? ==> !Expired(cfg, entered, c.now, Some(outbox.at)))
  }

  /** A recorded fault has triggered, or the thread that recorded it is about to trigger. */
  ghost predicate TriggerSound(fault: Option<FaultCode>, triggered: bool, c: Control, i: Inference) {
    && (triggered || c.Alarming? || i.Raising? ==> fault.Some?)
    && (fault.Some? ==> triggered || c.Alarming? || i.Raising?)
  }

  ghost predicate Inv(cfg: Config, s: State) {
    && Counted(s.releases, s.released)
    && InboxSound(s.inbox, s.control, s.inference, s.started, s.released)
    && InferenceSound(cfg, s.inference, s.started, s.released)
    && StartedSound(s.started, s.released)
    && PublishedSound(cfg, s.inference, s.started, s.released, s.published, s.lastPublished)
    && OutboxSound(s.outbox, s.control, s.inference, s.published)
    && AppliedSound(cfg, s.outbox, s.control, s.appliedCount, s.published, s.applied)
    && BlendSound(cfg, s.blend, s.triggered, s.control)
    && TriggerSound(s.fault, s.triggered, s.control, s.inference)
    && PassedSound(cfg, s.entered, s.outbox, s.control, s.passed)
  }

  lemma EnterHolds(cfg: Config, now: real)
    requires ValidConfig(cfg)
    ensures Inv(cfg, Enter(now))
  {}

  // One lemma for each step of the control thread.

  lemma SkipKeeps(cfg: Config, s: State, now: real, rlDt: real)
    requires ValidConfig(cfg) && Inv(cfg, s) && s.control.Releasing?
    ensures Inv(cfg, s.(control := Looking(now, rlDt)))
  {
    hide Counted, InferenceSound, StartedSound, PublishedSound;
  }

  lemma ReleaseKeeps(cfg: Config, s: State, unlucky: bool)
    requires ValidConfig(cfg) && Inv(cfg, s) && s.control.Releasing?
    ensures Inv(cfg, Release(s, s.control.time, s.control.sensor, s.control.command, s.control.rlDt, unlucky))
  {
    if s.inbox.owner != Free || unlucky {
      hide Inv;
      SkipKeeps(cfg, s, s.clock, s.control.rlDt);
    } else {
      hide Min, Young, Expired, Late;
    }
  }

  lemma WriteKeeps(cfg: Config, s: State, targetOk: bool, unlucky: bool)
    requires ValidConfig(cfg) && Inv(cfg, s) && Writing(s.control)
    ensures Inv(cfg, ControlStep(cfg, s, targetOk, unlucky))
  {
    hide Counted, InferenceSound, StartedSound, PublishedSound;
  }

  /** A run that ends, rightly without a fault or with one. */
  lemma ConcludeKeeps(cfg: Config, s: State, expired: bool, p: Pass, locked: bool)
    requires ValidConfig(cfg) && Inv(cfg, s) && (s.control.Looking? || s.control.Contended?)
    requires locked ==> s.outbox.owner == Free
    requires expired || p.replaced || !Expired(cfg, s.entered, p.now, p.seen)
    ensures Inv(cfg, Conclude(s, expired, p, locked))
  {
    hide Counted, InferenceSound, StartedSound, PublishedSound, Expired, Min;
  }

  lemma LookKeeps(cfg: Config, s: State, unlucky: bool)
    requires ValidConfig(cfg) && Inv(cfg, s) && s.control.Looking?
    ensures Inv(cfg, Look(cfg, s, s.control.now, s.control.rlDt, unlucky))
  {
    hide Counted, InferenceSound, StartedSound, PublishedSound, Conclude, Min;
    var now, seen := s.control.now, if s.outbox.full then Some(s.outbox.at) else None;
    if s.outbox.owner == Free && Expired(cfg, s.entered, now, seen) {
      ConcludeKeeps(cfg, s, true, Pass(now, seen, false), true);
    } else if s.outbox.owner == Free && (!s.outbox.full || s.outbox.count == s.appliedCount) {
      ConcludeKeeps(cfg, s, false, Pass(now, seen, false), true);
    }
  }

  /** The last publication is read without the lock. */
  lemma MissKeeps(cfg: Config, s: State, to: Control)
    requires ValidConfig(cfg) && Inv(cfg, s) && s.control.Missing? && to.Contended?
    ensures Inv(cfg, s.(control := to))
  {
    hide Counted, InferenceSound, StartedSound, PublishedSound, Expired, Min, Young;
  }

  lemma LookAgainKeeps(cfg: Config, s: State)
    requires ValidConfig(cfg) && Inv(cfg, s) && s.control.Contended?
    ensures Inv(cfg, LookAgain(cfg, s, s.control.now, s.control.seen))
  {
    hide Inv, Conclude, Expired;
    var now, seen := s.control.now, s.control.seen;
    var replaced := s.lastPublished != seen;
    ConcludeKeeps(cfg, s, Expired(cfg, s.entered, now, seen) && !replaced, Pass(now, seen, replaced), false);
  }

  lemma ApplyKeeps(cfg: Config, s: State, targetOk: bool)
    requires ValidConfig(cfg) && Inv(cfg, s) && s.control.Applying?
    ensures Inv(cfg, ApplyAction(cfg, s, s.control.now, s.control.rlDt, targetOk))
  {
    hide Counted, InferenceSound, StartedSound, PublishedSound;
  }

  lemma FinishKeeps(cfg: Config, s: State)
    requires ValidConfig(cfg) && Inv(cfg, s) && s.control.Finishing?
    ensures Inv(cfg, FinishApply(s, s.control.now, s.control.action))
  {
    hide Counted, StartedSound, InferenceSound, PublishedSound;
  }

  lemma StartKeeps(cfg: Config, s: State, sinceInfer: real, to: Control)
    requires Inv(cfg, s) && s.control.Resting? && !s.triggered && (to.Releasing? || to.Looking?)
    ensures Inv(cfg, s.(sinceInfer := sinceInfer, control := to))
  {
    hide Counted, InferenceSound, StartedSound, PublishedSound, Min, Young, Expired;
  }

  lemma ReportKeeps(cfg: Config, s: State, code: FaultCode)
    requires Inv(cfg, s) && s.control.Resting?
    ensures Inv(cfg, Report(s, code, false))
  {
    hide Counted, InferenceSound, StartedSound, PublishedSound, Min, Young, Expired;
  }

  lemma TriggerKeeps(cfg: Config, s: State)
    requires Inv(cfg, s) && s.control.Alarming?
    ensures Inv(cfg, Trigger(s, s.control.locked))
  {
    hide Counted, InferenceSound, StartedSound, PublishedSound, Min, Young, Expired;
  }

  lemma BeginKeeps(cfg: Config, s: State, dt: real, rlDt: real, tilted: bool, sensor: int, command: int)
    requires ValidConfig(cfg) && Inv(cfg, s)
    ensures Inv(cfg, Begin(s, dt, rlDt, tilted, sensor, command))
  {
    hide Inv, Report, Remainder;
    if s.control.Resting? && !s.triggered {
      if dt <= 0.0 || rlDt <= 0.0 {
        ReportKeeps(cfg, s, InvalidData);
      } else if tilted {
        ReportKeeps(cfg, s, LimitExceeded);
      } else if s.sinceInfer + dt >= rlDt {
        StartKeeps(cfg, s, Remainder(s.sinceInfer + dt, rlDt), Releasing(s.clock, sensor, command, rlDt));
      } else {
        StartKeeps(cfg, s, s.sinceInfer + dt, Looking(s.clock, rlDt));
      }
    }
  }

  // One lemma for each step of the inference thread.

  lemma TakeKeeps(cfg: Config, s: State)
    requires ValidConfig(cfg) && Inv(cfg, s) && s.inference.Waiting?
    ensures Inv(cfg, Take(s))
  {
    hide Counted, AppliedSound, BlendSound, PassedSound;
  }

  lemma CopyKeeps(cfg: Config, s: State, outcome: Outcome)
    requires ValidConfig(cfg) && Inv(cfg, s) && Taking(s.inference)
    ensures Inv(cfg, InferenceStep(cfg, s, outcome))
  {
    hide AppliedSound, BlendSound, PassedSound, StartedSound;
  }

  lemma MoveKeeps(cfg: Config, s: State, i: Inference, fault: Option<FaultCode>, verdicts: seq<Verdict>)
    requires ValidConfig(cfg) && Inv(cfg, s) && s.inference.Computing?
    requires if i.Raising? then fault.Some? else fault == s.fault
    requires i.Waiting? || i.Stopped? || i.Raising? ||
             (i.Computed? && i.sample == s.inference.sample && !Late(cfg, i.sample, i.finish))
    ensures Inv(cfg, s.(inference := i, fault := fault, verdicts := verdicts))
  {
    hide Counted, StartedSound, AppliedSound, PassedSound, Late, Genuine, Min;
  }

  lemma ComputeMoves(cfg: Config, s: State, sample: Sample, outcome: Outcome)
    ensures var t := Compute(cfg, s, sample, outcome);
            && t == s.(inference := t.inference, fault := t.fault, verdicts := t.verdicts)
            && (if t.inference.Raising? then t.fault.Some? else t.fault == s.fault)
            && (t.inference.Waiting? || t.inference.Stopped? || t.inference.Raising? ||
                (t.inference.Computed? && t.inference.sample == sample && !Late(cfg, sample, t.inference.finish)))
  {}

  lemma ComputeKeeps(cfg: Config, s: State, outcome: Outcome)
    requires ValidConfig(cfg) && Inv(cfg, s) && s.inference.Computing?
    ensures Inv(cfg, Compute(cfg, s, s.inference.sample, outcome))
  {
    var t := Compute(cfg, s, s.inference.sample, outcome);
    ComputeMoves(cfg, s, s.inference.sample, outcome);
    hide Inv, Late, Compute;
    MoveKeeps(cfg, s, t.inference, t.fault, t.verdicts);
  }

  lemma StoreKeeps(cfg: Config, s: State, outcome: Outcome)
    requires ValidConfig(cfg) && Inv(cfg, s) && s.inference.Computed?
    ensures Inv(cfg, InferenceStep(cfg, s, outcome))
  {
    hide Counted, StartedSound, BlendSound;
  }

  lemma PublishKeeps(cfg: Config, s: State, outcome: Outcome)
    requires ValidConfig(cfg) && Inv(cfg, s) && s.inference.Publishing?
    ensures Inv(cfg, InferenceStep(cfg, s, outcome))
  {
    hide Counted, StartedSound, BlendSound;
  }

  lemma UnlockKeeps(cfg: Config, s: State, outcome: Outcome)
    requires ValidConfig(cfg) && Inv(cfg, s) && (s.inference.Unlocking? || s.inference.Raising?)
    ensures Inv(cfg, InferenceStep(cfg, s, outcome))
  {
    hide Counted, StartedSound, Min, Young, Expired, Late;
  }

  lemma NextKeeps(cfg: Config, s: State, e: Event)
    requires ValidConfig(cfg) && Inv(cfg, s)
    ensures Inv(cfg, Next(cfg, s, e))
  {
    match e
    case Elapse(_) =>
    case BeginRun(dt, rlDt, tilted, sensor, command) => BeginKeeps(cfg, s, dt, rlDt, tilted, sensor, command);
    case Control(targetOk, unlucky) => ControlKeeps(cfg, s, targetOk, unlucky);
    case Infer(outcome) => InferenceKeeps(cfg, s, outcome);
    case Suspend =>
  }

  lemma ControlKeeps(cfg: Config, s: State, targetOk: bool, unlucky: bool)
    requires ValidConfig(cfg) && Inv(cfg, s)
    ensures Inv(cfg, ControlStep(cfg, s, targetOk, unlucky))
  {
    hide Inv, Release, Look, LookAgain, ApplyAction, FinishApply, Trigger;
    match s.control
    case Resting =>
    case Releasing(_, _, _, _) => ReleaseKeeps(cfg, s, unlucky);
    case WritingSensor(_, _, _) => WriteKeeps(cfg, s, targetOk, unlucky);
    case WritingCommand(_, _) => WriteKeeps(cfg, s, targetOk, unlucky);
    case Looking(_, _) => LookKeeps(cfg, s, unlucky);
    case Missing(now) => MissKeeps(cfg, s, Contended(now, s.lastPublished));
    case Contended(_, _) => LookAgainKeeps(cfg, s);
    case Applying(_, _) => if s.appliedCount <= s.outbox.count { ApplyKeeps(cfg, s, targetOk); }
    case Finishing(_, _) => FinishKeeps(cfg, s);
    case Alarming(_) => TriggerKeeps(cfg, s);
  }

  lemma InferenceKeeps(cfg: Config, s: State, outcome: Outcome)
    requires ValidConfig(cfg) && Inv(cfg, s)
    ensures Inv(cfg, InferenceStep(cfg, s, outcome))
  {
    hide Inv, Take, Compute;
    match s.inference
    case Waiting => TakeKeeps(cfg, s);
    case TakingSensor(_, _) => CopyKeeps(cfg, s, outcome);
    case TakingCommand(_, _, _) => CopyKeeps(cfg, s, outcome);
    case Computing(_) => ComputeKeeps(cfg, s, outcome);
    case Computed(_, _, _) => StoreKeeps(cfg, s, outcome);
    case Publishing(_, _, _) => PublishKeeps(cfg, s, outcome);
    case Unlocking => UnlockKeeps(cfg, s, outcome);
    case Raising => UnlockKeeps(cfg, s, outcome);
    case Stopped =>
  }

  lemma {:induction false} RunHolds(cfg: Config, now: real, events: seq<Event>)
    requires ValidConfig(cfg)
    ensures Inv(cfg, Run(cfg, now, events))
    decreases |events|
  {
    hide Inv, Next;
    if events == [] {
      EnterHolds(cfg, now);
    } else {
      RunHolds(cfg, now, events[..|events| - 1]);
      NextKeeps(cfg, Run(cfg, now, events[..|events| - 1]), events[|events| - 1]);
    }
  }

  // ---------------------------------------------------------------- theorems

  ghost predicate NumbersBounded(s: State) {
    && Increasing(s.started) && Increasing(Numbers(s.published))
    && (forall i, j | 0 <= i < j < |s.applied| :: s.applied[i].number < s.applied[j].number)
    && (forall i | 0 <= i < |s.started| :: s.started[i] <= |s.released|)
    && (forall i | 0 <= i < |s.published| :: s.published[i].sample.number <= |s.released|)
    && (forall i | 0 <= i < |s.applied| :: s.applied[i].number <= |s.released|)
  }

  lemma NumbersOf(cfg: Config, s: State)
    requires Inv(cfg, s)
    ensures NumbersBounded(s)
  {
    hide InboxSound, InferenceSound, OutboxSound, BlendSound, PassedSound, Young, Late;
    forall i, j | 0 <= i < j < |s.applied|
      ensures s.applied[i].number < s.applied[j].number
    {
      var a, b := s.applied[i], s.applied[j];
      assert Faithful(cfg, s.published, a) && Faithful(cfg, s.published, b) && a.index < b.index;
      assert Numbers(s.published)[a.index - 1] < Numbers(s.published)[b.index - 1];
    }
    forall i | 0 <= i < |s.applied|
      ensures s.applied[i].number <= |s.released|
    {
      assert Faithful(cfg, s.published, s.applied[i]);
      assert Genuine(s.released, s.published[s.applied[i].index - 1].sample);
    }
  }

  /** Under every interleaving the numbers of the samples that inference started with, of the
      actions it published and of the actions that were applied strictly increase, and none
      exceeds the number of releases. */
  lemma NumbersIncrease(cfg: Config, now: real, events: seq<Event>)
    requires ValidConfig(cfg)
    ensures NumbersBounded(Run(cfg, now, events))
  {
    hide Inv, Run;
    RunHolds(cfg, now, events);
    NumbersOf(cfg, Run(cfg, now, events));
  }

  /** Every applied action was computed from the untorn sample released under its number, was
      published within a positive inference deadline, and was young enough when applied. */
  lemma AppliedIsGenuine(cfg: Config, now: real, events: seq<Event>, i: nat)
    requires ValidConfig(cfg) && i < |Run(cfg, now, events).applied|
    ensures var s := Run(cfg, now, events); var a := s.applied[i];
            && 0 < a.number <= |s.released| && 0 < a.index <= |s.published|
            && var p := s.published[a.index - 1];
               && p.sample == s.released[a.number - 1] && a.action == p.action
               && (cfg.deadline > 0.0 ==> p.finish - p.sample.released <= cfg.deadline)
               && (cfg.maxAge > 0.0 ==> a.now - p.at <= cfg.maxAge)
  {
    RunHolds(cfg, now, events);
    var s := Run(cfg, now, events);
    hide Run;
    assert Faithful(cfg, s.published, s.applied[i]);
    assert Genuine(s.released, s.published[s.applied[i].index - 1].sample);
  }

  /** Nothing is published past a positive inference deadline, applied or not. */
  lemma NothingLateIsPublished(cfg: Config, now: real, events: seq<Event>, i: nat)
    requires ValidConfig(cfg) && i < |Run(cfg, now, events).published| && cfg.deadline > 0.0
    ensures var p := Run(cfg, now, events).published[i]; p.finish - p.sample.released <= cfg.deadline
    ensures var s := Run(cfg, now, events); Genuine(s.released, s.published[i].sample)
  {
    RunHolds(cfg, now, events);
    hide Run;
  }

  /** A control run that passes without a fault went by a publication within its age limit, or
      was still within the time for the first one, unless a newer one replaced it meanwhile. */
  lemma CommandLease(cfg: Config, now: real, events: seq<Event>, i: nat)
    requires ValidConfig(cfg) && i < |Run(cfg, now, events).passed|
    ensures var p := Run(cfg, now, events).passed[i];
            || p.replaced
            || (p.seen.Some? && (cfg.maxAge > 0.0 ==> p.now - p.seen.value <= cfg.maxAge))
            || (p.seen.None? && (cfg.firstTimeout > 0.0 ==> p.now - Run(cfg, now, events).entered <= cfg.firstTimeout))
  {
    RunHolds(cfg, now, events);
    hide Run;
  }

  // ---------------------------------------------------------------- entry transition

  /** All control runs have the same policy period. */
  predicate Steady(events: seq<Event>, period: real) {
    forall i | 0 <= i < |events| :: events[i].BeginRun? ==> events[i].rlDt == period
  }

  predicate Carries(c: Control, period: real) {
    match c
    case Resting => true
    case Releasing(_, _, _, rlDt) => rlDt == period
    case WritingSensor(_, _, rlDt) => rlDt == period
    case WritingCommand(_, rlDt) => rlDt == period
    case Looking(_, rlDt) => rlDt == period
    case Missing(_) => true
    case Contended(_, _) => true
    case Applying(_, rlDt) => rlDt == period
    case Finishing(_, _) => true
    case Alarming(_) => true
  }

  /** Actions that have been credited to the transition so far. */
  function Credits(s: State): nat {
    s.blend.refused + if s.control.Finishing? then s.outbox.count else s.appliedCount
  }

  ghost predicate Paced(s: State, period: real) {
    Carries(s.control, period) && s.blend.credit == Times(period, Credits(s) as real)
  }

  /** An action is credited with the period for each publication since the last one applied. */
  lemma PacedApply(cfg: Config, s: State, period: real, targetOk: bool)
    requires ValidConfig(cfg) && Paced(s, period) && period > 0.0 && s.control.Applying? && s.appliedCount <= s.outbox.count
    ensures Paced(ApplyAction(cfg, s, s.control.now, s.control.rlDt, targetOk), period)
  {
    TimesAdds(period, Credits(s) as real, (s.outbox.count - s.appliedCount) as real);
    hide Min, Times;
  }

  lemma AppliedBehind(cfg: Config, s: State)
    requires Inv(cfg, s)
    ensures s.appliedCount <= s.outbox.count && (s.control.Finishing? ==> s.blend.refused == 0)
  {
    hide Counted, InboxSound, InferenceSound, StartedSound, PublishedSound, OutboxSound, TriggerSound, PassedSound;
  }

  lemma PacedControl(cfg: Config, s: State, period: real, targetOk: bool, unlucky: bool)
    requires ValidConfig(cfg) && Inv(cfg, s) && Paced(s, period) && period > 0.0
    ensures Paced(ControlStep(cfg, s, targetOk, unlucky), period)
  {
    hide Inv, Times, ApplyAction, Look, LookAgain;
    AppliedBehind(cfg, s);
    match s.control
    case Applying(_, _) => PacedApply(cfg, s, period, targetOk);
    case Looking(_, _) => PacedLook(cfg, s, period, unlucky);
    case Contended(_, _) => PacedLook(cfg, s, period, unlucky);
    case _ =>
  }

  lemma PacedLook(cfg: Config, s: State, period: real, unlucky: bool)
    requires Paced(s, period)
    ensures s.control.Looking? ==> Paced(Look(cfg, s, s.control.now, s.control.rlDt, unlucky), period)
    ensures s.control.Contended? ==> Paced(LookAgain(cfg, s, s.control.now, s.control.seen), period)
  {
    hide Times, Expired;
  }

  /** Inference leaves the control thread's side alone, and publishes only with its lock. */
  lemma InferLeaves(cfg: Config, s: State, outcome: Outcome)
    ensures var t := InferenceStep(cfg, s, outcome);
            && t.control == s.control && t.appliedCount == s.appliedCount && t.blend == s.blend
            && (t.outbox.count == s.outbox.count || s.inference.Publishing?)
  {
    hide Late;
  }

  lemma OneHoldsTheCache(cfg: Config, s: State)
    requires Inv(cfg, s)
    ensures s.control.Finishing? ==> !s.inference.Publishing?
  {
    hide Counted, InboxSound, InferenceSound, StartedSound, PublishedSound, AppliedSound, BlendSound, TriggerSound,
         PassedSound;
  }

  lemma PacedInfer(cfg: Config, s: State, period: real, outcome: Outcome)
    requires Inv(cfg, s) && Paced(s, period)
    ensures Paced(InferenceStep(cfg, s, outcome), period)
  {
    hide Inv, InferenceStep, Times;
    OneHoldsTheCache(cfg, s);
    InferLeaves(cfg, s, outcome);
  }

  lemma PacedNext(cfg: Config, s: State, e: Event, period: real)
    requires ValidConfig(cfg) && Inv(cfg, s) && Paced(s, period) && period > 0.0
    requires e.BeginRun? ==> e.rlDt == period
    ensures Paced(Next(cfg, s, e), period)
  {
    hide Inv, ControlStep, InferenceStep, Times, Remainder;
    match e
    case Elapse(_) =>
    case BeginRun(_, _, _, _, _) =>
    case Control(targetOk, unlucky) => PacedControl(cfg, s, period, targetOk, unlucky); hide Paced;
    case Infer(outcome) => PacedInfer(cfg, s, period, outcome); hide Paced;
    case Suspend =>
  }

  lemma TimesAdds(x: real, a: real, b: real)
    ensures Times(x, a + b) == Times(x, a) + Times(x, b)
  {}

  lemma {:induction false} RunIsPaced(cfg: Config, now: real, events: seq<Event>, period: real)
    requires ValidConfig(cfg) && period > 0.0 && Steady(events, period)
    ensures Paced(Run(cfg, now, events), period)
    decreases |events|
  {
    if events == [] {
    } else {
      var shorter := events[..|events| - 1];
      RunHolds(cfg, now, shorter);
      assert events[|events| - 1].BeginRun? ==> events[|events| - 1].rlDt == period;
      hide Inv, Next, Paced;
      RunIsPaced(cfg, now, shorter, period);
      PacedNext(cfg, Run(cfg, now, shorter), events[|events| - 1], period);
    }
  }

  ghost predicate Progressed(cfg: Config, s: State, period: real) {
    && (s.control.Resting? && Blends(cfg) ==>
          s.blend.elapsed == Min(cfg.blendDuration, Times(period, (s.appliedCount + s.blend.refused) as real)))
    && (!Blends(cfg) ==> s.blend.elapsed == 0.0)
    && (s.fault.None? ==> s.blend.refused == 0)
  }

  lemma ProgressOf(cfg: Config, s: State, period: real)
    requires Inv(cfg, s) && Paced(s, period)
    ensures Progressed(cfg, s, period)
  {
    hide Counted, InboxSound, InferenceSound, StartedSound, PublishedSound, OutboxSound, AppliedSound, PassedSound, Times;
  }

  /** However the control ticks sampled the publications, the entry transition has progressed by
      the policy period for each action applied, up to its duration. Only a refused target, which
      is a fault, is credited without being applied. */
  lemma EntryProgress(cfg: Config, now: real, events: seq<Event>, period: real)
    requires ValidConfig(cfg) && period > 0.0 && Steady(events, period)
    ensures Progressed(cfg, Run(cfg, now, events), period)
  {
    hide Run, Inv, Paced, Progressed;
    RunHolds(cfg, now, events);
    RunIsPaced(cfg, now, events, period);
    ProgressOf(cfg, Run(cfg, now, events), period);
  }

  // ---------------------------------------------------------------- faults

  /** Events from a given state on. */
  function RunFrom(cfg: Config, s: State, events: seq<Event>): State {
    if events == [] then s else Next(cfg, RunFrom(cfg, s, events[..|events| - 1]), events[|events| - 1])
  }

  /** A recorded fault has triggered the change of mode, or does so with the next step of the
      thread that recorded it. */
  lemma FaultTriggers(cfg: Config, now: real, events: seq<Event>, targetOk: bool, unlucky: bool, outcome: Outcome)
    requires ValidConfig(cfg) && Run(cfg, now, events).fault.Some?
    ensures var s := Run(cfg, now, events);
            s.triggered || ControlStep(cfg, s, targetOk, unlucky).triggered || InferenceStep(cfg, s, outcome).triggered
    ensures Run(cfg, now, events).blend.refused == 0 || !Run(cfg, now, events).control.Finishing?
  {
    RunHolds(cfg, now, events);
    hide Run;
  }

  lemma FaultBlocks(cfg: Config, s: State, e: Event)
    requires s.triggered && s.fault.Some? && s.control.Resting?
    ensures var t := Next(cfg, s, e); Blocked(s, t) && t.triggered
  {}

  /** Nothing that the robot is told has changed. */
  ghost predicate Blocked(s: State, t: State) {
    && t.fault == s.fault && t.control.Resting? && t.released == s.released && t.applied == s.applied
    && t.appliedCount == s.appliedCount && t.blend == s.blend && t.passed == s.passed
  }

  /** Once a fault has triggered and the present run is over, nothing is released, applied or
      blended any more, whatever either thread does. */
  lemma {:induction false} FaultStopsControl(cfg: Config, s: State, events: seq<Event>)
    requires s.triggered && s.fault.Some? && s.control.Resting?
    ensures var t := RunFrom(cfg, s, events); Blocked(s, t) && t.triggered
    decreases |events|
  {
    hide Next;
    if events != [] {
      FaultStopsControl(cfg, s, events[..|events| - 1]);
      FaultBlocks(cfg, RunFrom(cfg, s, events[..|events| - 1]), events[|events| - 1]);
    }
  }

  /** What the present control run can still do: put out one action, and release one sample. */
  function Outputs(s: State): nat { |s.applied| + if s.control.Resting? then 0 else 1 }

  function Releases(s: State): nat { |s.released| + if s.control.Releasing? then 1 else 0 }

  ghost predicate Dwindles(s: State, t: State) {
    t.triggered && Outputs(t) <= Outputs(s) && Releases(t) <= Releases(s) && s.applied <= t.applied && s.released <= t.released
  }

  lemma LookDwindles(cfg: Config, s: State, now: real, rlDt: real, seen: Option<real>, unlucky: bool)
    requires s.triggered && !s.control.Resting?
    ensures Dwindles(s, Look(cfg, s, now, rlDt, unlucky)) && Dwindles(s, LookAgain(cfg, s, now, seen))
  {
    hide Expired;
  }

  lemma ApplyDwindles(cfg: Config, s: State, now: real, rlDt: real, targetOk: bool)
    requires s.triggered && s.appliedCount <= s.outbox.count && !s.control.Resting?
    ensures Dwindles(s, ApplyAction(cfg, s, now, rlDt, targetOk))
  {
    hide Credited;
  }

  lemma ControlDwindles(cfg: Config, s: State, targetOk: bool, unlucky: bool)
    requires s.triggered
    ensures Dwindles(s, ControlStep(cfg, s, targetOk, unlucky))
  {
    hide Look, LookAgain, ApplyAction;
    match s.control
    case Looking(now, rlDt) => LookDwindles(cfg, s, now, rlDt, None, unlucky);
    case Contended(now, seen) => LookDwindles(cfg, s, now, 0.0, seen, unlucky);
    case Applying(now, rlDt) => if s.appliedCount <= s.outbox.count { ApplyDwindles(cfg, s, now, rlDt, targetOk); }
    case _ =>
  }

  lemma InferDwindles(cfg: Config, s: State, outcome: Outcome)
    requires s.triggered
    ensures Dwindles(s, InferenceStep(cfg, s, outcome))
  {
    hide Late;
  }

  lemma NextDwindles(cfg: Config, s: State, e: Event)
    requires s.triggered
    ensures Dwindles(s, Next(cfg, s, e))
  {
    hide ControlStep, InferenceStep, Remainder, Max;
    match e
    case Control(targetOk, unlucky) => ControlDwindles(cfg, s, targetOk, unlucky);
    case Infer(outcome) => InferDwindles(cfg, s, outcome);
    case _ =>
  }

  /** When a fault triggers in the middle of a control run, that run can still put out at most one
      action and release at most one sample. */
  lemma {:induction false} FaultEndsRun(cfg: Config, s: State, events: seq<Event>)
    requires s.triggered
    ensures var t := RunFrom(cfg, s, events);
            && Dwindles(s, t) && |t.applied| <= |s.applied| + 1 && |t.released| <= |s.released| + 1
    decreases |events|
  {
    hide Next;
    if events != [] {
      FaultEndsRun(cfg, s, events[..|events| - 1]);
      NextDwindles(cfg, RunFrom(cfg, s, events[..|events| - 1]), events[|events| - 1]);
    }
  }
}
