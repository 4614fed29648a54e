/** The hand-off to the log writer in runtime_logger.cpp: a bounded queue behind a mutex that
    realtime producers only try, and eight lock-free reserve slots for triggers. Many producers
    and one writer; every event is one atomic step, and texts are copied character by character. */
module LogQueue {
  import opened RobotBase

  const SLOTS := 8
  const LINE := 4096
  const NUL := '\0'

  datatype Config = Config(capacity: nat, memory: nat)

  datatype Record = Record(
    line: string, trigger: bool, csv: bool, console: bool, error: bool, time: real, bytes: nat)

  datatype Meta = Meta(time: real, console: bool, error: bool)

  const NO_META := Meta(0.0, false, false)

  datatype Ownership = Vacant | Filling | Full | Emptying

  /** `owner` and `ticket` only tell the proof who fills the slot and what it was filled with. */
  datatype Slot = Slot(state: Ownership, line: string, meta: Meta, owner: nat, ticket: nat)

  datatype Mutex = Free | HeldBy(producer: nat) | HeldByWriter

  datatype Producer =
    | Away
    | Entering(record: Record)
    | Owning(record: Record)
    | Claiming(record: Record, slot: nat, locked: bool)
    | Copying(record: Record, slot: nat, copied: nat, locked: bool)
    | Describing(record: Record, slot: nat, locked: bool)
    | Storing(record: Record, slot: nat, locked: bool)
    | Alarming(record: Record, locked: bool)
    | Counting(record: Record, locked: bool)

  datatype Writer =
    | Resting
    | Popping
    | Draining(slot: nat)
    | Reading(slot: nat, text: string)
    | Handing(slot: nat, text: string)
    | Recording

  /** What a call of Enqueue came to; a logger that does not run ignores it. */
  datatype Outcome = Queued | Preserved | Dropped | Ignored

  datatype Ended = Ended(record: Record, outcome: Outcome)

  datatype Saved = Saved(text: string, meta: Meta)

  datatype Delivery = Delivery(ticket: nat, text: string, meta: Meta)

  /** Where the record of a ticket is. */
  datatype Place = InSlot(slot: nat) | Delivered(index: nat)

  /** `taken` is the record the writer has taken from the queue and still has to write; `written`
      are those it has been through with, failed writes included. */
  datatype State = State(
    running: bool, mutex: Mutex, queue: seq<Record>, taken: Option<Record>, queueBytes: int, dropped: nat, pending: bool,
    slots: seq<Slot>, producers: seq<Producer>, writer: Writer,
    accepted: seq<Record>, popped: seq<Record>, written: seq<Record>, saved: seq<Saved>, places: seq<Place>,
    delivered: seq<Delivery>, ended: seq<Ended>, alarms: nat, failures: nat)

  // ---------------------------------------------------------------- texts

  /** A C string ends at its first NUL. */
  function CString(text: string): string {
    if text == "" || text[0] == NUL then "" else [text[0]] + CString(text[1..])
  }

  /** As much of a line as fits into a slot. */
  function Fitting(line: string): string { if |line| <= LINE - 1 then line else line[..LINE - 1] }

  /** The text a slot preserves of a line. */
  function Preservable(line: string): string { CString(Fitting(line) + [NUL]) }

  // ---------------------------------------------------------------- producer steps

  function Finish(s: State, p: nat, record: Record, outcome: Outcome, locked: bool): State
    requires p < |s.producers|
  {
    s.(producers := s.producers[p := Away], ended := s.ended + [Ended(record, outcome)],
       mutex := if locked then Free else s.mutex,
       dropped := if outcome == Dropped then s.dropped + 1 else s.dropped)
  }

  function Move(s: State, p: nat, to: Producer): State
    requires p < |s.producers|
  {
    s.(producers := s.producers[p := to])
  }

  /** Only callers that write CSV wait for the mutex. */
  function Enter(s: State, p: nat, record: Record, unlucky: bool): State
    requires p < |s.producers|
  {
    if s.mutex == Free && (record.csv || !unlucky) then Move(s, p, Owning(record)).(mutex := HeldBy(p))
    else if record.csv then s
    else if record.trigger then Move(s, p, Claiming(record, 0, false))
    else Finish(s, p, record, Dropped, false)
  }

  function Offer(cfg: Config, s: State, p: nat, record: Record): State
    requires p < |s.producers|
  {
    if !s.running then Finish(s, p, record, Ignored, true)
    else if |s.queue| >= cfg.capacity || s.queueBytes + record.bytes > cfg.memory then
      if record.trigger then Move(s, p, Claiming(record, 0, true)) else Finish(s, p, record, Dropped, true)
    else
      Finish(s, p, record, Queued, true).(queue := s.queue + [record], queueBytes := s.queueBytes + record.bytes,
                                          accepted := s.accepted + [record])
  }

  function Claim(s: State, p: nat, record: Record, slot: nat, locked: bool): State
    requires p < |s.producers| && |s.slots| == SLOTS
  {
    if slot >= SLOTS then Move(s, p, Alarming(record, locked))
    else if s.slots[slot].state != Vacant then Move(s, p, Claiming(record, slot + 1, locked))
    else
      Move(s, p, Copying(record, slot, 0, locked)).(slots := s.slots[slot := s.slots[slot].(state := Filling, owner := p)])
  }

  function WriteChar(slot: Slot, at: nat, c: char): Slot
    requires at < |slot.line|
  {
    slot.(line := slot.line[at := c])
  }

  function Copy(s: State, p: nat, record: Record, slot: nat, copied: nat, locked: bool): State
    requires p < |s.producers| && slot < |s.slots| && copied < |s.slots[slot].line|
  {
    if copied < |Fitting(record.line)| then
      Move(s, p, Copying(record, slot, copied + 1, locked))
        .(slots := s.slots[slot := WriteChar(s.slots[slot], copied, Fitting(record.line)[copied])])
    else
      Move(s, p, Describing(record, slot, locked)).(slots := s.slots[slot := WriteChar(s.slots[slot], copied, NUL)])
  }

  function MetaOf(record: Record): Meta { Meta(record.time, record.console, record.error) }

  function Describe(s: State, p: nat, record: Record, slot: nat, locked: bool): State
    requires p < |s.producers| && slot < |s.slots|
  {
    Move(s, p, Storing(record, slot, locked)).(slots := s.slots[slot := s.slots[slot].(meta := MetaOf(record))])
  }

  function Store(s: State, p: nat, record: Record, slot: nat, locked: bool): State
    requires p < |s.producers| && slot < |s.slots|
  {
    Finish(s, p, record, Preserved, locked)
      .(slots := s.slots[slot := s.slots[slot].(state := Full, ticket := |s.saved|)],
        saved := s.saved + [Saved(Preservable(record.line), MetaOf(record))], places := s.places + [InSlot(slot)])
  }

  function ProducerStep(cfg: Config, s: State, p: nat, unlucky: bool): (t: State)
    requires p < |s.producers| && |s.slots| == SLOTS
    ensures |t.producers| == |s.producers| && |t.slots| == SLOTS
  {
    match s.producers[p]
    case Away => s
    case Entering(r) => Enter(s, p, r, unlucky)
    case Owning(r) => Offer(cfg, s, p, r)
    case Claiming(r, slot, locked) => Claim(s, p, r, slot, locked)
    case Copying(r, slot, copied, locked) =>
      if slot < SLOTS && copied < |s.slots[slot].line| then Copy(s, p, r, slot, copied, locked) else s
    case Describing(r, slot, locked) => if slot < SLOTS then Describe(s, p, r, slot, locked) else s
    case Storing(r, slot, locked) => if slot < SLOTS then Store(s, p, r, slot, locked) else s
    case Alarming(r, locked) => Move(s, p, Counting(r, locked)).(pending := true, alarms := s.alarms + 1)
    case Counting(r, locked) => Finish(s, p, r, Dropped, locked)
  }

  // ---------------------------------------------------------------- writer steps

  function Pop(s: State): State {
    if s.queue == [] then s.(mutex := Free, writer := Draining(0))
    else
      s.(mutex := Free, writer := Draining(0), taken := Some(s.queue[0]),
         queue := s.queue[1..], queueBytes := s.queueBytes - s.queue[0].bytes,
         popped := s.popped + [s.queue[0]])
  }

  /** An operation of the writer that fails is counted like a loss. */
  function Failed(s: State, fails: bool): State {
    s.(dropped := if fails then s.dropped + 1 else s.dropped, failures := if fails then s.failures + 1 else s.failures)
  }

  /** The slots are looked at in turn; the maintenance around it can fail as well. */
  function Drain(s: State, slot: nat, fails: bool): State
    requires |s.slots| == SLOTS
  {
    if slot >= SLOTS then Failed(s, fails).(writer := Recording)
    else if s.slots[slot].state != Full then s.(writer := Draining(slot + 1))
    else s.(writer := Reading(slot, ""), slots := s.slots[slot := s.slots[slot].(state := Emptying)])
  }

  function Read(s: State, slot: nat, text: string): State
    requires slot < |s.slots| && |text| < |s.slots[slot].line|
  {
    var c := s.slots[slot].line[|text|];
    s.(writer := if c == NUL then Handing(slot, text) else Reading(slot, text + [c]))
  }

  /** The slot is free again before the record is written; a failing write is counted. */
  function HandOver(s: State, slot: nat, text: string, fails: bool): State
    requires slot < |s.slots|
  {
    var filled := s.slots[slot];
    s.(writer := Draining(slot + 1), slots := s.slots[slot := filled.(state := Vacant)],
       delivered := s.delivered + [Delivery(filled.ticket, text, filled.meta)],
       places := if filled.ticket < |s.places| then s.places[filled.ticket := Delivered(|s.delivered|)] else s.places,
       dropped := if fails then s.dropped + 1 else s.dropped,
       failures := if fails then s.failures + 1 else s.failures, pending := s.pending || fails)
  }

  /** The record from the queue is written last. */
  function WriteTaken(s: State, fails: bool): State {
    Failed(s, s.taken.Some? && fails)
      .(writer := Resting, taken := None, written := if s.taken.Some? then s.written + [s.taken.value] else s.written)
  }

  function WriterStep(s: State, fails: bool): (t: State)
    requires |s.slots| == SLOTS
    ensures |t.producers| == |s.producers| && |t.slots| == SLOTS
  {
    match s.writer
    case Resting => if s.mutex == Free then s.(mutex := HeldByWriter, writer := Popping) else s
    case Popping => Pop(s)
    case Draining(slot) => Drain(s, slot, fails)
    case Reading(slot, text) => if slot < SLOTS && |text| < |s.slots[slot].line| then Read(s, slot, text) else s
    case Handing(slot, text) => if slot < SLOTS then HandOver(s, slot, text, fails) else s
    case Recording => WriteTaken(s, fails)
  }

  datatype Event =
    | Call(producer: nat, record: Record)
    | Produce(producer: nat, unlucky: bool)
    | Write(fails: bool)
    | TakeSnapshot
    | Stop

  function Next(cfg: Config, s: State, e: Event): (t: State)
    requires |s.slots| == SLOTS
    ensures |t.producers| == |s.producers| && |t.slots| == SLOTS
  {
    match e
    case Call(p, record) => if p < |s.producers| && s.producers[p].Away? then Move(s, p, Entering(record)) else s
    case Produce(p, unlucky) => if p < |s.producers| then ProducerStep(cfg, s, p, unlucky) else s
    case Write(fails) => WriterStep(s, fails)
    case TakeSnapshot => s.(pending := false)
    case Stop => if s.mutex == Free then s.(running := false) else s
  }

  const BLANK := Slot(Vacant, seq(LINE, _ => NUL), NO_META, 0, 0)

  function Initial(producers: nat): State {
    State(true, Free, [], None, 0, 0, false, seq(SLOTS, _ => BLANK), seq(producers, _ => Away), Resting,
          [], [], [], [], [], [], [], 0, 0)
  }

  function Run(cfg: Config, producers: nat, events: seq<Event>): (s: State)
    ensures |s.slots| == SLOTS
  {
    if events == [] then Initial(producers)
    else Next(cfg, Run(cfg, producers, events[..|events| - 1]), events[|events| - 1])
  }
}
