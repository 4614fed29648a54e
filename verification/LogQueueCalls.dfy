/** What a call of Enqueue comes to, and what becomes of a queued record. */
module LogQueueCalls {
  import opened RobotBase
  import opened LogQueue
  import opened LogQueueInvariant
  import opened LogQueueTheorems
  import LogQueueDrain

  /** Both limits of the queue leave room for the record. */
  predicate HasRoom(cfg: Config, s: State, r: Record) {
    |s.queue| < cfg.capacity && s.queueBytes + r.bytes <= cfg.memory
  }

  /** The call has returned with this outcome, and nothing else has become of it. */
  predicate Returned(s: State, t: State, p: nat, r: Record, outcome: Outcome)
    requires p < |t.producers|
  {
    && t.producers[p].Away? && t.ended == s.ended + [Ended(r, outcome)]
    && t.queue == (if outcome == Queued then s.queue + [r] else s.queue)
    && t.queueBytes == (if outcome == Queued then s.queueBytes + r.bytes else s.queueBytes)
    && t.dropped == (if outcome == Dropped then s.dropped + 1 else s.dropped)
  }

  // ---------------------------------------------------------------- under every interleaving

  /** The producer that holds the mutex decides by the limits alone: a stopped logger ignores the
      record, one with room queues it, and without room a trigger turns to the reserve slots while
      anything else is dropped. */
  lemma OwnerDecides(cfg: Config, s: State, p: nat, unlucky: bool)
    requires p < |s.producers| && |s.slots| == SLOTS && s.producers[p].Owning?
    ensures var t, r := ProducerStep(cfg, s, p, unlucky), s.producers[p].record;
            && (!s.running <==> Returned(s, t, p, r, Ignored))
            && (s.running && HasRoom(cfg, s, r) <==> Returned(s, t, p, r, Queued))
            && (s.running && !HasRoom(cfg, s, r) && !r.trigger <==> Returned(s, t, p, r, Dropped))
            && (s.running && !HasRoom(cfg, s, r) && r.trigger <==> t.producers[p] == Claiming(r, 0, true))
            && (t.producers[p].Away? ==> t.mutex == Free)
  {
    var t := ProducerStep(cfg, s, p, unlucky);
    assert t.producers[p].Away? ==> t.ended[|s.ended|] == t.ended[|t.ended| - 1];
  }

  /** At the entry only a caller that writes CSV waits for the mutex; a trigger that cannot have it
      turns to the reserve slots, and anything else is dropped. */
  lemma EntryDecides(cfg: Config, s: State, p: nat, unlucky: bool)
    requires p < |s.producers| && |s.slots| == SLOTS && s.producers[p].Entering?
    ensures var t, r := ProducerStep(cfg, s, p, unlucky), s.producers[p].record;
            var gets := s.mutex == Free && (r.csv || !unlucky);
            && (gets <==> t.producers[p] == Owning(r) && t.mutex == HeldBy(p))
            && (!gets && r.csv <==> t == s)
            && (!gets && !r.csv && r.trigger <==> t.producers[p] == Claiming(r, 0, false))
            && (!gets && !r.csv && !r.trigger <==> Returned(s, t, p, r, Dropped))
  {
    var t := ProducerStep(cfg, s, p, unlucky);
    assert t.producers[p].Away? ==> t.ended[|s.ended|] == t.ended[|t.ended| - 1];
  }

  // ---------------------------------------------------------------- an undisturbed call

  /** The outcome of a call, from what it finds. */
  function OutcomeOf(cfg: Config, s: State, r: Record): Outcome {
    var offered := s.mutex == Free;
    if offered && !s.running then Ignored
    else if offered && HasRoom(cfg, s, r) then Queued
    else if r.trigger && AnyVacant(s, 0) then Preserved else Dropped
  }

  lemma {:induction false} AloneJoins(cfg: Config, s: State, p: nat, n: nat, m: nat)
    requires p < |s.producers| && |s.slots| == SLOTS
    ensures Alone(cfg, s, p, n + m) == Alone(cfg, Alone(cfg, s, p, n), p, m)
    decreases n
  {
    hide ProducerStep;
    if n > 0 {
      AloneJoins(cfg, ProducerStep(cfg, s, p, false), p, n - 1, m);
    }
  }

  /** What the search for a slot and the copying leave alone. */
  predicate Untouched(s: State, t: State) {
    t.queue == s.queue && t.queueBytes == s.queueBytes && t.running == s.running
  }

  predicate Aside(s: State, t: State) {
    && Untouched(s, t) && t.ended == s.ended && t.dropped == s.dropped && t.saved == s.saved && t.mutex == s.mutex
    && |t.producers| == |s.producers| && |t.slots| == |s.slots|
    && (forall k | 0 <= k < |s.slots| :: |t.slots[k].line| == |s.slots[k].line|)
  }

  /** The search stops at the first vacant slot, or after all of them. */
  lemma {:induction false} Claims(cfg: Config, s: State, p: nat) returns (n: nat)
    requires p < |s.producers| && |s.slots| == SLOTS && s.producers[p].Claiming? && s.producers[p].slot <= SLOTS
    ensures var t, pr := Alone(cfg, s, p, n), s.producers[p];
            && Aside(s, t) && t.pending == s.pending
            && if AnyVacant(s, pr.slot) then t.producers[p].Copying?
            && t.producers[p] == Copying(pr.record, t.producers[p].slot, 0, pr.locked)
                                            && t.producers[p].slot < SLOTS
               else t.producers[p] == Alarming(pr.record, pr.locked)
    decreases SLOTS - s.producers[p].slot
  {
    var pr, next := s.producers[p], ProducerStep(cfg, s, p, false);
    if pr.slot >= SLOTS || s.slots[pr.slot].state == Vacant {
      n := 1;
    } else {
      assert AnyVacant(s, pr.slot) == AnyVacant(next, pr.slot + 1);
      var m := Claims(cfg, next, p);
      n := m + 1;
    }
  }

  lemma {:induction false} Copies(cfg: Config, s: State, p: nat) returns (n: nat)
    requires p < |s.producers| && |s.slots| == SLOTS && s.producers[p].Copying? && s.producers[p].slot < SLOTS
    requires |s.slots[s.producers[p].slot].line| == LINE && s.producers[p].copied <= |Fitting(s.producers[p].record.line)|
    ensures var t, pr := Alone(cfg, s, p, n), s.producers[p];
            Aside(s, t) && t.pending == s.pending && t.producers[p] == Describing(pr.record, pr.slot, pr.locked)
    decreases |Fitting(s.producers[p].record.line)| - s.producers[p].copied
  {
    var pr, next := s.producers[p], ProducerStep(cfg, s, p, false);
    if pr.copied == |Fitting(pr.record.line)| {
      n := 1;
    } else {
      var m := Copies(cfg, next, p);
      n := m + 1;
    }
  }

  lemma Preserves(cfg: Config, s: State, p: nat)
    requires p < |s.producers| && |s.slots| == SLOTS && s.producers[p].Describing? && s.producers[p].slot < SLOTS
    ensures var t, pr := Alone(cfg, s, p, 2), s.producers[p];
            && Returned(s, t, p, pr.record, Preserved) && Untouched(s, t) && t.pending == s.pending
            && t.saved == s.saved + [Saved(Preservable(pr.record.line), MetaOf(pr.record))]
            && t.mutex == (if pr.locked then Free else s.mutex)
  {
    hide Preservable, MetaOf;
    var one := ProducerStep(cfg, s, p, false);
    var two := ProducerStep(cfg, one, p, false);
    AloneJoins(cfg, s, p, 1, 1);
    assert Alone(cfg, s, p, 1) == one && Alone(cfg, one, p, 1) == two;
  }

  lemma Loses(cfg: Config, s: State, p: nat)
    requires p < |s.producers| && |s.slots| == SLOTS && s.producers[p].Alarming?
    ensures var t, pr := Alone(cfg, s, p, 2), s.producers[p];
            && Returned(s, t, p, pr.record, Dropped) && t.pending && t.saved == s.saved
            && t.mutex == (if pr.locked then Free else s.mutex)
  {
    var one := ProducerStep(cfg, s, p, false);
    var two := ProducerStep(cfg, one, p, false);
    AloneJoins(cfg, s, p, 1, 1);
    assert Alone(cfg, s, p, 1) == one && Alone(cfg, one, p, 1) == two;
  }

  /** From the reserve slots on: a vacant one preserves the record, without one it is lost. */
  lemma Rescue(cfg: Config, s: State, p: nat) returns (n: nat)
    requires p < |s.producers| && |s.slots| == SLOTS && (forall k | 0 <= k < SLOTS :: |s.slots[k].line| == LINE)
    requires s.producers[p].Claiming? && s.producers[p].slot == 0
    ensures var t, pr := Alone(cfg, s, p, n), s.producers[p];
            && Returned(s, t, p, pr.record, if AnyVacant(s, 0) then Preserved else Dropped)
            && t.pending == (s.pending || !AnyVacant(s, 0)) && t.mutex == (if pr.locked then Free else s.mutex)
            && t.saved == s.saved +
                 (if AnyVacant(s, 0) then [Saved(Preservable(pr.record.line), MetaOf(pr.record))] else [])
  {
    hide ProducerStep, Alone, Fitting, Preservable, MetaOf, AnyVacant;
    var a := Claims(cfg, s, p);
    var claimed := Alone(cfg, s, p, a);
    if AnyVacant(s, 0) {
      var b := Copies(cfg, claimed, p);
      var copied := Alone(cfg, claimed, p, b);
      Preserves(cfg, copied, p);
      AloneJoins(cfg, claimed, p, b, 2);
      AloneJoins(cfg, s, p, a, b + 2);
      n := a + (b + 2);
    } else {
      Loses(cfg, claimed, p);
      AloneJoins(cfg, s, p, a, 2);
      n := a + 2;
    }
  }

  /** How a whole call has ended. */
  predicate CallEnds(s: State, t: State, p: nat, r: Record, outcome: Outcome)
    requires p < |t.producers|
  {
    && Returned(s, t, p, r, outcome) && t.mutex == s.mutex
    && t.saved == s.saved + (if outcome == Preserved then [Saved(Preservable(r.line), MetaOf(r))] else [])
    && t.pending == (s.pending || (r.trigger && outcome == Dropped))
  }

  /** The call has come this far without a trace. */
  predicate Underway(s: State, t: State) {
    && t.slots == s.slots && t.saved == s.saved && t.pending == s.pending && t.ended == s.ended && t.dropped == s.dropped
    && Untouched(s, t)
  }

  lemma RescueEnds(cfg: Config, s: State, m: State, p: nat) returns (n: nat)
    requires p < |m.producers| && |m.slots| == SLOTS && (forall k | 0 <= k < SLOTS :: |m.slots[k].line| == LINE)
    requires m.producers[p].Claiming? && m.producers[p].slot == 0 && m.producers[p].record.trigger && Underway(s, m)
    requires (if m.producers[p].locked then Free else m.mutex) == s.mutex
    ensures CallEnds(s, Alone(cfg, m, p, n), p, m.producers[p].record, if AnyVacant(s, 0) then Preserved else Dropped)
  {
    hide Alone, Preservable, MetaOf;
    n := Rescue(cfg, m, p);
    assert AnyVacant(m, 0) == AnyVacant(s, 0);
  }

  lemma WithMutex(cfg: Config, s: State, p: nat) returns (n: nat)
    requires p < |s.producers| && |s.slots| == SLOTS && (forall k | 0 <= k < SLOTS :: |s.slots[k].line| == LINE)
    requires s.producers[p].Entering? && s.mutex == Free
    ensures CallEnds(s, Alone(cfg, s, p, n), p, s.producers[p].record, OutcomeOf(cfg, s, s.producers[p].record))
  {
    hide Alone, Preservable, MetaOf, ProducerStep, AnyVacant;
    var r, one := s.producers[p].record, ProducerStep(cfg, s, p, false);
    FirstStep(cfg, s, p);
    SecondStep(cfg, one, p, r);
    AloneTwice(cfg, s, p);
    var two := ProducerStep(cfg, one, p, false);
    if two.producers[p].Away? {
      n := 2;
    } else {
      var m := RescueEnds(cfg, s, two, p);
      AloneJoins(cfg, s, p, 2, m);
      n := 2 + m;
    }
  }

  lemma WithoutMutex(cfg: Config, s: State, p: nat) returns (n: nat)
    requires p < |s.producers| && |s.slots| == SLOTS && (forall k | 0 <= k < SLOTS :: |s.slots[k].line| == LINE)
    requires s.producers[p].Entering? && s.mutex != Free && !s.producers[p].record.csv
    ensures CallEnds(s, Alone(cfg, s, p, n), p, s.producers[p].record, OutcomeOf(cfg, s, s.producers[p].record))
  {
    hide Alone, Preservable, MetaOf, ProducerStep, AnyVacant;
    FirstStep(cfg, s, p);
    AloneOnce(cfg, s, p);
    var one := ProducerStep(cfg, s, p, false);
    if one.producers[p].Away? {
      n := 1;
    } else {
      var m := RescueEnds(cfg, s, one, p);
      AloneJoins(cfg, s, p, 1, m);
      n := 1 + m;
    }
  }

  /** A whole call that is not disturbed. It ends, with the outcome that mutex, limits and slots ask
      for: a record is queued exactly if the mutex is free on a running logger with room, a trigger
      that is not queued is preserved exactly if a slot is vacant, and a lost trigger raises the flag. */
  lemma EnqueueExactly(cfg: Config, s: State, p: nat) returns (n: nat)
    requires Inv(cfg, s) && p < |s.producers| && |s.slots| == SLOTS && s.producers[p].Entering?
    requires s.mutex == Free || !s.producers[p].record.csv
    ensures CallEnds(s, Alone(cfg, s, p, n), p, s.producers[p].record, OutcomeOf(cfg, s, s.producers[p].record))
  {
    LinesFit(cfg, s);
    hide Inv, Alone, CallEnds, OutcomeOf;
    if s.mutex == Free {
      n := WithMutex(cfg, s, p);
    } else {
      n := WithoutMutex(cfg, s, p);
    }
  }

  lemma LinesFit(cfg: Config, s: State)
    requires Inv(cfg, s) && |s.slots| == SLOTS
    ensures forall k | 0 <= k < SLOTS :: |s.slots[k].line| == LINE
  {}

  lemma AloneOnce(cfg: Config, s: State, p: nat)
    requires p < |s.producers| && |s.slots| == SLOTS
    ensures Alone(cfg, s, p, 1) == ProducerStep(cfg, s, p, false)
  {
    hide ProducerStep;
    assert Alone(cfg, ProducerStep(cfg, s, p, false), p, 0) == ProducerStep(cfg, s, p, false);
  }

  lemma AloneTwice(cfg: Config, s: State, p: nat)
    requires p < |s.producers| && |s.slots| == SLOTS
    ensures Alone(cfg, s, p, 2) == ProducerStep(cfg, ProducerStep(cfg, s, p, false), p, false)
  {
    hide ProducerStep;
    AloneJoins(cfg, s, p, 1, 1);
    AloneOnce(cfg, s, p);
    AloneOnce(cfg, ProducerStep(cfg, s, p, false), p);
  }

  lemma FirstStep(cfg: Config, s: State, p: nat)
    requires p < |s.producers| && |s.slots| == SLOTS && s.producers[p].Entering?
    requires s.mutex == Free || !s.producers[p].record.csv
    ensures var t, r := ProducerStep(cfg, s, p, false), s.producers[p].record;
            && t.slots == s.slots && t.saved == s.saved && t.pending == s.pending && Untouched(s, t)
            && (if s.mutex == Free then
                  t.producers[p] == Owning(r) && t.mutex == HeldBy(p) && t.ended == s.ended && t.dropped == s.dropped
                else if r.trigger then
                  t.producers[p] == Claiming(r, 0, false) && t.mutex == s.mutex && t.ended == s.ended && t.dropped == s.dropped
                else Returned(s, t, p, r, Dropped) && t.mutex == s.mutex)
  {}

  lemma SecondStep(cfg: Config, s: State, p: nat, r: Record)
    requires p < |s.producers| && |s.slots| == SLOTS && s.producers[p] == Owning(r)
    ensures var t := ProducerStep(cfg, s, p, false);
            && t.slots == s.slots && t.saved == s.saved && t.pending == s.pending
            && (if !s.running then Returned(s, t, p, r, Ignored) && t.mutex == Free
                else if HasRoom(cfg, s, r) then Returned(s, t, p, r, Queued) && t.mutex == Free
                else if !r.trigger then Returned(s, t, p, r, Dropped) && t.mutex == Free
                else t.producers[p] == Claiming(r, 0, true) && Untouched(s, t) && t.ended == s.ended && t.dropped == s.dropped)
  {}

  // ---------------------------------------------------------------- what becomes of a queued record

  /** The record in hand is written before the next one is taken. */
  ghost predicate WrittenSound(s: State) {
    && s.popped == s.written + (if s.taken.Some? then [s.taken.value] else [])
    && (s.writer.Resting? || s.writer.Popping? ==> s.taken.None?)
  }

  lemma WriterWrites(s: State, fails: bool)
    requires |s.slots| == SLOTS && WrittenSound(s)
    ensures WrittenSound(WriterStep(s, fails))
  {
    hide Drain, Read, HandOver;
    match s.writer
    case Draining(slot) => DrainAside(s, slot, fails);
    case Reading(slot, text) => if slot < SLOTS && |text| < |s.slots[slot].line| { ReadAside(s, slot, text); }
    case Handing(slot, text) => if slot < SLOTS { HandAside(s, slot, text, fails); }
    case _ =>
  }

  /** The slots are emptied without touching the record in hand. */
  predicate InHand(s: State, t: State) {
    t.popped == s.popped && t.written == s.written && t.taken == s.taken && !t.writer.Resting? && !t.writer.Popping?
  }

  lemma DrainAside(s: State, slot: nat, fails: bool)
    requires |s.slots| == SLOTS
    ensures InHand(s, Drain(s, slot, fails))
  {}

  lemma ReadAside(s: State, slot: nat, text: string)
    requires slot < |s.slots| && |text| < |s.slots[slot].line|
    ensures InHand(s, Read(s, slot, text))
  {}

  lemma HandAside(s: State, slot: nat, text: string, fails: bool)
    requires slot < |s.slots|
    ensures InHand(s, HandOver(s, slot, text, fails))
  {}

  lemma WrittenStep(cfg: Config, s: State, e: Event)
    requires |s.slots| == SLOTS && WrittenSound(s)
    ensures WrittenSound(Next(cfg, s, e))
  {
    hide ProducerStep, WriterStep;
    match e
    case Produce(p, unlucky) => if p < |s.producers| { LogQueueDrain.ProducerTouches(cfg, s, p, unlucky); }
    case Write(fails) => WriterWrites(s, fails);
    case _ =>
  }

  lemma {:induction false} RunWritten(cfg: Config, producers: nat, events: seq<Event>)
    ensures WrittenSound(Run(cfg, producers, events))
    decreases |events|
  {
    if events != [] {
      hide Next, WrittenSound;
      RunWritten(cfg, producers, events[..|events| - 1]);
      WrittenStep(cfg, Run(cfg, producers, events[..|events| - 1]), events[|events| - 1]);
    }
  }

  /** Under every interleaving the records accepted into the queue are, in this order, those the
      writer has been through with, the one it has in hand, and those that still wait. */
  lemma QueuedIsWritten(cfg: Config, producers: nat, events: seq<Event>)
    ensures var s := Run(cfg, producers, events);
            s.accepted == s.written + (if s.taken.Some? then [s.taken.value] else []) + s.queue
  {
    hide Run;
    RunWritten(cfg, producers, events);
    QueueIsBounded(cfg, producers, events);
  }

  // ---------------------------------------------------------------- the writer alone

  function WritesAlone(cfg: Config, s: State, n: nat): (t: State)
    requires |s.slots| == SLOTS
    ensures |t.slots| == SLOTS
    decreases n
  {
    if n == 0 then s else WritesAlone(cfg, WriterStep(s, false), n - 1)
  }

  /** Steps of the writer until it rests, at most, once it has taken a record. */
  function RestRank(w: Writer): nat {
    if w.Resting? || w.Popping? then 0 else if w.Recording? then 1 else 2 + LogQueueDrain.PassRank(w)
  }

  /** Between taking and writing a record the writer touches neither. */
  lemma PassStep(cfg: Config, s: State)
    requires Inv(cfg, s) && |s.slots| == SLOTS && !s.writer.Resting? && !s.writer.Popping?
    ensures var t := WriterStep(s, false);
            && RestRank(t.writer) < RestRank(s.writer) && t.queue == s.queue && t.mutex == s.mutex
            && (s.writer.Recording? <==> t.writer.Resting?) && !t.writer.Popping?
            && t.written == s.written + (if s.writer.Recording? && s.taken.Some? then [s.taken.value] else [])
            && t.taken == (if s.writer.Recording? then None else s.taken)
  {
    match s.writer
    case Draining(slot) => hide Inv;
    case Reading(slot, text) => ReadingStep(cfg, s); hide Inv, LogQueueDrain.PassRank;
    case Handing(slot, text) => LogQueueDrain.SlotExists(cfg, s); hide Inv;
    case Recording => hide Inv;
  }

  lemma ReadingStep(cfg: Config, s: State)
    requires Inv(cfg, s) && |s.slots| == SLOTS && s.writer.Reading?
    ensures var t := WriterStep(s, false);
            && LogQueueDrain.PassRank(t.writer) < LogQueueDrain.PassRank(s.writer) && (t.writer.Reading? || t.writer.Handing?)
            && t == s.(writer := t.writer)
  {
    var slot := s.writer.slot;
    assert slot < SLOTS && LogQueueDrain.Ahead(s, slot, s.slots[slot].ticket);
    hide Inv, LogQueueDrain.PassRank;
    LogQueueDrain.ReadAdvances(cfg, s, slot, s.slots[slot].ticket);
  }

  lemma {:induction false} PassRests(cfg: Config, s: State) returns (n: nat)
    requires Inv(cfg, s) && |s.slots| == SLOTS && !s.writer.Resting? && !s.writer.Popping?
    ensures var t := WritesAlone(cfg, s, n);
            && Inv(cfg, t) && t.writer.Resting? && t.queue == s.queue && t.mutex == s.mutex && t.taken.None?
            && t.written == s.written + (if s.taken.Some? then [s.taken.value] else [])
    decreases RestRank(s.writer)
  {
    hide Inv, WriterStep, RestRank;
    var t := WriterStep(s, false);
    NextKeeps(cfg, s, Write(false));
    PassStep(cfg, s);
    AloneAgain(cfg, s, 0);
    if t.writer.Resting? {
      n := 1;
    } else {
      var m := PassRests(cfg, t);
      AloneAgain(cfg, s, m);
      n := 1 + m;
    }
  }

  lemma AloneAgain(cfg: Config, s: State, n: nat)
    requires |s.slots| == SLOTS
    ensures WritesAlone(cfg, s, 1 + n) == WritesAlone(cfg, WriterStep(s, false), n)
  {}

  lemma {:induction false} AloneInTurn(cfg: Config, s: State, n: nat, m: nat)
    requires |s.slots| == SLOTS
    ensures WritesAlone(cfg, s, n + m) == WritesAlone(cfg, WritesAlone(cfg, s, n), m)
    decreases n
  {
    hide WriterStep;
    if n > 0 {
      AloneInTurn(cfg, WriterStep(s, false), n - 1, m);
    }
  }

  /** A writer that finds a record takes the oldest, and in the end has written it. */
  lemma WritesOldest(cfg: Config, s: State) returns (n: nat)
    requires Inv(cfg, s) && |s.slots| == SLOTS && s.writer.Resting? && s.mutex == Free && s.taken.None? && s.queue != []
    ensures var t := WritesAlone(cfg, s, n);
            && Inv(cfg, t) && t.writer.Resting? && t.mutex == Free && t.taken.None?
            && t.queue == s.queue[1..] && t.written == s.written + [s.queue[0]]
  {
    hide Inv;
    var one := WriterStep(s, false);
    var two := WriterStep(one, false);
    NextKeeps(cfg, s, Write(false));
    NextKeeps(cfg, one, Write(false));
    assert one == s.(mutex := HeldByWriter, writer := Popping);
    assert two.taken == Some(s.queue[0]) && two.queue == s.queue[1..] && two.written == s.written && two.mutex == Free
      && two.writer == Draining(0);
    hide WriterStep;
    var m := PassRests(cfg, two);
    AloneAgain(cfg, s, 1 + m);
    AloneAgain(cfg, one, m);
    n := 1 + (1 + m);
  }

  /** Everything that waits in the queue of any run is written, oldest first, by a writer that is left
      alone. */
  lemma {:induction false} QueueIsEmptied(cfg: Config, s: State) returns (n: nat)
    requires Inv(cfg, s) && |s.slots| == SLOTS && s.writer.Resting? && s.mutex == Free && s.taken.None?
    ensures var t := WritesAlone(cfg, s, n); t.queue == [] && t.written == s.written + s.queue
    decreases |s.queue|
  {
    hide Inv, WriterStep;
    if s.queue == [] {
      n := 0;
    } else {
      var m := WritesOldest(cfg, s);
      var k := QueueIsEmptied(cfg, WritesAlone(cfg, s, m));
      AloneInTurn(cfg, s, m, k);
      n := m + k;
    }
  }
}
