/** What holds under every interleaving of producers and writer. */
module LogQueueInvariant {
  import opened RobotBase
  import opened LogQueue

  // ---------------------------------------------------------------- texts

  /** Only what comes before the first NUL counts. */
  lemma {:induction false} CStringAgrees(a: string, b: string, n: nat)
    requires n < |a| && n < |b| && a[..n + 1] == b[..n + 1] && a[n] == NUL
    ensures CString(a) == CString(b)
    decreases n
  {
    assert a[0] == a[..n + 1][0] == b[..n + 1][0] == b[0];
    if n > 0 && a[0] != NUL {
      assert a[1..][..n] == a[..n + 1][1..] == b[..n + 1][1..] == b[1..][..n];
      CStringAgrees(a[1..], b[1..], n - 1);
    }
  }

  lemma {:induction false} CStringShort(text: string, n: nat)
    requires n < |text| && text[n] == NUL
    ensures |CString(text)| <= n && CString(text) == text[..|CString(text)|]
    ensures text[|CString(text)|] == NUL && forall i | 0 <= i < |CString(text)| :: text[i] != NUL
    decreases n
  {
    if n > 0 && text[0] != NUL {
      CStringShort(text[1..], n - 1);
      var m := |CString(text[1..])|;
      assert text[..m + 1] == [text[0]] + text[1..][..m];
    }
  }

  // ---------------------------------------------------------------- invariant

  function FillOf(producer: Producer): Option<nat> {
    match producer
    case Copying(_, slot, _, _) => Some(slot)
    case Describing(_, slot, _) => Some(slot)
    case Storing(_, slot, _) => Some(slot)
    case _ => None
  }

  predicate Locked(producer: Producer) {
    match producer
    case Away => false
    case Entering(_) => false
    case Owning(_) => true
    case Claiming(_, _, locked) => locked
    case Copying(_, _, _, locked) => locked
    case Describing(_, _, locked) => locked
    case Storing(_, _, locked) => locked
    case Alarming(_, locked) => locked
    case Counting(_, locked) => locked
  }

  /** A slot that is being filled is filled by exactly one producer. */
  ghost predicate OwnersSound(slots: seq<Slot>, producers: seq<Producer>) {
    && |slots| == SLOTS && (forall k | 0 <= k < SLOTS :: |slots[k].line| == LINE)
    && (forall p | 0 <= p < |producers| :: FillOf(producers[p]).Some? ==>
          var k := FillOf(producers[p]).value; k < SLOTS && slots[k].state == Filling && slots[k].owner == p)
    && (forall k | 0 <= k < SLOTS :: slots[k].state == Filling ==>
          slots[k].owner < |producers| && FillOf(producers[slots[k].owner]) == Some(k))
  }

  /** What a producer has written into its slot so far. */
  ghost predicate Filled(slot: Slot, producer: Producer) {
    && |slot.line| == LINE
    && match producer
       case Copying(r, _, n, _) => n <= |Fitting(r.line)| && slot.line[..n] == Fitting(r.line)[..n]
       case Describing(r, _, _) => slot.line[..|Fitting(r.line)| + 1] == Fitting(r.line) + [NUL]
       case Storing(r, _, _) =>
         slot.line[..|Fitting(r.line)| + 1] == Fitting(r.line) + [NUL] && slot.meta == MetaOf(r)
       case _ => true
  }

  ghost predicate ContentsSound(slots: seq<Slot>, producers: seq<Producer>) {
    forall p | 0 <= p < |producers| :: FillOf(producers[p]).Some? ==>
      FillOf(producers[p]).value < |slots| && Filled(slots[FillOf(producers[p]).value], producers[p])
  }

  predicate Taken(slot: Slot) { slot.state == Full || slot.state == Emptying }

  /** A full slot holds the whole of what its ticket stands for. */
  ghost predicate Whole(slot: Slot, saved: seq<Saved>) {
    && slot.ticket < |saved| && |CString(slot.line)| < |slot.line|
    && slot.line[|CString(slot.line)|] == NUL && CString(slot.line) == slot.line[..|CString(slot.line)|]
    && CString(slot.line) == saved[slot.ticket].text && slot.meta == saved[slot.ticket].meta
  }

  ghost predicate SavedSound(slots: seq<Slot>, saved: seq<Saved>) {
    forall k | 0 <= k < |slots| :: Taken(slots[k]) ==> Whole(slots[k], saved)
  }

  function EmptyingSlot(writer: Writer): Option<nat> {
    match writer
    case Reading(slot, _) => Some(slot)
    case Handing(slot, _) => Some(slot)
    case _ => None
  }

  /** The writer reads one slot at a time, and has read a part of its text. */
  ghost predicate WriterSound(slots: seq<Slot>, writer: Writer) {
    && (forall k | 0 <= k < |slots| :: slots[k].state == Emptying <==> EmptyingSlot(writer) == Some(k))
    && (EmptyingSlot(writer).Some? ==> EmptyingSlot(writer).value < |slots|)
    && (writer.Reading? ==> writer.text <= CString(slots[writer.slot].line))
    && (writer.Handing? ==> writer.text == CString(slots[writer.slot].line))
  }

  /** Every ticket is in exactly one slot or in exactly one delivery. */
  ghost predicate PlacesSound(slots: seq<Slot>, saved: seq<Saved>, places: seq<Place>, delivered: seq<Delivery>) {
    && |places| == |saved|
    && (forall t | 0 <= t < |places| :: places[t].InSlot? ==>
          places[t].slot < |slots| && Taken(slots[places[t].slot]) && slots[places[t].slot].ticket == t)
    && (forall t | 0 <= t < |places| :: places[t].Delivered? ==>
          places[t].index < |delivered| && delivered[places[t].index].ticket == t)
    && (forall k | 0 <= k < |slots| :: Taken(slots[k]) ==>
          slots[k].ticket < |places| && places[slots[k].ticket] == InSlot(k))
    && (forall i | 0 <= i < |delivered| ::
          && delivered[i].ticket < |places| && places[delivered[i].ticket] == Delivered(i)
          && Saved(delivered[i].text, delivered[i].meta) == saved[delivered[i].ticket])
  }

  ghost predicate MutexSound(mutex: Mutex, producers: seq<Producer>, writer: Writer) {
    && (forall p | 0 <= p < |producers| :: Locked(producers[p]) <==> mutex == HeldBy(p))
    && (mutex == HeldByWriter <==> writer.Popping?)
  }

  function Bytes(queue: seq<Record>): nat { if queue == [] then 0 else queue[0].bytes + Bytes(queue[1..]) }

  lemma {:induction false} BytesAppend(queue: seq<Record>, r: Record)
    ensures Bytes(queue + [r]) == Bytes(queue) + r.bytes
  {
    if queue == [] {
    } else {
      assert (queue + [r])[1..] == queue[1..] + [r];
      BytesAppend(queue[1..], r);
    }
  }

  ghost predicate QueueSound(cfg: Config, queue: seq<Record>, bytes: int, accepted: seq<Record>, popped: seq<Record>) {
    && bytes == Bytes(queue) <= cfg.memory && |queue| <= cfg.capacity && accepted == popped + queue
  }

  /** Calls that ended in a given way. */
  function Count(ended: seq<Ended>, outcome: Outcome): nat {
    if ended == [] then 0
    else Count(ended[..|ended| - 1], outcome) + if ended[|ended| - 1].outcome == outcome then 1 else 0
  }

  function LostTriggers(ended: seq<Ended>): nat {
    if ended == [] then 0
    else
      var last := ended[|ended| - 1];
      LostTriggers(ended[..|ended| - 1]) + if last.record.trigger && last.outcome == Dropped then 1 else 0
  }

  lemma CountAppend(ended: seq<Ended>, e: Ended, outcome: Outcome)
    ensures Count(ended + [e], outcome) == Count(ended, outcome) + if e.outcome == outcome then 1 else 0
    ensures LostTriggers(ended + [e]) == LostTriggers(ended) + if e.record.trigger && e.outcome == Dropped then 1 else 0
  {
    assert (ended + [e])[..|ended|] == ended;
  }

  /** Producers that have raised the alarm but not yet counted their loss. */
  function Raised(producers: seq<Producer>): nat {
    if producers == [] then 0 else (if producers[0].Counting? then 1 else 0) + Raised(producers[1..])
  }

  lemma {:induction false} RaisedUpdate(producers: seq<Producer>, p: nat, to: Producer)
    requires p < |producers|
    ensures Raised(producers[p := to]) + (if producers[p].Counting? then 1 else 0)
         == Raised(producers) + (if to.Counting? then 1 else 0)
  {
    if p == 0 {
      assert producers[p := to][1..] == producers[1..];
    } else {
      assert producers[p := to][1..] == producers[1..][p - 1 := to];
      RaisedUpdate(producers[1..], p - 1, to);
    }
  }

  predicate Rescues(producer: Producer) {
    match producer
    case Away => true
    case Entering(_) => true
    case Owning(_) => true
    case Claiming(r, _, _) => r.trigger
    case Copying(r, _, _, _) => r.trigger
    case Describing(r, _, _) => r.trigger
    case Storing(r, _, _) => r.trigger
    case Alarming(r, _) => r.trigger
    case Counting(r, _) => r.trigger
  }

  ghost predicate TallySound(ended: seq<Ended>, producers: seq<Producer>, accepted: nat, saved: nat, dropped: nat,
      alarms: nat, failures: nat) {
    && Count(ended, Queued) == accepted && Count(ended, Preserved) == saved
    && Count(ended, Dropped) + failures == dropped
    && LostTriggers(ended) + Raised(producers) == alarms
    && (forall p | 0 <= p < |producers| :: Rescues(producers[p]))
  }

  ghost predicate Inv(cfg: Config, s: State) {
    && OwnersSound(s.slots, s.producers) && ContentsSound(s.slots, s.producers)
    && SavedSound(s.slots, s.saved) && WriterSound(s.slots, s.writer)
    && PlacesSound(s.slots, s.saved, s.places, s.delivered)
    && MutexSound(s.mutex, s.producers, s.writer)
    && QueueSound(cfg, s.queue, s.queueBytes, s.accepted, s.popped)
    && TallySound(s.ended, s.producers, |s.accepted|, |s.saved|, s.dropped, s.alarms, s.failures)
  }

  lemma InitialHolds(cfg: Config, producers: nat)
    ensures Inv(cfg, Initial(producers))
  {
    NoneRaised(producers);
    hide CString, Filled, Whole;
  }

  lemma {:induction false} NoneRaised(n: nat)
    ensures Raised(seq(n, _ => Away)) == 0
  {
    if n > 0 {
      var all: seq<Producer> := seq(n, _ => Away);
      assert all[1..] == seq(n - 1, _ => Away);
      NoneRaised(n - 1);
    }
  }

  // ---------------------------------------------------------------- producer steps

  lemma OffSlot(slots: seq<Slot>, producers: seq<Producer>, p: nat, to: Producer)
    requires OwnersSound(slots, producers) && ContentsSound(slots, producers) && p < |producers|
    requires FillOf(producers[p]).None? && FillOf(to).None?
    ensures OwnersSound(slots, producers[p := to]) && ContentsSound(slots, producers[p := to])
  {
    hide Filled;
  }

  /** A producer that neither leaves nor takes a slot. */
  lemma MoveKeeps(cfg: Config, s: State, p: nat, to: Producer)
    requires Inv(cfg, s) && p < |s.producers|
    requires FillOf(s.producers[p]).None? && FillOf(to).None? && Rescues(to)
    requires !s.producers[p].Counting? && !to.Counting? && Locked(to) == Locked(s.producers[p])
    ensures Inv(cfg, Move(s, p, to))
  {
    OffSlot(s.slots, s.producers, p, to);
    RaisedUpdate(s.producers, p, to);
    hide OwnersSound, ContentsSound, SavedSound, WriterSound, PlacesSound, QueueSound, Count, LostTriggers, Raised;
  }

  /** A producer that returns gives the mutex back. */
  lemma Released(mutex: Mutex, producers: seq<Producer>, writer: Writer, p: nat)
    requires MutexSound(mutex, producers, writer) && p < |producers|
    ensures MutexSound(if Locked(producers[p]) then Free else mutex, producers[p := Away], writer)
  {}

  /** A call that returns is counted under its outcome. */
  lemma Tallied(s: State, p: nat, record: Record, outcome: Outcome)
    requires TallySound(s.ended, s.producers, |s.accepted|, |s.saved|, s.dropped, s.alarms, s.failures)
    requires p < |s.producers| && (s.producers[p].Counting? ==> outcome == Dropped)
    requires outcome == Dropped ==> record.trigger == s.producers[p].Counting?
    ensures TallySound(s.ended + [Ended(record, outcome)], s.producers[p := Away],
              |s.accepted| + if outcome == Queued then 1 else 0, |s.saved| + if outcome == Preserved then 1 else 0,
              s.dropped + if outcome == Dropped then 1 else 0, s.alarms, s.failures)
  {
    hide Count, LostTriggers, Raised;
    RaisedUpdate(s.producers, p, Away);
    CountAppend(s.ended, Ended(record, outcome), Queued);
    CountAppend(s.ended, Ended(record, outcome), Preserved);
    CountAppend(s.ended, Ended(record, outcome), Dropped);
  }

  lemma FinishKeeps(cfg: Config, s: State, p: nat, record: Record, outcome: Outcome)
    requires Inv(cfg, s) && p < |s.producers| && FillOf(s.producers[p]).None?
    requires outcome == Ignored || (outcome == Dropped && record.trigger == s.producers[p].Counting?)
    requires s.producers[p].Counting? ==> outcome == Dropped
    ensures Inv(cfg, Finish(s, p, record, outcome, Locked(s.producers[p])))
  {
    hide OwnersSound, ContentsSound, SavedSound, WriterSound, PlacesSound, QueueSound, MutexSound, TallySound;
    OffSlot(s.slots, s.producers, p, Away);
    Released(s.mutex, s.producers, s.writer, p);
    Tallied(s, p, record, outcome);
  }

  lemma LockKeeps(cfg: Config, s: State, p: nat, record: Record)
    requires Inv(cfg, s) && p < |s.producers| && s.producers[p] == Entering(record) && s.mutex == Free
    ensures Inv(cfg, Move(s, p, Owning(record)).(mutex := HeldBy(p)))
  {
    RaisedUpdate(s.producers, p, Owning(record));
    OffSlot(s.slots, s.producers, p, Owning(record));
    hide OwnersSound, ContentsSound, SavedSound, WriterSound, PlacesSound, QueueSound, Count, LostTriggers, Raised;
  }

  lemma EnterKeeps(cfg: Config, s: State, p: nat, unlucky: bool)
    requires Inv(cfg, s) && p < |s.producers| && s.producers[p].Entering?
    ensures Inv(cfg, Enter(s, p, s.producers[p].record, unlucky))
  {
    var record := s.producers[p].record;
    if s.mutex == Free && (record.csv || !unlucky) {
      LockKeeps(cfg, s, p, record);
    } else if !record.csv && record.trigger {
      MoveKeeps(cfg, s, p, Claiming(record, 0, false));
    } else if !record.csv {
      FinishKeeps(cfg, s, p, record, Dropped);
    }
    hide Inv, Finish, Move;
  }

  lemma QueueKeeps(cfg: Config, s: State, p: nat, record: Record)
    requires Inv(cfg, s) && p < |s.producers| && s.producers[p] == Owning(record)
    requires |s.queue| < cfg.capacity && s.queueBytes + record.bytes <= cfg.memory
    ensures Inv(cfg, Finish(s, p, record, Queued, true).(queue := s.queue + [record],
                     queueBytes := s.queueBytes + record.bytes, accepted := s.accepted + [record]))
  {
    hide OwnersSound, ContentsSound, SavedSound, WriterSound, PlacesSound, MutexSound, TallySound, Bytes;
    OffSlot(s.slots, s.producers, p, Away);
    Released(s.mutex, s.producers, s.writer, p);
    Tallied(s, p, record, Queued);
    BytesAppend(s.queue, record);
    assert s.popped + s.queue + [record] == s.popped + (s.queue + [record]);
  }

  lemma OfferKeeps(cfg: Config, s: State, p: nat)
    requires Inv(cfg, s) && p < |s.producers| && s.producers[p].Owning?
    ensures Inv(cfg, Offer(cfg, s, p, s.producers[p].record))
  {
    var record := s.producers[p].record;
    if !s.running {
      FinishKeeps(cfg, s, p, record, Ignored);
    } else if |s.queue| >= cfg.capacity || s.queueBytes + record.bytes > cfg.memory {
      if record.trigger {
        MoveKeeps(cfg, s, p, Claiming(record, 0, true));
      } else {
        FinishKeeps(cfg, s, p, record, Dropped);
      }
    } else {
      QueueKeeps(cfg, s, p, record);
    }
    hide Inv, Finish, Move;
  }

  /** A slot that is vacant or being filled does not matter to saved records, places and the writer. */
  lemma Apart(s: State, k: nat, content: Slot)
    requires k < |s.slots| && !Taken(s.slots[k]) && !Taken(content)
    requires SavedSound(s.slots, s.saved) && WriterSound(s.slots, s.writer)
    requires PlacesSound(s.slots, s.saved, s.places, s.delivered)
    ensures SavedSound(s.slots[k := content], s.saved) && WriterSound(s.slots[k := content], s.writer)
    ensures PlacesSound(s.slots[k := content], s.saved, s.places, s.delivered)
  {
    hide Whole, CString;
  }

  lemma SameMutex(mutex: Mutex, producers: seq<Producer>, writer: Writer, p: nat, to: Producer)
    requires MutexSound(mutex, producers, writer) && p < |producers| && Locked(to) == Locked(producers[p])
    ensures MutexSound(mutex, producers[p := to], writer)
  {}

  lemma SameTally(ended: seq<Ended>, producers: seq<Producer>, accepted: nat, saved: nat, dropped: nat, alarms: nat,
      failures: nat, p: nat, to: Producer)
    requires TallySound(ended, producers, accepted, saved, dropped, alarms, failures) && p < |producers|
    requires Rescues(to) && !producers[p].Counting? && !to.Counting?
    ensures TallySound(ended, producers[p := to], accepted, saved, dropped, alarms, failures)
  {
    RaisedUpdate(producers, p, to);
    hide Count, LostTriggers, Raised;
  }

  lemma TakeOwners(slots: seq<Slot>, producers: seq<Producer>, p: nat, to: Producer)
    requires OwnersSound(slots, producers) && ContentsSound(slots, producers) && p < |producers|
    requires FillOf(producers[p]).None? && to.Copying? && to.copied == 0 && to.slot < SLOTS && slots[to.slot].state == Vacant
    ensures var after := slots[to.slot := slots[to.slot].(state := Filling, owner := p)];
            OwnersSound(after, producers[p := to]) && ContentsSound(after, producers[p := to])
  {
    hide Fitting;
    var taken := slots[to.slot].(state := Filling, owner := p);
    assert Filled(taken, to);
    hide Filled;
  }

  /** A vacant slot is claimed. */
  lemma TakeSlotKeeps(cfg: Config, s: State, p: nat, to: Producer)
    requires Inv(cfg, s) && p < |s.producers| && s.producers[p].Claiming? && to.Copying? && to.copied == 0
    requires to.slot < SLOTS && s.slots[to.slot].state == Vacant
    requires to.locked == s.producers[p].locked && to.record == s.producers[p].record
    ensures Inv(cfg, Move(s, p, to).(slots := s.slots[to.slot := s.slots[to.slot].(state := Filling, owner := p)]))
  {
    TakeOwners(s.slots, s.producers, p, to);
    Apart(s, to.slot, s.slots[to.slot].(state := Filling, owner := p));
    assert Rescues(s.producers[p]);
    hide OwnersSound, ContentsSound, SavedSound, WriterSound, PlacesSound, QueueSound, MutexSound, TallySound;
    SameMutex(s.mutex, s.producers, s.writer, p, to);
    SameTally(s.ended, s.producers, |s.accepted|, |s.saved|, s.dropped, s.alarms, s.failures, p, to);
  }

  lemma SlotsOf(cfg: Config, s: State, p: nat)
    requires Inv(cfg, s) && p < |s.producers|
    ensures |s.slots| == SLOTS && Rescues(s.producers[p])
  {}

  lemma ClaimKeeps(cfg: Config, s: State, p: nat)
    requires Inv(cfg, s) && p < |s.producers| && s.producers[p].Claiming?
    ensures |s.slots| == SLOTS && Inv(cfg, Claim(s, p, s.producers[p].record, s.producers[p].slot, s.producers[p].locked))
  {
    hide Inv, Move;
    SlotsOf(cfg, s, p);
    var r, slot, locked := s.producers[p].record, s.producers[p].slot, s.producers[p].locked;
    if slot >= SLOTS {
      MoveKeeps(cfg, s, p, Alarming(r, locked));
    } else if s.slots[slot].state != Vacant {
      MoveKeeps(cfg, s, p, Claiming(r, slot + 1, locked));
    } else {
      TakeSlotKeeps(cfg, s, p, Copying(r, slot, 0, locked));
    }
  }

  lemma FillSlot(slots: seq<Slot>, producers: seq<Producer>, p: nat, k: nat, to: Producer, content: Slot)
    requires OwnersSound(slots, producers) && ContentsSound(slots, producers) && p < |producers| && k < SLOTS
    requires FillOf(producers[p]) == Some(k) && FillOf(to) == Some(k) && Filled(content, to)
    requires content == slots[k].(line := content.line, meta := content.meta)
    ensures OwnersSound(slots[k := content], producers[p := to]) && ContentsSound(slots[k := content], producers[p := to])
  {
    hide Filled;
    forall q | 0 <= q < |producers| && q != p && FillOf(producers[q]).Some?
      ensures FillOf(producers[q]).value != k
    {}
    assert |content.line| == LINE by {
      FilledLength(content, to);
    }
  }

  lemma FilledLength(slot: Slot, producer: Producer)
    requires Filled(slot, producer)
    ensures |slot.line| == LINE
  {}

  /** The owner of a slot changes its content. */
  lemma FillKeeps(cfg: Config, s: State, p: nat, to: Producer, slot: nat, content: Slot)
    requires Inv(cfg, s) && p < |s.producers| && slot < SLOTS
    requires FillOf(s.producers[p]) == Some(slot) && FillOf(to) == Some(slot)
    requires content == s.slots[slot].(line := content.line, meta := content.meta)
    requires Filled(content, to) && Rescues(to) && Locked(to) == Locked(s.producers[p])
    ensures Inv(cfg, Move(s, p, to).(slots := s.slots[slot := content]))
  {
    assert s.slots[slot].state == Filling;
    hide OwnersSound, ContentsSound, SavedSound, WriterSound, PlacesSound, QueueSound, MutexSound, TallySound, Filled,
         Rescues, Locked;
    FillSlot(s.slots, s.producers, p, slot, to, content);
    Apart(s, slot, content);
    SameMutex(s.mutex, s.producers, s.writer, p, to);
    SameTally(s.ended, s.producers, |s.accepted|, |s.saved|, s.dropped, s.alarms, s.failures, p, to);
  }

  /** One more character of the text, or the NUL behind it. */
  lemma CopyFills(slot: Slot, pr: Producer)
    requires pr.Copying? && Filled(slot, pr)
    ensures pr.copied < |slot.line|
    ensures var text := Fitting(pr.record.line);
            if pr.copied < |text| then Filled(WriteChar(slot, pr.copied, text[pr.copied]), pr.(copied := pr.copied + 1))
            else Filled(WriteChar(slot, pr.copied, NUL), Describing(pr.record, pr.slot, pr.locked))
  {
    var text := Fitting(pr.record.line);
    if pr.copied < |text| {
      assert WriteChar(slot, pr.copied, text[pr.copied]).line[..pr.copied + 1] == text[..pr.copied + 1];
    } else {
      assert WriteChar(slot, pr.copied, NUL).line[..|text| + 1] == text + [NUL];
    }
  }

  lemma FillingOf(cfg: Config, s: State, p: nat)
    requires Inv(cfg, s) && p < |s.producers| && FillOf(s.producers[p]).Some?
    ensures |s.slots| == SLOTS && Rescues(s.producers[p])
    ensures var k := FillOf(s.producers[p]).value;
            k < SLOTS && s.slots[k].state == Filling && Filled(s.slots[k], s.producers[p])
  {}

  lemma CopyKeeps(cfg: Config, s: State, p: nat)
    requires Inv(cfg, s) && p < |s.producers| && s.producers[p].Copying?
    ensures var pr := s.producers[p];
            pr.slot < |s.slots| && pr.copied < |s.slots[pr.slot].line| &&
            Inv(cfg, Copy(s, p, pr.record, pr.slot, pr.copied, pr.locked))
  {
    hide Inv, Move, Fitting, Filled;
    FillingOf(cfg, s, p);
    var pr := s.producers[p];
    var slot, text := s.slots[pr.slot], Fitting(pr.record.line);
    CopyFills(slot, pr);
    if pr.copied < |text| {
      FillKeeps(cfg, s, p, pr.(copied := pr.copied + 1), pr.slot, WriteChar(slot, pr.copied, text[pr.copied]));
    } else {
      FillKeeps(cfg, s, p, Describing(pr.record, pr.slot, pr.locked), pr.slot, WriteChar(slot, pr.copied, NUL));
    }
  }

  lemma DescribeKeeps(cfg: Config, s: State, p: nat)
    requires Inv(cfg, s) && p < |s.producers| && s.producers[p].Describing?
    ensures var pr := s.producers[p]; pr.slot < |s.slots| && Inv(cfg, Describe(s, p, pr.record, pr.slot, pr.locked))
  {
    var pr := s.producers[p];
    assert Filled(s.slots[pr.slot], pr);
    FillKeeps(cfg, s, p, Storing(pr.record, pr.slot, pr.locked), pr.slot, s.slots[pr.slot].(meta := MetaOf(pr.record)));
    hide Inv, Move, Filled;
  }

  /** A filled slot holds exactly what can be preserved of its record. */
  lemma FilledIsWhole(slot: Slot, r: Record, saved: seq<Saved>)
    requires |slot.line| == LINE && slot.line[..|Fitting(r.line)| + 1] == Fitting(r.line) + [NUL] && slot.meta == MetaOf(r)
    ensures Whole(slot.(state := Full, ticket := |saved|), saved + [Saved(Preservable(r.line), MetaOf(r))])
  {
    var n := |Fitting(r.line)|;
    assert slot.line[n] == slot.line[..n + 1][n];
    CStringAgrees(slot.line, Fitting(r.line) + [NUL], n);
    CStringShort(slot.line, n);
  }

  lemma StoreSaved(slots: seq<Slot>, saved: seq<Saved>, k: nat, full: Slot, entry: Saved)
    requires SavedSound(slots, saved) && k < |slots| && Whole(full, saved + [entry])
    ensures SavedSound(slots[k := full], saved + [entry])
  {
    forall j | 0 <= j < |slots| && j != k && Taken(slots[j])
      ensures Whole(slots[j], saved + [entry])
    {
      assert Whole(slots[j], saved);
      hide CString;
    }
  }

  lemma StorePlaces(slots: seq<Slot>, saved: seq<Saved>, places: seq<Place>, delivered: seq<Delivery>, k: nat, full: Slot,
      entry: Saved)
    requires PlacesSound(slots, saved, places, delivered) && k < |slots| && !Taken(slots[k])
    requires full.state == Full && full.ticket == |saved|
    ensures PlacesSound(slots[k := full], saved + [entry], places + [InSlot(k)], delivered)
  {}

  lemma StoreWriter(slots: seq<Slot>, writer: Writer, k: nat, full: Slot)
    requires WriterSound(slots, writer) && k < |slots| && slots[k].state == Filling && full.state == Full
    ensures WriterSound(slots[k := full], writer)
  {
    hide CString;
  }

  /** The producer that has filled a slot leaves it. */
  lemma LeaveSlot(slots: seq<Slot>, producers: seq<Producer>, p: nat, k: nat, full: Slot)
    requires OwnersSound(slots, producers) && ContentsSound(slots, producers) && p < |producers|
    requires FillOf(producers[p]) == Some(k) && full.state == Full && |full.line| == LINE
    ensures k < |slots| && OwnersSound(slots[k := full], producers[p := Away])
    ensures ContentsSound(slots[k := full], producers[p := Away])
  {
    hide Filled;
    var after := producers[p := Away];
    forall q | 0 <= q < |after| && FillOf(after[q]).Some?
      ensures q != p && FillOf(after[q]).value != k
    {}
  }

  lemma StoreTally(cfg: Config, s: State, p: nat, record: Record)
    requires Inv(cfg, s) && p < |s.producers| && s.producers[p].Storing?
    ensures TallySound(s.ended + [Ended(record, Preserved)], s.producers[p := Away], |s.accepted|, |s.saved| + 1,
              s.dropped, s.alarms, s.failures)
    ensures MutexSound(if Locked(s.producers[p]) then Free else s.mutex, s.producers[p := Away], s.writer)
  {
    hide OwnersSound, ContentsSound, SavedSound, WriterSound, PlacesSound, QueueSound, MutexSound, TallySound;
    Released(s.mutex, s.producers, s.writer, p);
    Tallied(s, p, record, Preserved);
  }

  lemma StoreKeeps(cfg: Config, s: State, p: nat)
    requires Inv(cfg, s) && p < |s.producers| && s.producers[p].Storing?
    ensures var pr := s.producers[p]; pr.slot < |s.slots| && Inv(cfg, Store(s, p, pr.record, pr.slot, pr.locked))
  {
    var pr := s.producers[p];
    var slot, entry := s.slots[pr.slot], Saved(Preservable(pr.record.line), MetaOf(pr.record));
    var full := slot.(state := Full, ticket := |s.saved|);
    assert Filled(slot, pr) && slot.state == Filling;
    FilledIsWhole(slot, pr.record, s.saved);
    hide OwnersSound, ContentsSound, SavedSound, WriterSound, PlacesSound, QueueSound, MutexSound, TallySound, Whole,
         Filled, Preservable, Fitting;
    StoreSaved(s.slots, s.saved, pr.slot, full, entry);
    StorePlaces(s.slots, s.saved, s.places, s.delivered, pr.slot, full, entry);
    StoreWriter(s.slots, s.writer, pr.slot, full);
    LeaveSlot(s.slots, s.producers, p, pr.slot, full);
    StoreTally(cfg, s, p, pr.record);
  }

  lemma AlarmKeeps(cfg: Config, s: State, p: nat)
    requires Inv(cfg, s) && p < |s.producers| && s.producers[p].Alarming?
    ensures Inv(cfg, Move(s, p, Counting(s.producers[p].record, s.producers[p].locked))
              .(pending := true, alarms := s.alarms + 1))
  {
    RaisedUpdate(s.producers, p, Counting(s.producers[p].record, s.producers[p].locked));
    OffSlot(s.slots, s.producers, p, Counting(s.producers[p].record, s.producers[p].locked));
    hide OwnersSound, ContentsSound, SavedSound, WriterSound, PlacesSound, QueueSound, Count, LostTriggers, Raised;
  }

  lemma ProducerKeeps(cfg: Config, s: State, p: nat, unlucky: bool)
    requires Inv(cfg, s) && p < |s.producers|
    ensures |s.slots| == SLOTS && Inv(cfg, ProducerStep(cfg, s, p, unlucky))
  {
    assert |s.slots| == SLOTS;
    hide Inv, Move, Finish, Enter, Offer, Claim, Copy, Describe, Store;
    match s.producers[p]
    case Away =>
    case Entering(_) => EnterKeeps(cfg, s, p, unlucky);
    case Owning(_) => OfferKeeps(cfg, s, p);
    case Claiming(_, _, _) => ClaimKeeps(cfg, s, p);
    case Copying(_, _, _, _) => CopyKeeps(cfg, s, p);
    case Describing(_, _, _) => DescribeKeeps(cfg, s, p);
    case Storing(_, _, _) => StoreKeeps(cfg, s, p);
    case Alarming(_, _) => AlarmKeeps(cfg, s, p);
    case Counting(r, locked) => CountingKeeps(cfg, s, p);
  }

  lemma CountingKeeps(cfg: Config, s: State, p: nat)
    requires Inv(cfg, s) && p < |s.producers| && s.producers[p].Counting?
    ensures Inv(cfg, Finish(s, p, s.producers[p].record, Dropped, s.producers[p].locked))
  {
    assert Rescues(s.producers[p]);
    FinishKeeps(cfg, s, p, s.producers[p].record, Dropped);
  }

  // ---------------------------------------------------------------- writer steps

  lemma PopKeeps(cfg: Config, s: State)
    requires Inv(cfg, s) && s.writer.Popping?
    ensures Inv(cfg, Pop(s))
  {
    if s.queue != [] {
      assert s.popped + s.queue == (s.popped + [s.queue[0]]) + s.queue[1..];
    }
    hide OwnersSound, ContentsSound, SavedSound, PlacesSound, TallySound, CString;
  }

  lemma DrainKeeps(cfg: Config, s: State, fails: bool)
    requires Inv(cfg, s) && s.writer.Draining?
    ensures |s.slots| == SLOTS && Inv(cfg, Drain(s, s.writer.slot, fails))
  {
    hide QueueSound, CString, Filled, Whole, Count, LostTriggers, Raised;
    var k := s.writer.slot;
    if k < SLOTS && s.slots[k].state == Full {
      var slot := s.slots[k];
      assert Whole(slot, s.saved);
      var next := slot.(state := Emptying);
      SameContent(slot, next, s.saved);
    }
  }

  lemma SameContent(slot: Slot, next: Slot, saved: seq<Saved>)
    requires next == slot.(state := next.state) && Whole(slot, saved)
    ensures Whole(next, saved)
  {}

  lemma ReadKeeps(cfg: Config, s: State)
    requires Inv(cfg, s) && s.writer.Reading?
    ensures s.writer.slot < |s.slots| && |s.writer.text| < |s.slots[s.writer.slot].line|
    ensures Inv(cfg, Read(s, s.writer.slot, s.writer.text))
  {
    var k, text := s.writer.slot, s.writer.text;
    var slot := s.slots[k];
    assert Whole(slot, s.saved);
    var whole := CString(slot.line);
    CStringShort(slot.line, |whole|);
    hide OwnersSound, ContentsSound, SavedSound, PlacesSound, TallySound, QueueSound, CString;
    if |text| < |whole| {
      assert slot.line[|text|] == whole[|text|];
      assert text + [whole[|text|]] <= whole;
    }
  }

  lemma HandOverKeeps(cfg: Config, s: State, fails: bool)
    requires Inv(cfg, s) && s.writer.Handing?
    ensures s.writer.slot < |s.slots| && Inv(cfg, HandOver(s, s.writer.slot, s.writer.text, fails))
  {
    var k := s.writer.slot;
    var slot := s.slots[k];
    assert Whole(slot, s.saved);
    var free := slot.(state := Vacant);
    assert Saved(s.writer.text, slot.meta) == s.saved[slot.ticket];
    hide QueueSound, Filled, Whole, CString, Count, LostTriggers, Raised;
    HandPlaces(s.slots, s.saved, s.places, s.delivered, k, s.writer.text);
    FreeOwners(s.slots, s.producers, k, free);
    hide PlacesSound, OwnersSound, ContentsSound;
  }

  lemma FreeOwners(slots: seq<Slot>, producers: seq<Producer>, k: nat, free: Slot)
    requires OwnersSound(slots, producers) && ContentsSound(slots, producers) && k < |slots|
    requires slots[k].state == Emptying && free == slots[k].(state := Vacant)
    ensures OwnersSound(slots[k := free], producers) && ContentsSound(slots[k := free], producers)
  {
    hide Filled;
  }

  lemma HandPlaces(slots: seq<Slot>, saved: seq<Saved>, places: seq<Place>, delivered: seq<Delivery>, k: nat, text: string)
    requires PlacesSound(slots, saved, places, delivered) && k < |slots| && Taken(slots[k])
    requires slots[k].ticket < |saved| && Saved(text, slots[k].meta) == saved[slots[k].ticket]
    ensures PlacesSound(slots[k := slots[k].(state := Vacant)], saved, places[slots[k].ticket := Delivered(|delivered|)],
              delivered + [Delivery(slots[k].ticket, text, slots[k].meta)])
  {}

  lemma WriterKeeps(cfg: Config, s: State, fails: bool)
    requires Inv(cfg, s)
    ensures |s.slots| == SLOTS && Inv(cfg, WriterStep(s, fails))
  {
    assert |s.slots| == SLOTS;
    match s.writer
    case Resting => if s.mutex == Free { RestKeeps(cfg, s); }
    case Popping => PopKeeps(cfg, s); hide Inv, Pop;
    case Draining(_) => DrainKeeps(cfg, s, fails); hide Inv, Drain;
    case Reading(_, _) => ReadKeeps(cfg, s); hide Inv, Read;
    case Handing(_, _) => HandOverKeeps(cfg, s, fails); hide Inv, HandOver;
    case Recording => RecordKeeps(cfg, s, fails); hide Inv, WriteTaken;
  }

  lemma RecordKeeps(cfg: Config, s: State, fails: bool)
    requires Inv(cfg, s) && s.writer.Recording?
    ensures Inv(cfg, WriteTaken(s, fails))
  {
    hide OwnersSound, ContentsSound, SavedSound, PlacesSound, QueueSound, Count, LostTriggers, Raised;
  }

  lemma RestKeeps(cfg: Config, s: State)
    requires Inv(cfg, s) && s.writer.Resting? && s.mutex == Free
    ensures Inv(cfg, s.(mutex := HeldByWriter, writer := Popping))
  {
    hide OwnersSound, ContentsSound, SavedSound, PlacesSound, TallySound, QueueSound;
  }

  lemma NextKeeps(cfg: Config, s: State, e: Event)
    requires Inv(cfg, s)
    ensures |s.slots| == SLOTS && Inv(cfg, Next(cfg, s, e))
  {
    assert |s.slots| == SLOTS;
    match e
    case Call(p, record) =>
      if p < |s.producers| && s.producers[p].Away? {
        MoveKeeps(cfg, s, p, Entering(record));
      }
      hide Inv, Move;
    case Produce(p, unlucky) =>
      hide Inv, ProducerStep;
      if p < |s.producers| {
        ProducerKeeps(cfg, s, p, unlucky);
      }
    case Write(fails) => hide Inv, WriterStep; WriterKeeps(cfg, s, fails);
    case TakeSnapshot =>
    case Stop =>
  }

  lemma {:induction false} RunHolds(cfg: Config, producers: nat, events: seq<Event>)
    ensures Inv(cfg, Run(cfg, producers, events))
    decreases |events|
  {
    hide Inv, Next;
    if events == [] {
      InitialHolds(cfg, producers);
    } else {
      RunHolds(cfg, producers, events[..|events| - 1]);
      NextKeeps(cfg, Run(cfg, producers, events[..|events| - 1]), events[|events| - 1]);
    }
  }
}
