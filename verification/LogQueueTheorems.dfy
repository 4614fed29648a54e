/** What the log hand-off promises over whole runs. */
module LogQueueTheorems {
  import opened RobotBase
  import opened LogQueue
  import opened LogQueueInvariant

  /** The ticket waits in some slot. */
  ghost predicate Waits(s: State, t: nat) {
    exists k :: 0 <= k < |s.slots| && Taken(s.slots[k]) && s.slots[k].ticket == t
  }

  ghost predicate Reached(s: State, t: nat) {
    exists i :: 0 <= i < |s.delivered| && s.delivered[i].ticket == t
  }

  /** Every preserved record waits in exactly one slot or has reached the writer exactly once, and
      it reaches the writer exactly as it was preserved. */
  lemma ExactlyOnce(cfg: Config, producers: nat, events: seq<Event>)
    ensures var s := Run(cfg, producers, events);
            && (forall i, j | 0 <= i < j < |s.delivered| :: s.delivered[i].ticket != s.delivered[j].ticket)
            && (forall k, l | 0 <= k < l < SLOTS && Taken(s.slots[k]) && Taken(s.slots[l]) ::
                  s.slots[k].ticket != s.slots[l].ticket)
            && (forall t | 0 <= t < |s.saved| :: Reached(s, t) <==> !Waits(s, t))
            && (forall i | 0 <= i < |s.delivered| ::
                  && s.delivered[i].ticket < |s.saved|
                  && Saved(s.delivered[i].text, s.delivered[i].meta) == s.saved[s.delivered[i].ticket])
  {
    RunHolds(cfg, producers, events);
    var s := Run(cfg, producers, events);
    hide Run, OwnersSound, ContentsSound, SavedSound, WriterSound, MutexSound, QueueSound, TallySound;
    forall t | 0 <= t < |s.saved|
      ensures Reached(s, t) <==> !Waits(s, t)
    {
      match s.places[t]
      case InSlot(k) => assert Taken(s.slots[k]) && s.slots[k].ticket == t;
      case Delivered(i) => assert s.delivered[i].ticket == t;
    }
  }

  /** While the writer reads a slot no producer writes it, and what has been read so far is the
      beginning of the preserved text. */
  lemma NeverHalfWritten(cfg: Config, producers: nat, events: seq<Event>, k: nat)
    requires EmptyingSlot(Run(cfg, producers, events).writer) == Some(k)
    ensures var s := Run(cfg, producers, events);
            && k < SLOTS && (forall p | 0 <= p < |s.producers| :: FillOf(s.producers[p]) != Some(k))
            && s.slots[k].ticket < |s.saved| && s.writer.text <= s.saved[s.slots[k].ticket].text
            && s.slots[k].meta == s.saved[s.slots[k].ticket].meta
  {
    RunHolds(cfg, producers, events);
    var s := Run(cfg, producers, events);
    hide Run, ContentsSound, PlacesSound, MutexSound, QueueSound, TallySound, CString;
    assert s.slots[k].state == Emptying && Whole(s.slots[k], s.saved);
  }

  /** No two producers ever fill the same slot. */
  lemma OneProducerPerSlot(cfg: Config, producers: nat, events: seq<Event>, p: nat, q: nat)
    requires p < |Run(cfg, producers, events).producers| && q < |Run(cfg, producers, events).producers|
    requires FillOf(Run(cfg, producers, events).producers[p]).Some?
    requires FillOf(Run(cfg, producers, events).producers[p]) == FillOf(Run(cfg, producers, events).producers[q])
    ensures p == q
  {
    RunHolds(cfg, producers, events);
    hide Run;
  }

  /** The byte counter is the sum over the queue, both limits hold, and the queue is first in,
      first out. */
  lemma QueueIsBounded(cfg: Config, producers: nat, events: seq<Event>)
    ensures var s := Run(cfg, producers, events);
            && s.queueBytes == Bytes(s.queue) <= cfg.memory && |s.queue| <= cfg.capacity
            && s.accepted == s.popped + s.queue
  {
    RunHolds(cfg, producers, events);
    hide Run;
  }

  /** Every loss is counted and every lost trigger has raised the snapshot flag. */
  lemma LossesAreCounted(cfg: Config, producers: nat, events: seq<Event>)
    ensures var s := Run(cfg, producers, events);
            && Count(s.ended, Queued) == |s.accepted| && Count(s.ended, Preserved) == |s.saved|
            && s.dropped == Count(s.ended, Dropped) + s.failures
            && s.alarms == LostTriggers(s.ended) + Raised(s.producers)
  {
    RunHolds(cfg, producers, events);
    hide Run;
  }

  function RecordOf(producer: Producer): Record
    requires !producer.Away?
  {
    producer.record
  }

  /** The four ways in which a call can end. */
  predicate EndsIn(s: State, t: State, r: Record, outcome: Outcome) {
    && t.ended == s.ended + [Ended(r, outcome)]
    && t.accepted == (if outcome == Queued then s.accepted + [r] else s.accepted)
    && t.saved == (if outcome == Preserved then s.saved + [Saved(Preservable(r.line), MetaOf(r))] else s.saved)
    && t.dropped == (if outcome == Dropped then s.dropped + 1 else s.dropped)
    && (outcome == Preserved ==> r.trigger)
    && (outcome == Ignored ==> !s.running)
  }

  /** The call is still under way and has left no trace. */
  predicate GoesOn(s: State, t: State, p: nat, r: Record)
    requires p < |t.producers|
  {
    && !t.producers[p].Away? && RecordOf(t.producers[p]) == r
    && t.ended == s.ended && t.accepted == s.accepted && t.saved == s.saved && t.dropped == s.dropped
  }

  /** The call goes on, or it has returned with exactly one outcome. */
  ghost predicate Accounted(s: State, t: State, p: nat, r: Record)
    requires p < |t.producers|
  {
    GoesOn(s, t, p, r) || (t.producers[p].Away? && exists outcome :: EndsIn(s, t, r, outcome))
  }

  lemma EntryOutcome(s: State, p: nat, r: Record, unlucky: bool)
    requires p < |s.producers| && s.producers[p] == Entering(r)
    ensures var t := Enter(s, p, r, unlucky); p < |t.producers| && Accounted(s, t, p, r)
  {
    var t := Enter(s, p, r, unlucky);
    if t.producers[p].Away? {
      assert EndsIn(s, t, r, Dropped);
    }
  }

  lemma OfferOutcome(cfg: Config, s: State, p: nat, r: Record)
    requires p < |s.producers|
    ensures var t := Offer(cfg, s, p, r); p < |t.producers| && Accounted(s, t, p, r)
  {
    var t := Offer(cfg, s, p, r);
    if !s.running {
      assert EndsIn(s, t, r, Ignored);
    } else if t.accepted != s.accepted {
      assert EndsIn(s, t, r, Queued);
    } else if t.producers[p].Away? {
      assert EndsIn(s, t, r, Dropped);
    }
  }

  lemma StoreOutcome(s: State, p: nat, r: Record, slot: nat, locked: bool)
    requires p < |s.producers| && slot < |s.slots| && r.trigger
    ensures var t := Store(s, p, r, slot, locked); p < |t.producers| && Accounted(s, t, p, r)
  {
    assert EndsIn(s, Store(s, p, r, slot, locked), r, Preserved);
  }

  lemma LossOutcome(s: State, p: nat, r: Record, locked: bool)
    requires p < |s.producers|
    ensures var t := Finish(s, p, r, Dropped, locked); p < |t.producers| && Accounted(s, t, p, r)
  {
    assert EndsIn(s, Finish(s, p, r, Dropped, locked), r, Dropped);
  }

  lemma ClaimOutcome(s: State, p: nat, r: Record, slot: nat, locked: bool)
    requires |s.slots| == SLOTS && p < |s.producers|
    ensures var t := Claim(s, p, r, slot, locked); p < |t.producers| && Accounted(s, t, p, r)
  {}

  lemma CopyOutcome(s: State, p: nat, r: Record, slot: nat, copied: nat, locked: bool)
    requires p < |s.producers| && slot < |s.slots| && copied < |s.slots[slot].line|
    ensures var t := Copy(s, p, r, slot, copied, locked); p < |t.producers| && Accounted(s, t, p, r)
  {
    hide Fitting, WriteChar;
  }

  lemma DescribeOutcome(s: State, p: nat, r: Record, slot: nat, locked: bool)
    requires p < |s.producers| && slot < |s.slots|
    ensures var t := Describe(s, p, r, slot, locked); p < |t.producers| && Accounted(s, t, p, r)
  {}

  lemma AlarmOutcome(s: State, p: nat, r: Record, locked: bool)
    requires p < |s.producers|
    ensures var t := Move(s, p, Counting(r, locked)).(pending := true, alarms := s.alarms + 1);
            p < |t.producers| && Accounted(s, t, p, r)
  {}

  /** The slot a producer fills exists, and the text it copies fits. */
  predicate InBounds(s: State, producer: Producer) {
    match producer
    case Copying(_, slot, copied, _) => slot < |s.slots| && copied < |s.slots[slot].line|
    case Describing(_, slot, _) => slot < |s.slots|
    case Storing(_, slot, _) => slot < |s.slots|
    case _ => true
  }

  /** A call that returns has been queued, preserved or counted as dropped, exactly one of them,
      unless the logger does not run; until then it leaves no trace in any of these. */
  lemma CallsEndOnce(cfg: Config, s: State, p: nat, unlucky: bool)
    requires Inv(cfg, s) && |s.slots| == SLOTS && p < |s.producers| && !s.producers[p].Away?
    ensures var t := ProducerStep(cfg, s, p, unlucky); p < |t.producers| && Accounted(s, t, p, RecordOf(s.producers[p]))
  {
    var r := RecordOf(s.producers[p]);
    assert Rescues(s.producers[p]) && InBounds(s, s.producers[p]);
    hide Inv, Enter, Offer, Store, Finish, Claim, Copy, Describe, Move, Accounted, GoesOn;
    match s.producers[p]
    case Entering(_) => EntryOutcome(s, p, r, unlucky);
    case Owning(_) => OfferOutcome(cfg, s, p, r);
    case Claiming(_, slot, locked) => ClaimOutcome(s, p, r, slot, locked);
    case Copying(_, slot, copied, locked) => CopyOutcome(s, p, r, slot, copied, locked);
    case Describing(_, slot, locked) => DescribeOutcome(s, p, r, slot, locked);
    case Storing(_, slot, locked) => StoreOutcome(s, p, r, slot, locked);
    case Alarming(_, locked) => AlarmOutcome(s, p, r, locked);
    case Counting(_, locked) => LossOutcome(s, p, r, locked);
    case Away => assert false;
  }

  // ---------------------------------------------------------------- when a trigger is lost

  /** One producer alone, a number of steps. */
  function Alone(cfg: Config, s: State, p: nat, n: nat): (t: State)
    requires p < |s.producers| && |s.slots| == SLOTS
    ensures |t.producers| == |s.producers| && |t.slots| == SLOTS
    decreases n
  {
    if n == 0 then s else Alone(cfg, ProducerStep(cfg, s, p, false), p, n - 1)
  }

  predicate AnyVacant(s: State, from: nat) {
    exists k :: from <= k < |s.slots| && s.slots[k].state == Vacant
  }

  lemma {:induction false} ScanFinds(cfg: Config, s: State, p: nat) returns (n: nat)
    requires p < |s.producers| && |s.slots| == SLOTS && s.producers[p].Claiming? && s.producers[p].slot <= SLOTS
    ensures var t, pr := Alone(cfg, s, p, n), s.producers[p];
            if AnyVacant(s, pr.slot) then t.producers[p].Copying? && t.producers[p].record == pr.record && t.pending == s.pending
            else t.producers[p] == Counting(pr.record, pr.locked) && t.pending
    decreases SLOTS - s.producers[p].slot
  {
    var pr, next := s.producers[p], ProducerStep(cfg, s, p, false);
    if pr.slot >= SLOTS {
      n := 2;
      assert Alone(cfg, next, p, 1) == ProducerStep(cfg, next, p, false);
    } else if s.slots[pr.slot].state == Vacant {
      n := 1;
    } else {
      assert AnyVacant(s, pr.slot) == AnyVacant(next, pr.slot + 1);
      var m := ScanFinds(cfg, next, p);
      n := m + 1;
    }
  }

  /** Undisturbed, a trigger that finds the queue closed is lost exactly if all slots are taken,
      and then the snapshot flag is set. */
  lemma LostOnlyIfAllTaken(cfg: Config, s: State, p: nat) returns (n: nat)
    requires p < |s.producers| && |s.slots| == SLOTS && s.producers[p].Claiming? && s.producers[p].slot == 0
    ensures var t := Alone(cfg, s, p, n);
            && (t.producers[p].Copying? <==> AnyVacant(s, 0))
            && (t.producers[p].Counting? <==> !AnyVacant(s, 0))
            && (t.producers[p].Counting? ==> t.pending)
  {
    n := ScanFinds(cfg, s, p);
  }
}
