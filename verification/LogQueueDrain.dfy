/** One pass of the log writer over the reserve slots: what was full when it began is delivered
    before long, whatever the producers do meanwhile. */
module LogQueueDrain {
  import opened RobotBase
  import opened LogQueue
  import opened LogQueueInvariant
  import opened LogQueueTheorems

  predicate Passing(w: Writer) { w.Draining? || w.Reading? || w.Handing? }

  predicate ToCome(w: Writer, k: nat) {
    match w
    case Draining(slot) => slot <= k
    case Reading(slot, _) => slot < k
    case Handing(slot, _) => slot < k
    case _ => false
  }

  /** The record of the ticket lies in a slot that the pass has still to reach, or in the one it
      reads. */
  predicate Ahead(s: State, k: nat, t: nat) {
    && k < |s.slots| && s.slots[k].ticket == t
    && ((s.slots[k].state == Full && ToCome(s.writer, k)) || EmptyingSlot(s.writer) == Some(k))
  }

  /** Steps of the writer until the pass is over, at most. */
  function PassRank(w: Writer): nat {
    match w
    case Draining(slot) => if slot < SLOTS then (SLOTS - slot) * (LINE + 3) + 1 else 1
    case Reading(slot, text) =>
      if slot < SLOTS && |text| < LINE then (SLOTS - slot) * (LINE + 3) - |text| else 0
    case Handing(slot, _) => if slot < SLOTS then (SLOTS - slot) * (LINE + 3) - LINE - 1 else 0
    case _ => 0
  }

  lemma DeliveredGrows(cfg: Config, s: State, e: Event, t: nat)
    requires |s.slots| == SLOTS && Reached(s, t)
    ensures Reached(Next(cfg, s, e), t)
  {
    var n := Next(cfg, s, e);
    var i :| 0 <= i < |s.delivered| && s.delivered[i].ticket == t;
    assert s.delivered <= n.delivered by { DeliveredPrefix(cfg, s, e); }
    assert n.delivered[i] == s.delivered[i];
  }

  lemma DeliveredPrefix(cfg: Config, s: State, e: Event)
    requires |s.slots| == SLOTS
    ensures s.delivered <= Next(cfg, s, e).delivered
  {
    hide ProducerStep, WriterStep, Move;
    match e
    case Produce(p, unlucky) => if p < |s.producers| { ProducerTouches(cfg, s, p, unlucky); }
    case Write(fails) => WriterDelivers(s, fails);
    case Call(p, record) => MoveTouches(s, p, Entering(record));
    case _ =>
  }

  lemma MoveTouches(s: State, p: nat, to: Producer)
    ensures p < |s.producers| ==> var n := Move(s, p, to); n.delivered == s.delivered && n.slots == s.slots && n.writer == s.writer
  {}

  lemma WriterDelivers(s: State, fails: bool)
    requires |s.slots| == SLOTS
    ensures s.delivered <= WriterStep(s, fails).delivered
  {}

  /** A producer changes the slot it fills, or one that was vacant. */
  lemma ProducerTouches(cfg: Config, s: State, p: nat, unlucky: bool)
    requires p < |s.producers| && |s.slots| == SLOTS
    ensures var n := ProducerStep(cfg, s, p, unlucky);
            && n.writer == s.writer && n.delivered == s.delivered
            && n.popped == s.popped && n.written == s.written && n.taken == s.taken
            && forall k | 0 <= k < SLOTS && FillOf(s.producers[p]) != Some(k) && s.slots[k].state != Vacant ::
                 n.slots[k] == s.slots[k]
  {
    hide Fitting, WriteChar, Preservable, MetaOf, Enter, Offer, Claim, Copy, Describe, Store, Finish;
    match s.producers[p]
    case Entering(r) => EntryTouches(s, p, r, unlucky);
    case Owning(r) => OfferTouches(cfg, s, p, r);
    case Claiming(r, slot, locked) => ClaimTouches(s, p, r, slot, locked);
    case Copying(r, slot, copied, locked) =>
      if slot < SLOTS && copied < |s.slots[slot].line| {
        CopyTouches(s, p, r, slot, copied, locked);
      }
    case Describing(r, slot, locked) => if slot < SLOTS { DescribeTouches(s, p, r, slot, locked); }
    case Storing(r, slot, locked) => if slot < SLOTS { StoreTouches(s, p, r, slot, locked); }
    case Counting(r, locked) => FinishTouches(s, p, r, Dropped, locked);
    case _ =>
  }

  predicate Untouched(s: State, n: State, except: Option<nat>) {
    && n.writer == s.writer && n.delivered == s.delivered && |n.slots| == |s.slots|
    && n.popped == s.popped && n.written == s.written && n.taken == s.taken
    && forall k | 0 <= k < |s.slots| && except != Some(k) :: n.slots[k] == s.slots[k]
  }

  lemma FinishTouches(s: State, p: nat, r: Record, outcome: Outcome, locked: bool)
    requires p < |s.producers|
    ensures Untouched(s, Finish(s, p, r, outcome, locked), None)
  {}

  lemma EntryTouches(s: State, p: nat, r: Record, unlucky: bool)
    requires p < |s.producers|
    ensures Untouched(s, Enter(s, p, r, unlucky), None)
  {}

  lemma OfferTouches(cfg: Config, s: State, p: nat, r: Record)
    requires p < |s.producers|
    ensures Untouched(s, Offer(cfg, s, p, r), None)
  {}

  lemma ClaimTouches(s: State, p: nat, r: Record, slot: nat, locked: bool)
    requires p < |s.producers| && |s.slots| == SLOTS
    ensures Untouched(s, Claim(s, p, r, slot, locked), if slot < SLOTS && s.slots[slot].state == Vacant then Some(slot) else None)
  {}

  lemma CopyTouches(s: State, p: nat, r: Record, slot: nat, copied: nat, locked: bool)
    requires p < |s.producers| && slot < |s.slots| && copied < |s.slots[slot].line|
    ensures Untouched(s, Copy(s, p, r, slot, copied, locked), Some(slot))
  {
    hide Fitting, WriteChar;
  }

  lemma DescribeTouches(s: State, p: nat, r: Record, slot: nat, locked: bool)
    requires p < |s.producers| && slot < |s.slots|
    ensures Untouched(s, Describe(s, p, r, slot, locked), Some(slot))
  {}

  lemma StoreTouches(s: State, p: nat, r: Record, slot: nat, locked: bool)
    requires p < |s.producers| && slot < |s.slots|
    ensures Untouched(s, Store(s, p, r, slot, locked), Some(slot))
  {
    hide Preservable, MetaOf;
  }

  /** Producers leave full slots, the slot being read, and the writer alone. */
  lemma ProducersLeave(cfg: Config, s: State, p: nat, unlucky: bool, k: nat)
    requires Inv(cfg, s) && p < |s.producers| && |s.slots| == SLOTS && k < SLOTS && Taken(s.slots[k])
    ensures var n := ProducerStep(cfg, s, p, unlucky); n.slots[k] == s.slots[k] && n.writer == s.writer
  {
    hide ProducerStep, OwnersSound, ContentsSound, SavedSound, WriterSound, PlacesSound, MutexSound, QueueSound, TallySound;
    FillsOther(s.slots, s.producers, p, k);
    ProducerTouches(cfg, s, p, unlucky);
  }

  lemma FillsOther(slots: seq<Slot>, producers: seq<Producer>, p: nat, k: nat)
    requires OwnersSound(slots, producers) && p < |producers| && k < |slots| && Taken(slots[k])
    ensures FillOf(producers[p]) != Some(k)
  {}

  lemma DrainAdvances(s: State, slot: nat, fails: bool, k: nat, t: nat)
    requires |s.slots| == SLOTS && Ahead(s, k, t) && s.writer == Draining(slot)
    ensures var n := Drain(s, slot, fails); Ahead(n, k, t) && PassRank(n.writer) < PassRank(s.writer)
  {}

  lemma HandingAdvances(s: State, slot: nat, text: string, fails: bool, k: nat, t: nat)
    requires |s.slots| == SLOTS && Ahead(s, k, t) && s.writer == Handing(slot, text) && slot < SLOTS
    ensures var n := HandOver(s, slot, text, fails);
            Reached(n, t) || (Ahead(n, k, t) && PassRank(n.writer) < PassRank(s.writer))
  {
    var n := HandOver(s, slot, text, fails);
    assert n.delivered[|s.delivered|].ticket == s.slots[slot].ticket;
  }

  /** A step of the writer comes closer to the end of the pass. */
  lemma WriterAdvances(cfg: Config, s: State, fails: bool, k: nat, t: nat)
    requires Inv(cfg, s) && |s.slots| == SLOTS && Ahead(s, k, t)
    ensures var n := WriterStep(s, fails);
            Reached(n, t) || (Ahead(n, k, t) && PassRank(n.writer) < PassRank(s.writer))
  {
    hide Inv, Drain, Read, HandOver, Reached, PassRank, Pop;
    match s.writer
    case Draining(slot) => DrainAdvances(s, slot, fails, k, t);
    case Reading(slot, text) => ReadAdvances(cfg, s, k, t);
    case Handing(slot, text) => SlotExists(cfg, s); HandingAdvances(s, slot, text, fails, k, t);
    case _ =>
  }

  lemma SlotExists(cfg: Config, s: State)
    requires Inv(cfg, s) && s.writer.Handing? && |s.slots| == SLOTS
    ensures s.writer.slot < SLOTS
  {}

  lemma ReadAdvances(cfg: Config, s: State, k: nat, t: nat)
    requires Inv(cfg, s) && |s.slots| == SLOTS && Ahead(s, k, t) && s.writer.Reading?
    ensures var n := WriterStep(s, false); Ahead(n, k, t) && PassRank(n.writer) < PassRank(s.writer)
    ensures forall fails :: WriterStep(s, fails) == WriterStep(s, false)
  {
    var slot, text := s.writer.slot, s.writer.text;
    assert s.slots[slot].state == Emptying && Whole(s.slots[slot], s.saved) && |s.slots[slot].line| == LINE;
    var whole := CString(s.slots[slot].line);
    assert text <= whole && |whole| < LINE;
    hide Inv, CString;
  }

  lemma PassGoesOn(cfg: Config, s: State, e: Event, k: nat, t: nat)
    requires Inv(cfg, s) && |s.slots| == SLOTS && Ahead(s, k, t)
    ensures var n := Next(cfg, s, e);
            Reached(n, t) || (Ahead(n, k, t) && PassRank(n.writer) + (if e.Write? then 1 else 0) <= PassRank(s.writer))
  {
    assert Taken(s.slots[k]) by { ReadIsEmptying(s.slots, s.writer, k); }
    hide Inv, ProducerStep, WriterStep, PassRank;
    match e
    case Write(fails) => WriterAdvances(cfg, s, fails, k, t);
    case Produce(p, unlucky) => if p < |s.producers| { ProducersLeave(cfg, s, p, unlucky, k); }
    case _ =>
  }

  lemma ReadIsEmptying(slots: seq<Slot>, writer: Writer, k: nat)
    requires WriterSound(slots, writer) && k < |slots|
    ensures EmptyingSlot(writer) == Some(k) ==> slots[k].state == Emptying
  {}

  function Writes(events: seq<Event>): nat {
    if events == [] then 0 else Writes(events[..|events| - 1]) + if events[|events| - 1].Write? then 1 else 0
  }

  lemma {:induction false} PassOverTime(cfg: Config, producers: nat, events: seq<Event>, more: seq<Event>, k: nat, t: nat)
    requires Ahead(Run(cfg, producers, events), k, t)
    ensures var s, n := Run(cfg, producers, events), Run(cfg, producers, events + more);
            Reached(n, t) || (Ahead(n, k, t) && PassRank(n.writer) + Writes(more) <= PassRank(s.writer))
    decreases |more|
  {
    hide Inv, Next, Ahead, Reached, PassRank;
    if more == [] {
      assert events + more == events;
    } else {
      var shorter, e := more[..|more| - 1], more[|more| - 1];
      assert (events + more)[..|events + more| - 1] == events + shorter;
      PassOverTime(cfg, producers, events, shorter, k, t);
      var m := Run(cfg, producers, events + shorter);
      if Reached(m, t) {
        DeliveredGrows(cfg, m, e, t);
      } else {
        RunHolds(cfg, producers, events + shorter);
        PassGoesOn(cfg, m, e, k, t);
      }
    }
  }

  /** Under every interleaving: what was full when a pass began has been delivered when the pass is
      over, and at the latest after a fixed number of the writer's own steps. */
  lemma PassDelivers(cfg: Config, producers: nat, events: seq<Event>, more: seq<Event>, k: nat)
    requires Run(cfg, producers, events).writer == Draining(0)
    requires k < SLOTS && Run(cfg, producers, events).slots[k].state == Full
    ensures var n := Run(cfg, producers, events + more);
            !Passing(n.writer) || Writes(more) > SLOTS * (LINE + 3) ==>
              Reached(n, Run(cfg, producers, events).slots[k].ticket)
  {
    var s := Run(cfg, producers, events);
    var n := Run(cfg, producers, events + more);
    PassOverTime(cfg, producers, events, more, k, s.slots[k].ticket);
    RunHolds(cfg, producers, events + more);
    if Ahead(n, k, s.slots[k].ticket) {
      PassIsOn(cfg, n, k, s.slots[k].ticket);
    }
    hide Run, Inv;
  }

  lemma PassIsOn(cfg: Config, s: State, k: nat, t: nat)
    requires Inv(cfg, s) && |s.slots| == SLOTS && Ahead(s, k, t)
    ensures PassRank(s.writer) > 0
  {
    if s.writer.Reading? {
      ReadAdvances(cfg, s, k, t);
    }
  }
}
