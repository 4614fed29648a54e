/** The takeover weight over whole inferences, as the RL mode makes them: a request and a switch
    are heard, inputs are prepared, the weight is shown, and the action is composed unless the
    inference was late and is discarded (state_rl.cpp). */
module TakeoverRuns {
  import opened Curves
  import opened RobotBase
  import opened Takeover

  /** One inference; all its calls share one time. No action stands for a discarded one. */
  datatype Inference = Inference(
    request: Interaction, switching: bool, at: real, positions: seq<real>, action: Option<seq<real>>)

  /** The request cancels; while a switch is running requests are not passed on. */
  predicate Cancels(s: State, i: Inference) {
    !i.switching && i.request.operation == Cancel && i.request.sequence > s.sequence
  }

  function Heard(cfg: Config, s: State, i: Inference): (t: State)
    requires ValidConfig(cfg) && Valid(cfg, s)
    ensures Valid(cfg, t)
  {
    Perform(cfg, if i.switching then s else Perform(cfg, s, DoHandle(i.request, i.at)), DoSwitch(i.switching, i.at))
  }

  /** The state in which the weight is shown. */
  function Prepared(cfg: Config, s: State, i: Inference): (t: State)
    requires ValidConfig(cfg) && Valid(cfg, s)
    ensures Valid(cfg, t)
  {
    Perform(cfg, Heard(cfg, s, i), DoPrepare(i.at, i.positions))
  }

  function Inferred(cfg: Config, s: State, i: Inference): (t: State)
    requires ValidConfig(cfg) && Valid(cfg, s)
    ensures Valid(cfg, t)
  {
    if i.action.Some? then Perform(cfg, Prepared(cfg, s, i), DoAction(i.action.value)) else Prepared(cfg, s, i)
  }

  function AfterRun(cfg: Config, s: State, run: seq<Inference>, n: nat): (t: State)
    requires ValidConfig(cfg) && Valid(cfg, s) && n <= |run|
    ensures Valid(cfg, t)
  {
    if n == 0 then s else Inferred(cfg, AfterRun(cfg, s, run, n - 1), run[n - 1])
  }

  /** The weight shown in the n-th inference. */
  function ShownAt(cfg: Config, s: State, run: seq<Inference>, n: nat): real
    requires ValidConfig(cfg) && Valid(cfg, s) && n < |run|
  {
    InteractionWeight(cfg, Prepared(cfg, AfterRun(cfg, s, run, n), run[n]))
  }

  /** Control time does not run backwards, and actions have the policy's size. */
  predicate Proper(cfg: Config, from: real, run: seq<Inference>) {
    && (forall i | 0 <= i < |run| :: from <= run[i].at && (run[i].action.Some? ==> |run[i].action.value| == cfg.dim))
    && (forall i, j | 0 <= i < j < |run| :: run[i].at <= run[j].at)
  }

  predicate NoneDiscarded(run: seq<Inference>) { forall i | 0 <= i < |run| :: run[i].action.Some? }

  /** The return is still under way before each of the inferences up to the n-th. */
  ghost predicate Live(cfg: Config, s: State, run: seq<Inference>, n: nat)
    requires ValidConfig(cfg) && Valid(cfg, s) && n <= |run|
  {
    forall k | 0 <= k <= n :: AfterRun(cfg, s, run, k).active.Some?
  }

  /** Preparing at this time lowers the weight: some of it is left, and the clock moves on. */
  predicate Lowers(cfg: Config, s: State, at: real) {
    s.sourceWeight > 0.0 && s.last < s.phaseStart + cfg.blendOut && s.last < at && s.phaseStart < at
  }

  /** A return in which the gain has followed the weight. */
  ghost predicate Settled(cfg: Config, s: State) {
    Fading(cfg, s) && InteractionWeight(cfg, s) == s.gain
  }

  // ---------------------------------------------------------------- one inference

  lemma FractionStrict(cfg: Config, x: real, y: real)
    requires x <= y
    ensures BlendFraction(cfg, x) < BlendFraction(cfg, y) <==> x < y && x < 1.0 && y > 0.0
  {
    CubicRises(UnitClamp(x), UnitClamp(y));
  }

  lemma LowersExactly(cfg: Config, s: State, at: real)
    requires cfg.blendOut > 0.0 && s.active.Some? && s.status.phase == BlendOut && s.last <= at && s.sourceWeight >= 0.0
    ensures InteractionWeight(cfg, s.(last := at)) <= InteractionWeight(cfg, s)
    ensures InteractionWeight(cfg, s.(last := at)) < InteractionWeight(cfg, s) <==> Lowers(cfg, s, at)
  {
    hide BlendFraction, Times;
    var x, y := (s.last - s.phaseStart) / cfg.blendOut, (at - s.phaseStart) / cfg.blendOut;
    QuotientOrder(s.last - s.phaseStart, at - s.phaseStart, cfg.blendOut);
    Quotients(s.last - s.phaseStart, at - s.phaseStart, cfg.blendOut);
    FractionStrict(cfg, x, y);
    FractionRises(cfg, x, y);
    Parts(s.sourceWeight, 1.0 - BlendFraction(cfg, y), 1.0 - BlendFraction(cfg, x));
  }

  lemma Quotients(x: real, y: real, d: real)
    requires d > 0.0
    ensures x / d < y / d <==> x < y
    ensures x / d < 1.0 <==> x < d
    ensures y / d > 0.0 <==> y > 0.0
  {
    var p, q := x / d, y / d;
    assert x == p * d && y == q * d;
  }

  lemma Parts(w: real, x: real, y: real)
    requires w >= 0.0 && x <= y
    ensures Times(w, x) <= Times(w, y)
    ensures Times(w, x) < Times(w, y) <==> w > 0.0 && x < y
  {
    Scale(x, y, w);
    if w > 0.0 && x < y {
      Positive(w, y - x);
      assert Times(w, y) - Times(w, x) == Times(w, y - x);
    }
  }

  /** What a return makes of the request: a cancel starts it anew, anything else leaves it. */
  lemma HeardInReturn(cfg: Config, s: State, i: Inference)
    requires ValidConfig(cfg) && Valid(cfg, s) && s.active.Some? && s.status.phase == BlendOut
    ensures var t := Heard(cfg, s, i);
            && t.active == s.active && t.status.phase == BlendOut && t.gain == s.gain && t.last == s.last
            && (t.sequence == s.sequence || t.sequence == i.request.sequence)
            && (Cancels(s, i) ==> t.sourceWeight == s.gain && t.phaseStart == i.at && t.sequence == i.request.sequence)
            && (!Cancels(s, i) ==> t.sourceWeight == s.sourceWeight && t.phaseStart == s.phaseStart)
  {
    hide BlendFraction, ValidClip;
  }

  lemma PrepareMovesClock(cfg: Config, s: State, at: real, positions: seq<real>)
    requires ValidConfig(cfg) && Valid(cfg, s) && s.active.Some? && s.status.phase == BlendOut
    ensures Perform(cfg, s, DoPrepare(at, positions)) == s.(last := at)
  {
    hide EntryTime, Measured, Covers;
  }

  lemma SameWeight(cfg: Config, s: State, t: State)
    requires t.active.Some? && s.active.Some? && t.status.phase == s.status.phase == BlendOut
    requires t.sourceWeight == s.sourceWeight && t.phaseStart == s.phaseStart && t.last == s.last
    ensures InteractionWeight(cfg, t) == InteractionWeight(cfg, s)
  {}

  /** A return that starts now is shown at its full weight. */
  lemma FullWeight(cfg: Config, s: State)
    requires cfg.blendOut > 0.0 && s.active.Some? && s.status.phase == BlendOut && s.last == s.phaseStart
    ensures InteractionWeight(cfg, s) == s.sourceWeight
  {
    assert (s.last - s.phaseStart) / cfg.blendOut == 0.0;
    FractionUnit(cfg, 0.0);
  }

  /** The weight shown in one inference of a return. */
  lemma PreparedInReturn(cfg: Config, s: State, i: Inference)
    requires ValidConfig(cfg) && Valid(cfg, s) && Fading(cfg, s) && cfg.blendOut > 0.0 && s.last <= i.at
    ensures var t := Prepared(cfg, s, i); var shown := InteractionWeight(cfg, t);
            && t.active.Some? && Fading(cfg, t) && t.gain == s.gain && t.last == i.at
            && (t.sequence == s.sequence || t.sequence == i.request.sequence)
            && (Cancels(s, i) ==> shown == s.gain && t.sequence == i.request.sequence && t.phaseStart == i.at)
            && (!Cancels(s, i) ==>
                  shown <= InteractionWeight(cfg, s) && (shown < InteractionWeight(cfg, s) <==> Lowers(cfg, s, i.at)))
  {
    hide Perform, InteractionWeight, Heard;
    var h := Heard(cfg, s, i);
    HeardInReturn(cfg, s, i);
    PrepareMovesClock(cfg, h, i.at, i.positions);
    var t := h.(last := i.at);
    if Cancels(s, i) {
      FullWeight(cfg, t);
    } else {
      SameWeight(cfg, s, h);
      LowersExactly(cfg, h, i.at);
    }
  }

  /** An action that is not discarded lets the gain follow the weight shown. */
  lemma KeptSettles(cfg: Config, s: State, i: Inference)
    requires ValidConfig(cfg) && Valid(cfg, s) && Fading(cfg, s) && cfg.blendOut > 0.0 && s.last <= i.at
    requires i.action.Some? && |i.action.value| == cfg.dim
    ensures var p, t := Prepared(cfg, s, i), Inferred(cfg, s, i);
            && t.gain == InteractionWeight(cfg, p) && t.last == i.at && t.sequence == p.sequence
            && (t.active.Some? ==> Settled(cfg, t) && t.phaseStart == p.phaseStart && t.sourceWeight == p.sourceWeight)
            && (InteractionWeight(cfg, p) > 0.0 ==> t.active.Some?)
  {
    var p := Prepared(cfg, s, i);
    PreparedInReturn(cfg, s, i);
    hide Prepared, BlendFraction, Times, ValidConfig;
    WeightIsGain(cfg, p, i.action.value);
    ActionFades(cfg, p, i.action.value);
    ActionInReturn(cfg, p, i.action.value);
  }

  lemma ActionInReturn(cfg: Config, s: State, action: seq<real>)
    requires ValidConfig(cfg) && Valid(cfg, s) && |action| == cfg.dim && cfg.blendOut > 0.0
    requires s.active.Some? && s.status.phase == BlendOut
    ensures var t := OnAction(cfg, s, action);
            && t.last == s.last && t.sequence == s.sequence && !EndsNow(cfg, s)
            && (t.active.Some? ==> t.status.phase == BlendOut && t.phaseStart == s.phaseStart && t.sourceWeight == s.sourceWeight
                                   && InteractionWeight(cfg, t) == InteractionWeight(cfg, s))
            && (InteractionWeight(cfg, s) > 0.0 ==> t.active.Some?)
  {
    hide BlendFraction, Target, PlaybackNow, Applied, MixPose, ValidConfig;
    assert PhaseNow(cfg, s) == BlendOut;
    assert Times(s.sourceWeight, 0.0) == 0.0;
    UnitFraction(cfg, (s.last - s.phaseStart) / cfg.blendOut);
  }

  lemma UnitFraction(cfg: Config, x: real)
    ensures BlendFraction(cfg, x) <= 1.0
  {
    FractionUnit(cfg, x);
  }

  /** The cancel that starts a return leaves it settled at the present gain. */
  lemma CancelSettles(cfg: Config, s: State, i: Inference)
    requires ValidConfig(cfg) && Valid(cfg, s) && s.active.Some? && cfg.blendOut > 0.0 && s.last <= i.at && Cancels(s, i)
    ensures Settled(cfg, Prepared(cfg, s, i)) && Prepared(cfg, s, i).gain == s.gain
  {
    var heard := s.(sequence := i.request.sequence, status := s.status.(accepted := true));
    BlendOutStarts(cfg, heard, i.at, i.request.sequence);
    var h := Heard(cfg, s, i);
    assert h == BeginBlendOut(cfg, heard, i.at, i.request.sequence);
    hide Heard, Perform, InteractionWeight, BeginBlendOut;
    PrepareMovesClock(cfg, h, i.at, i.positions);
    FullWeight(cfg, h.(last := i.at));
  }

  // ---------------------------------------------------------------- whole returns

  /** Between inference k, which lowered the weight, and inference n no action was composed and
      nothing was cancelled. */
  ghost predicate LoweredSince(cfg: Config, s: State, run: seq<Inference>, k: nat, n: nat)
    requires ValidConfig(cfg) && Valid(cfg, s) && k < n <= |run|
  {
    && Lowers(cfg, AfterRun(cfg, s, run, k), run[k].at)
    && forall j | k <= j < n :: run[j].action.None? && !Cancels(AfterRun(cfg, s, run, j), run[j])
  }

  /** The weight has been lowered by discarded inferences only. */
  ghost predicate Behind(cfg: Config, s: State, run: seq<Inference>, n: nat)
    requires ValidConfig(cfg) && Valid(cfg, s) && n <= |run|
  {
    exists k :: 0 <= k < n && LoweredSince(cfg, s, run, k, n)
  }

  lemma {:induction false} StaysFading(cfg: Config, s: State, run: seq<Inference>, n: nat)
    requires ValidConfig(cfg) && Valid(cfg, s) && Settled(cfg, s) && cfg.blendOut > 0.0
    requires Proper(cfg, s.last, run) && n <= |run| && Live(cfg, s, run, n)
    ensures var t := AfterRun(cfg, s, run, n);
            Fading(cfg, t) && t.gain <= s.gain && (n < |run| ==> t.last <= run[n].at)
  {
    hide Inferred, Fading, InteractionWeight;
    if n == 0 {
      SettledFades(cfg, s);
    } else {
      StaysFading(cfg, s, run, n - 1);
      InferredFades(cfg, AfterRun(cfg, s, run, n - 1), run[n - 1]);
      assert AfterRun(cfg, s, run, n).active.Some?;
    }
  }

  lemma SettledFades(cfg: Config, s: State)
    requires Settled(cfg, s)
    ensures Fading(cfg, s)
  {}

  lemma InferredFades(cfg: Config, s: State, i: Inference)
    requires ValidConfig(cfg) && Valid(cfg, s) && Fading(cfg, s) && cfg.blendOut > 0.0 && s.last <= i.at
    requires i.action.Some? ==> |i.action.value| == cfg.dim
    ensures var t := Inferred(cfg, s, i); t.gain <= s.gain && t.last == i.at && (t.active.Some? ==> Fading(cfg, t))
  {
    PreparedInReturn(cfg, s, i);
    hide Prepared, Perform, InteractionWeight;
    if i.action.Some? {
      KeptSettles(cfg, s, i);
    }
  }

  /** The weight is behind the gain exactly if discarded inferences have lowered it. */
  lemma {:induction false} BehindExactly(cfg: Config, s: State, run: seq<Inference>, n: nat)
    requires ValidConfig(cfg) && Valid(cfg, s) && Settled(cfg, s) && cfg.blendOut > 0.0
    requires Proper(cfg, s.last, run) && n <= |run| && Live(cfg, s, run, n)
    ensures var t := AfterRun(cfg, s, run, n); InteractionWeight(cfg, t) < t.gain <==> Behind(cfg, s, run, n)
  {
    hide Inferred, InteractionWeight, Lowers, Proper;
    if n > 0 {
      BehindExactly(cfg, s, run, n - 1);
      StaysFading(cfg, s, run, n - 1);
      BehindStep(cfg, s, run, n - 1);
      assert AfterRun(cfg, s, run, n).active.Some?;
      assert run[n - 1].action.Some? ==> |run[n - 1].action.value| == cfg.dim by { ProperAt(cfg, s.last, run, n - 1); }
      InferredBehind(cfg, AfterRun(cfg, s, run, n - 1), run[n - 1]);
    }
  }

  lemma ProperAt(cfg: Config, from: real, run: seq<Inference>, n: nat)
    requires Proper(cfg, from, run) && n < |run|
    ensures from <= run[n].at && (run[n].action.Some? ==> |run[n].action.value| == cfg.dim)
  {}

  lemma BehindStep(cfg: Config, s: State, run: seq<Inference>, n: nat)
    requires ValidConfig(cfg) && Valid(cfg, s) && n < |run|
    ensures var before := AfterRun(cfg, s, run, n);
            Behind(cfg, s, run, n + 1) <==>
            run[n].action.None? && !Cancels(before, run[n]) && (Behind(cfg, s, run, n) || Lowers(cfg, before, run[n].at))
  {
    hide Lowers, Cancels, AfterRun;
    if Behind(cfg, s, run, n + 1) {
      var k :| 0 <= k < n + 1 && LoweredSince(cfg, s, run, k, n + 1);
      assert run[n].action.None? && !Cancels(AfterRun(cfg, s, run, n), run[n]);
      if k < n {
        assert LoweredSince(cfg, s, run, k, n);
      }
    }
    var before := AfterRun(cfg, s, run, n);
    if run[n].action.None? && !Cancels(before, run[n]) {
      if Behind(cfg, s, run, n) {
        var k :| 0 <= k < n && LoweredSince(cfg, s, run, k, n);
        assert LoweredSince(cfg, s, run, k, n + 1);
      }
      if Lowers(cfg, before, run[n].at) {
        assert LoweredSince(cfg, s, run, n, n + 1);
      }
    }
  }

  lemma InferredBehind(cfg: Config, s: State, i: Inference)
    requires ValidConfig(cfg) && Valid(cfg, s) && Fading(cfg, s) && cfg.blendOut > 0.0 && s.last <= i.at
    requires (i.action.Some? ==> |i.action.value| == cfg.dim) && Inferred(cfg, s, i).active.Some?
    ensures var t := Inferred(cfg, s, i);
            InteractionWeight(cfg, t) < t.gain <==>
            i.action.None? && !Cancels(s, i) && (InteractionWeight(cfg, s) < s.gain || Lowers(cfg, s, i.at))
  {
    PreparedInReturn(cfg, s, i);
    hide Prepared, Perform, InteractionWeight, Lowers;
    if i.action.Some? {
      KeptSettles(cfg, s, i);
    }
  }

  /** From one inference of a return to the next the weight shown rises if and only if the next
      one cancels again and discarded inferences had lowered the weight since the last action
      that was composed. */
  lemma RisesExactly(cfg: Config, s: State, run: seq<Inference>, n: nat)
    requires ValidConfig(cfg) && Valid(cfg, s) && Settled(cfg, s) && cfg.blendOut > 0.0
    requires Proper(cfg, s.last, run) && n + 1 < |run| && Live(cfg, s, run, n + 1)
    ensures ShownAt(cfg, s, run, n + 1) > ShownAt(cfg, s, run, n) <==>
            Cancels(AfterRun(cfg, s, run, n + 1), run[n + 1]) && Behind(cfg, s, run, n + 1)
  {
    hide Inferred, InteractionWeight, Lowers, Behind, Settled, Prepared, Cancels;
    var before, after := AfterRun(cfg, s, run, n), AfterRun(cfg, s, run, n + 1);
    LiveBefore(cfg, s, run, n);
    StaysFading(cfg, s, run, n);
    StaysFading(cfg, s, run, n + 1);
    BehindExactly(cfg, s, run, n + 1);
    PreparedInReturn(cfg, after, run[n + 1]);
    ShownStays(cfg, before, run[n]);
    assert after.active.Some?;
  }

  lemma LiveBefore(cfg: Config, s: State, run: seq<Inference>, n: nat)
    requires ValidConfig(cfg) && Valid(cfg, s) && n + 1 <= |run| && Live(cfg, s, run, n + 1)
    ensures Live(cfg, s, run, n)
  {}

  /** What was shown stays the weight until the next inference. */
  lemma ShownStays(cfg: Config, s: State, i: Inference)
    requires ValidConfig(cfg) && Valid(cfg, s) && Fading(cfg, s) && cfg.blendOut > 0.0 && s.last <= i.at
    requires i.action.Some? ==> |i.action.value| == cfg.dim
    ensures Inferred(cfg, s, i).active.Some? ==>
              InteractionWeight(cfg, Inferred(cfg, s, i)) == InteractionWeight(cfg, Prepared(cfg, s, i))
  {
    if i.action.Some? {
      hide Prepared, Inferred, InteractionWeight;
      KeptSettles(cfg, s, i);
    }
  }

  ghost predicate NeverRises(cfg: Config, s: State, run: seq<Inference>)
    requires ValidConfig(cfg) && Valid(cfg, s)
  {
    forall n: nat | n + 1 < |run| && Live(cfg, s, run, n + 1) :: ShownAt(cfg, s, run, n + 1) <= ShownAt(cfg, s, run, n)
  }

  /** If no inference is discarded the weight shown never rises until the return is over, whatever
      is requested, repeated cancels included. */
  lemma KeptNeverRises(cfg: Config, s: State, run: seq<Inference>)
    requires ValidConfig(cfg) && Valid(cfg, s) && Settled(cfg, s) && cfg.blendOut > 0.0
    requires Proper(cfg, s.last, run) && NoneDiscarded(run)
    ensures NeverRises(cfg, s, run)
  {
    hide ShownAt, Cancels, Settled, Proper;
    forall n: nat | n + 1 < |run| && Live(cfg, s, run, n + 1)
      ensures ShownAt(cfg, s, run, n + 1) <= ShownAt(cfg, s, run, n)
    {
      RisesExactly(cfg, s, run, n);
      BehindStep(cfg, s, run, n);
      assert run[n].action.Some?;
    }
  }

  function Again(sequence: nat): Interaction { Interaction(sequence, Cancel, "") }

  /** Cancel, let the inference half a return later be late, and cancel again. */
  function LateRun(cfg: Config, s: State): seq<Inference>
    requires ValidConfig(cfg)
  {
    var later := s.last + cfg.blendOut / 2.0;
    [Inference(Again(s.sequence + 1), false, s.last, [], Some(Zeros(cfg.dim))),
     Inference(NO_INTERACTION, false, later, [], None),
     Inference(Again(s.sequence + 2), false, later, [], None)]
  }

  lemma LateRunRises(cfg: Config, s: State)
    requires ValidConfig(cfg) && Valid(cfg, s) && Settled(cfg, s) && cfg.blendOut > 0.0 && s.gain > 0.0
    ensures Proper(cfg, s.last, LateRun(cfg, s)) && !NeverRises(cfg, s, LateRun(cfg, s))
  {
    hide Inferred, InteractionWeight, Prepared, Fading, Perform, AfterRun, Settled, ValidConfig, Valid;
    var run := LateRun(cfg, s);
    var first := Inferred(cfg, s, run[0]);
    SettledFades(cfg, s);
    PreparedInReturn(cfg, s, run[0]);
    KeptSettles(cfg, s, run[0]);
    SettledFades(cfg, first);
    FullSource(cfg, s, run[0]);
    PreparedInReturn(cfg, first, run[1]);
    NothingComposed(cfg, first, run[1]);
    RunOfThree(cfg, s, run);
    assert LoweredSince(cfg, s, run, 1, 2);
    RisesExactly(cfg, s, run, 1);
  }

  lemma RunOfThree(cfg: Config, s: State, run: seq<Inference>)
    requires ValidConfig(cfg) && Valid(cfg, s) && |run| == 3
    ensures AfterRun(cfg, s, run, 0) == s && AfterRun(cfg, s, run, 1) == Inferred(cfg, s, run[0])
    ensures AfterRun(cfg, s, run, 2) == Inferred(cfg, Inferred(cfg, s, run[0]), run[1])
    ensures var first := Inferred(cfg, s, run[0]);
            s.active.Some? && first.active.Some? && Inferred(cfg, first, run[1]).active.Some? ==> Live(cfg, s, run, 2)
  {
    hide Inferred;
    assert AfterRun(cfg, s, run, 1) == Inferred(cfg, AfterRun(cfg, s, run, 0), run[0]);
  }

  lemma FullSource(cfg: Config, s: State, i: Inference)
    requires ValidConfig(cfg) && Valid(cfg, s) && Fading(cfg, s) && Cancels(s, i)
    ensures Prepared(cfg, s, i).sourceWeight == s.gain
  {
    HeardInReturn(cfg, s, i);
    hide Heard, Fading, Perform;
    PrepareMovesClock(cfg, Heard(cfg, s, i), i.at, i.positions);
  }

  lemma NothingComposed(cfg: Config, s: State, i: Inference)
    requires ValidConfig(cfg) && Valid(cfg, s) && i.action.None?
    ensures Inferred(cfg, s, i) == Prepared(cfg, s, i)
  {}

  /** The exact condition for each return: in all its runs the weight shown never rises, if and
      only if late inferences are never discarded or nothing is left to show. */
  lemma WeightNeverRisesExactly(cfg: Config, s: State, discards: bool)
    requires ValidConfig(cfg) && Valid(cfg, s) && Settled(cfg, s) && cfg.blendOut > 0.0
    ensures (forall run | Proper(cfg, s.last, run) && (discards || NoneDiscarded(run)) :: NeverRises(cfg, s, run)) <==>
            !discards || s.gain <= 0.0
  {
    hide Settled, Proper, NeverRises;
    if !discards {
      forall run | Proper(cfg, s.last, run) && NoneDiscarded(run)
        ensures NeverRises(cfg, s, run)
      {
        KeptNeverRises(cfg, s, run);
      }
    } else if s.gain <= 0.0 {
      forall run | Proper(cfg, s.last, run)
        ensures NeverRises(cfg, s, run)
      {
        NothingShown(cfg, s, run);
      }
    } else {
      LateRunRises(cfg, s);
    }
  }

  lemma NothingShown(cfg: Config, s: State, run: seq<Inference>)
    requires ValidConfig(cfg) && Valid(cfg, s) && Settled(cfg, s) && cfg.blendOut > 0.0 && s.gain <= 0.0
    requires Proper(cfg, s.last, run)
    ensures NeverRises(cfg, s, run)
  {
    hide Settled, Proper, Behind, Cancels, ShownAt, InteractionWeight, AfterRun, Live, Fading, Valid, ValidConfig;
    forall n: nat | n + 1 < |run| && Live(cfg, s, run, n + 1)
      ensures ShownAt(cfg, s, run, n + 1) <= ShownAt(cfg, s, run, n)
    {
      RisesExactly(cfg, s, run, n);
      BehindExactly(cfg, s, run, n + 1);
      StaysFading(cfg, s, run, n + 1);
      WeightUnit(cfg, AfterRun(cfg, s, run, n + 1));
    }
  }
}
