/** Gestures on a walking robot over whole inferences: the stance and motion models with the
    takeover adapter they own, called as the RL mode calls them (state_rl.cpp). */
module GestureRuns {
  import opened Curves
  import opened RobotBase
  import P = Player
  import S = Stance
  import T = Takeover
  import opened TakeoverRuns

  datatype Setup = Setup(stance: S.Settings, gesture: T.Config)

  /** A failed inference is a fault of the RL state, which calls its adapter no more. */
  datatype Adapter = Adapter(stance: S.State, gesture: T.State, failed: bool)

  /** One inference with the command it goes by. */
  datatype Round = Round(command: S.Command, inference: Inference)

  ghost predicate ValidSetup(c: Setup) {
    S.ValidSettings(c.stance) && T.ValidConfig(c.gesture) && c.stance.dim == c.gesture.dim
  }

  predicate Busy(a: Adapter) { P.Busy(a.gesture.status.phase) }

  /** The mode that lets the legs stand is left as soon as the filtered velocity says so. */
  ghost predicate Sound(c: Setup, a: Adapter)
    requires ValidSetup(c)
  {
    && S.Valid(c.stance, a.stance) && T.Valid(c.gesture, a.gesture)
    && (!a.failed && a.stance.mode == 0 ==> S.NearZero(c.stance, a.stance.filtered))
  }

  predicate Usual(c: Setup, r: Round) {
    |r.command| == 3 && (r.inference.action.Some? ==> |r.inference.action.value| == c.stance.dim)
  }

  function Selected(c: Setup, a: Adapter, r: Round): (t: Adapter)
    requires ValidSetup(c) && Sound(c, a) && Usual(c, r)
    ensures Sound(c, t) && t.gesture == a.gesture
  {
    SelectKeepsSound(c, a, r);
    var (stance, executor) := S.SelectExecutor(c.stance, a.stance, true, Busy(a), r.command);
    a.(stance := stance, failed := a.failed || executor.None?)
  }

  /** The model that infers; None if the command is not finite. */
  function Chosen(c: Setup, a: Adapter, r: Round): Option<S.Executor>
    requires ValidSetup(c) && Sound(c, a) && Usual(c, r)
  {
    S.SelectExecutor(c.stance, a.stance, true, Busy(a), r.command).1
  }

  /** The request is heard, and handed on to the takeover adapter unless it is refused. */
  function Told(c: Setup, a: Adapter, r: Round): (t: Adapter)
    requires ValidSetup(c) && Sound(c, a) && Usual(c, r)
    ensures Sound(c, t)
  {
    var s, i := Selected(c, a, r), r.inference;
    if i.switching then s
    else
      Adapter(S.Hear(s.stance, true, Busy(s), i.request),
              if S.Forwards(s.stance, true, Busy(s), i.request)
              then T.Perform(c.gesture, s.gesture, T.DoHandle(i.request, i.at)) else s.gesture, s.failed)
  }

  function Prepared(c: Setup, a: Adapter, r: Round): (t: Adapter)
    requires ValidSetup(c) && Sound(c, a) && Usual(c, r)
    ensures Sound(c, t)
  {
    var s, i := Told(c, a, r), r.inference;
    var switched := T.Perform(c.gesture, s.gesture, T.DoSwitch(i.switching, i.at));
    var gesture := T.Perform(c.gesture, switched, T.DoPrepare(i.at, i.positions));
    Adapter(S.Observe(c.stance, s.stance, true, T.InteractionWeight(c.gesture, gesture)), gesture, s.failed)
  }

  /** A command that is not finite ends the inference at once. */
  function Inferred(c: Setup, a: Adapter, r: Round): (t: Adapter)
    requires ValidSetup(c) && Sound(c, a) && Usual(c, r)
    ensures Sound(c, t)
  {
    var s := Prepared(c, a, r);
    if a.failed then a
    else if Chosen(c, a, r).None? then Selected(c, a, r)
    else if r.inference.action.None? then s
    else
      var action := r.inference.action.value;
      Adapter(s.stance.(history := S.HistoryOf(c.stance, action)),
              T.Perform(c.gesture, s.gesture, T.DoAction(S.HandedOn(c.stance, s.stance, action))), s.failed)
  }

  /** The adapter after Reset, whatever was before. */
  function Fresh(c: Setup, before: T.State): (a: Adapter)
    requires ValidSetup(c)
    ensures Sound(c, a)
  {
    Adapter(S.Reset(c.stance), T.Reset(c.gesture, before), false)
  }

  function After(c: Setup, before: T.State, rounds: seq<Round>, n: nat): (t: Adapter)
    requires ValidSetup(c) && n <= |rounds| && forall i | 0 <= i < |rounds| :: Usual(c, rounds[i])
    ensures Sound(c, t)
  {
    if n == 0 then Fresh(c, before) else Inferred(c, After(c, before, rounds, n - 1), rounds[n - 1])
  }

  lemma SelectKeepsSound(c: Setup, a: Adapter, r: Round)
    requires ValidSetup(c) && Sound(c, a) && Usual(c, r)
    ensures var (stance, executor) := S.SelectExecutor(c.stance, a.stance, true, Busy(a), r.command);
            Sound(c, a.(stance := stance, failed := a.failed || executor.None?))
  {
    var selected := S.SelectExecutor(c.stance, a.stance, true, Busy(a), r.command);
    if selected.1.Some? && !S.WaitsNow(a.stance, Busy(a), r.command) {
      StandingModeIsSlow(c.stance, a.stance.mode, selected.0.filtered);
    }
  }

  lemma StandingModeIsSlow(cfg: S.Settings, mode: nat, v: seq<real>)
    requires S.ValidSettings(cfg) && |v| == 3 && mode <= 3
    ensures S.NextMode(cfg, mode, v) == 0 ==> S.NearZero(cfg, v)
  {}

  // ---------------------------------------------------------------- gestures

  /** Only an accepted start makes the takeover adapter busy. */
  lemma StartMakesBusy(cfg: T.Config, s: T.State, r: Interaction, at: real)
    requires T.ValidConfig(cfg) && T.Valid(cfg, s) && !P.Busy(s.status.phase)
    ensures P.Busy(T.HandleInteractionRequest(cfg, s, r, at).status.phase) ==> r.operation == Start
  {}

  /** The stance model is chosen and told to stand. */
  predicate Stands(c: Setup, a: Adapter, r: Round)
    requires ValidSetup(c) && Sound(c, a) && Usual(c, r)
  {
    Chosen(c, a, r) == Some(S.Primary) && Selected(c, a, r).stance.model == c.stance.stance
  }

  lemma BusyStands(c: Setup, a: Adapter, r: Round)
    requires ValidSetup(c) && Sound(c, a) && Usual(c, r) && Busy(a)
    ensures Stands(c, a, r)
  {}

  /** By the name of the model the robot has stood before this inference as well. */
  lemma StanceWasStanding(c: Setup, a: Adapter, r: Round)
    requires ValidSetup(c) && Sound(c, a) && Usual(c, r) && !Busy(a)
    requires var s := Selected(c, a, r).stance; s.name == "stance" && S.Zero(s.requested) && !s.waits
    ensures Stands(c, a, r) && S.Zero(r.command) && a.stance.mode == 0
  {
    assert S.Usable(r.command, 0) == 3;
  }

  /** In every run a gesture begins only by a start that is requested with a zero command, while the
      filtered velocity is below the thresholds of standing, the stance model is in charge and the
      stick has been let go since the gesture before. */
  lemma GestureBegins(c: Setup, before: T.State, rounds: seq<Round>, n: nat)
    requires ValidSetup(c) && n < |rounds| && forall i | 0 <= i < |rounds| :: Usual(c, rounds[i])
    requires var a := After(c, before, rounds, n); !a.failed && !Busy(a) && Busy(Told(c, a, rounds[n]))
    ensures var a, r := After(c, before, rounds, n), rounds[n];
            && r.inference.request.operation == Start && S.Zero(r.command)
            && S.NearZero(c.stance, a.stance.filtered) && Stands(c, a, r) && !Selected(c, a, r).stance.waits
  {
    var a, r := After(c, before, rounds, n), rounds[n];
    var s := Selected(c, a, r);
    hide After, S.SelectExecutor, S.NearZero, T.Valid, T.ValidConfig, S.Zero;
    StartMakesBusyHere(c, s, r);
    S.GestureStartsStanding(s.stance, true, Busy(s), r.inference.request);
    StanceWasStanding(c, a, r);
    hide S.Forwards, S.Hear, T.HandleInteractionRequest;
    RequestedIsCommand(c, a, r);
  }

  lemma StartMakesBusyHere(c: Setup, s: Adapter, r: Round)
    requires ValidSetup(c) && Sound(c, s) && !Busy(s)
    requires P.Busy(T.Perform(c.gesture, s.gesture, T.DoHandle(r.inference.request, r.inference.at)).status.phase)
    ensures r.inference.request.operation == Start
  {
    StartMakesBusy(c.gesture, s.gesture, r.inference.request, r.inference.at);
  }

  lemma RequestedIsCommand(c: Setup, a: Adapter, r: Round)
    requires ValidSetup(c) && Sound(c, a) && Usual(c, r)
    ensures Selected(c, a, r).stance.requested == r.command
  {}

  /** Within an inference nothing but the request makes a gesture begin. */
  lemma BusyOnlyByRequest(c: Setup, a: Adapter, r: Round)
    requires ValidSetup(c) && Sound(c, a) && Usual(c, r)
    ensures Busy(Prepared(c, a, r)) || Busy(Inferred(c, a, r)) ==> Busy(a) || Busy(Told(c, a, r))
  {}

  /** There is a gesture at some time in this inference. */
  ghost predicate Shows(c: Setup, a: Adapter, r: Round)
    requires ValidSetup(c) && Sound(c, a) && Usual(c, r)
  {
    Busy(a) || Busy(Told(c, a, r)) || Busy(Prepared(c, a, r)) || Busy(Inferred(c, a, r))
  }

  /** So in every run the legs stand in each inference that has a gesture at any time, the one in
      which it begins included. */
  lemma LegsStand(c: Setup, before: T.State, rounds: seq<Round>, n: nat)
    requires ValidSetup(c) && n < |rounds| && forall i | 0 <= i < |rounds| :: Usual(c, rounds[i])
    requires var a := After(c, before, rounds, n); !a.failed && Shows(c, a, rounds[n])
    ensures Stands(c, After(c, before, rounds, n), rounds[n])
  {
    hide After, Told, Stands, Prepared, Inferred;
    var a := After(c, before, rounds, n);
    if Busy(a) {
      BusyStands(c, a, rounds[n]);
    } else {
      BusyOnlyByRequest(c, a, rounds[n]);
      GestureBegins(c, before, rounds, n);
    }
  }
}
