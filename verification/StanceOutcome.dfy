/** Which model one tick of the stance adapter selects and what it commands, and where a command that
    is held leads. */
module StanceOutcome {
  import opened Curves
  import opened RobotBase
  import opened Stance

  // ---------------------------------------------------------------- one tick

  /** The legs stand: a gesture is under way, or the stick has not been let go after one. */
  predicate Stands(s: State, gestures: bool, busy: bool, command: Command) {
    gestures && (busy || (s.waits && exists a :: 0 <= a < |command| && (command[a].None? || Abs(command[a].value) >= ZERO_BAND)))
  }

  predicate Finite(command: Command) { forall a | 0 <= a < |command| :: command[a].Some? }

  /** The command leads an axis away from rest. */
  predicate Away(current: real, command: real) {
    (current >= 0.0 && command >= current) || (current <= 0.0 && command <= current)
  }

  /** One axis goes all the way to its command if one step allows it. */
  predicate Moved(cfg: Settings, axis: nat, current: real, command: real, next: real)
    requires ValidSettings(cfg) && axis < 3
  {
    var step := if Away(current, command) then cfg.up[axis] else cfg.down[axis];
    next == if Abs(command - current) <= step then command else if command > current then current + step else current - step
  }

  lemma StepMoves(cfg: Settings, axis: nat, current: real, command: real)
    requires ValidSettings(cfg) && axis < 3
    ensures Moved(cfg, axis, current, command, Step(current, command, cfg.up[axis], cfg.down[axis]))
  {
    var delta := command - current;
    assert Times(current, delta) >= 0.0 <==>
      (current == 0.0 || (current > 0.0 && delta >= 0.0) || (current < 0.0 && delta <= 0.0)) by {
      SignOf(current, delta);
    }
  }

  lemma SignOf(x: real, y: real)
    ensures Times(x, y) >= 0.0 <==> x == 0.0 || (x > 0.0 && y >= 0.0) || (x < 0.0 && y <= 0.0)
  {
    assert Times(x, y) == Times(-x, -y);
    Positive(x, -y);
    Positive(-x, y);
    assert Times(x, y) == -Times(x, -y) == -Times(-x, y);
    if x >= 0.0 && y >= 0.0 { Nonnegative(x, y); }
    if x <= 0.0 && y <= 0.0 { Nonnegative(-x, -y); }
  }

  /** Forward and sideways the robot is nearly at rest. */
  predicate Slow(cfg: Settings, v: seq<real>)
    requires ValidSettings(cfg) && |v| == 3
  {
    -cfg.stand[0] < v[0] < cfg.stand[0] && -cfg.stand[1] < v[1] < cfg.stand[1]
  }

  predicate Still(cfg: Settings, v: seq<real>)
    requires ValidSettings(cfg) && |v| == 3
  {
    Slow(cfg, v) && -cfg.stand[2] < v[2] < cfg.stand[2]
  }

  predicate Spins(cfg: Settings, v: seq<real>)
    requires ValidSettings(cfg) && |v| == 3
  {
    Slow(cfg, v) && (v[2] > cfg.stand[2] || v[2] < -cfg.stand[2])
  }

  /** The velocity commanded for a turn on the spot. */
  function Turned(cfg: Settings, v: seq<real>): seq<real>
    requires |v| == 3
  {
    [v[0], v[1], Times(v[2], cfg.turnScale)]
  }

  lemma TurnScaled(cfg: Settings, v: seq<real>)
    requires |v| == 3
    ensures v[2 := Times(v[2], cfg.turnScale)] == Turned(cfg, v)
  {
    hide Times;
  }

  lemma RoutedExactly(cfg: Settings, mode: nat, v: seq<real>)
    requires ValidSettings(cfg) && |v| == 3 && mode <= 3
    ensures var (e, model, name) := Route(cfg, mode, v);
            && (e == Primary <==> mode == 0 || (mode == 1 && Spins(cfg, v)))
            && (e == Running <==> mode == 3 && cfg.hasRun)
            && model == (if mode == 0 then cfg.stance else if e == Primary then Turned(cfg, v) else v)
            && name == (if mode == 0 then "stance" else if e == Primary then "turn" else if e == Running then "run" else "motion")
  {
    hide Turned, Times;
    TurnScaled(cfg, v);
  }

  function ModeAfter(cfg: Settings, mode: nat, v: seq<real>): nat
    requires ValidSettings(cfg) && |v| == 3 && mode <= 3
  {
    match mode
    case 0 => if Still(cfg, v) then 0 else 1
    case 1 => if v[0] > cfg.forward then 2 else if Still(cfg, v) then 0 else 1
    case 2 => if v[0] < cfg.forward then 1 else if v[0] > cfg.fast then 3 else 2
    case _ => if v[0] < cfg.fast then 2 else 3
  }

  lemma ModeExactly(cfg: Settings, mode: nat, v: seq<real>)
    requires ValidSettings(cfg) && |v| == 3 && mode <= 3
    ensures NextMode(cfg, mode, v) == ModeAfter(cfg, mode, v)
  {}

  /** Which model a tick selects, by the mode before it and the filtered velocity: the stance model in
      mode 0 and for turning on the spot in mode 1, the run model, if there is one, in mode 3, and the
      motion model otherwise. */
  lemma SelectedExactly(cfg: Settings, s: State, gestures: bool, busy: bool, command: Command)
    requires ValidSettings(cfg) && Valid(cfg, s) && |command| == 3
    ensures var (t, e) := SelectExecutor(cfg, s, gestures, busy, command); var v := t.filtered;
            && t.requested == command
            && (if Stands(s, gestures, busy, command) then
                  e == Some(Primary) && t.name == "stance" && t.mode == 0 && t.model == cfg.stance && v == [0.0, 0.0, 0.0]
                else if !Finite(command) then e.None?
                else
                  && (forall a | 0 <= a < 3 :: Moved(cfg, a, s.filtered[a], command[a].value, v[a]))
                  && (e == Some(Primary) <==> s.mode == 0 || (s.mode == 1 && Spins(cfg, v)))
                  && (e == Some(Running) <==> s.mode == 3 && cfg.hasRun)
                  && (e == Some(Motion) <==> s.mode == 2 || (s.mode == 1 && !Spins(cfg, v)) || (s.mode == 3 && !cfg.hasRun))
                  && t.model == (if s.mode == 0 then cfg.stance else if e == Some(Primary) then Turned(cfg, v) else v)
                  && t.name == (if s.mode == 0 then "stance" else if e == Some(Primary) then "turn"
                       else if e == Some(Running) then "run" else "motion")
                  && t.mode == ModeAfter(cfg, s.mode, v))
  {
    hide Filtered, Step, Moved, NextMode, ModeAfter, Route, Spins, Turned;
    StandsExactly(s, busy, command);
    assert ORIGIN == [0.0, 0.0, 0.0];
    if Finite(command) {
      assert Usable(command, 0) == 3;
      var v := Filtered(cfg, s.filtered, command, 3);
      FilterMoves(cfg, s.filtered, command);
      RoutedExactly(cfg, s.mode, v);
      ModeExactly(cfg, s.mode, v);
    }
  }

  lemma StandsExactly(s: State, busy: bool, command: Command)
    ensures WaitsNow(s, busy, command) <==> Stands(s, true, busy, command)
  {}

  lemma FilterMoves(cfg: Settings, filtered: seq<real>, command: Command)
    requires ValidSettings(cfg) && |filtered| == |command| == 3 && Finite(command)
    ensures var v := Filtered(cfg, filtered, command, 3); forall a | 0 <= a < 3 ::
        Moved(cfg, a, filtered[a], command[a].value, v[a])
  {
    hide Moved, Step;
    var v := Filtered(cfg, filtered, command, 3);
    forall a | 0 <= a < 3 ensures Moved(cfg, a, filtered[a], command[a].value, v[a]) {
      StepMoves(cfg, a, filtered[a], command[a].value);
    }
  }

  // ---------------------------------------------------------------- a command that is held

  /** n ticks with the same command and no gesture. */
  function Holding(cfg: Settings, s: State, command: Command, n: nat): (t: State)
    requires ValidSettings(cfg) && Valid(cfg, s) && |command| == 3
    ensures Valid(cfg, t)
  {
    if n == 0 then s else SelectExecutor(cfg, Holding(cfg, s, command, n - 1), false, false, command).0
  }

  /** The slower of an axis' two steps. */
  function Slowest(cfg: Settings, axis: nat): (step: real)
    requires ValidSettings(cfg) && axis < 3
    ensures step > 0.0
  {
    Min(cfg.up[axis], cfg.down[axis])
  }

  lemma Nearer(cfg: Settings, axis: nat, current: real, command: real, next: real)
    requires ValidSettings(cfg) && axis < 3 && Moved(cfg, axis, current, command, next)
    ensures Abs(command - next) <= Max(0.0, Abs(command - current) - Slowest(cfg, axis))
  {}

  /** After n ticks the filtered velocity is nearer by at least n steps, or has arrived. */
  lemma {:induction false} FilterArrives(cfg: Settings, s: State, command: Command, n: nat, axis: nat)
    requires ValidSettings(cfg) && Valid(cfg, s) && |command| == 3 && Finite(command) && axis < 3
    ensures Abs(command[axis].value - Holding(cfg, s, command, n).filtered[axis])
            <= Max(0.0, Abs(command[axis].value - s.filtered[axis]) - Times(n as real, Slowest(cfg, axis)))
  {
    hide Moved, Slowest, SelectExecutor, Times;
    if n == 0 {
      NoSteps(Slowest(cfg, axis));
    } else {
      FilterArrives(cfg, s, command, n - 1, axis);
      var t := Holding(cfg, s, command, n - 1);
      SelectedExactly(cfg, t, false, false, command);
      Nearer(cfg, axis, t.filtered[axis], command[axis].value, Holding(cfg, s, command, n).filtered[axis]);
      Distributes(n, Slowest(cfg, axis));
    }
  }

  lemma NoSteps(step: real)
    ensures Times(0.0, step) == 0.0
  {}

  lemma Distributes(n: nat, step: real)
    requires n > 0
    ensures Times(n as real, step) == Times((n - 1) as real, step) + step
  {
    assert n as real == (n - 1) as real + 1.0;
  }

  /** The mode that fits a velocity that is not exactly at a threshold. */
  function Fitting(cfg: Settings, v: seq<real>): nat
    requires ValidSettings(cfg) && |v| == 3
  {
    if v[0] > cfg.fast then 3 else if v[0] > cfg.forward then 2 else if Still(cfg, v) then 0 else 1
  }

  lemma ModeFits(cfg: Settings, mode: nat, v: seq<real>)
    requires ValidSettings(cfg) && |v| == 3 && mode <= 3 && v[0] != cfg.forward && v[0] != cfg.fast
    ensures var next, fits := ModeAfter(cfg, mode, v), Fitting(cfg, v);
            next == if mode < fits then mode + 1 else if mode > fits then mode - 1 else fits
  {}

  /** The values of a finite command. */
  function Values(command: Command): seq<real>
    requires |command| == 3 && Finite(command)
  {
    [command[0].value, command[1].value, command[2].value]
  }

  lemma {:induction false} StaysArrived(cfg: Settings, s: State, command: Command, n: nat)
    requires ValidSettings(cfg) && Valid(cfg, s) && |command| == 3 && Finite(command) && s.filtered == Values(command)
    requires command[0].value != cfg.forward && command[0].value != cfg.fast
    ensures var t, fits := Holding(cfg, s, command, n), Fitting(cfg, Values(command));
            && t.filtered == Values(command)
            && (s.mode <= fits ==> t.mode == if s.mode + n < fits then s.mode + n else fits)
            && (s.mode >= fits ==> t.mode == if s.mode > fits + n then s.mode - n else fits)
  {
    hide SelectExecutor, Fitting, ModeAfter, Spins;
    if n > 0 {
      StaysArrived(cfg, s, command, n - 1);
      var t, u := Holding(cfg, s, command, n - 1), Holding(cfg, s, command, n);
      SelectedExactly(cfg, t, false, false, command);
      forall a | 0 <= a < 3 ensures u.filtered[a] == Values(command)[a] {
        assert Moved(cfg, a, t.filtered[a], command[a].value, u.filtered[a]);
      }
      assert u.filtered == Values(command);
      ModeFits(cfg, t.mode, u.filtered);
    }
  }

  lemma {:induction false} HoldsInTurn(cfg: Settings, s: State, command: Command, m: nat, n: nat)
    requires ValidSettings(cfg) && Valid(cfg, s) && |command| == 3
    ensures Holding(cfg, s, command, m + n) == Holding(cfg, Holding(cfg, s, command, m), command, n)
  {
    hide SelectExecutor;
    if n > 0 {
      HoldsInTurn(cfg, s, command, m, n - 1);
    }
  }

  /** A command that is held is reached within the ticks its way takes, and three ticks later at most
      the mode fits it and stays. */
  lemma CommandIsReached(cfg: Settings, s: State, command: Command, m: nat, n: nat)
    requires ValidSettings(cfg) && Valid(cfg, s) && |command| == 3 && Finite(command)
    requires forall a | 0 <= a < 3 :: Abs(command[a].value - s.filtered[a]) <= Times(m as real, Slowest(cfg, a))
    requires command[0].value != cfg.forward && command[0].value != cfg.fast && n >= 3
    ensures var t := Holding(cfg, s, command, m + n); t.filtered == Values(command) && t.mode == Fitting(cfg, Values(command))
  {
    hide Holding, Slowest, Fitting, Times;
    var t := Holding(cfg, s, command, m);
    forall a | 0 <= a < 3 ensures t.filtered[a] == Values(command)[a] {
      FilterArrives(cfg, s, command, m, a);
    }
    assert t.filtered == Values(command);
    HoldsInTurn(cfg, s, command, m, n);
    StaysArrived(cfg, t, command, n);
    FitsLevels(cfg, Values(command));
  }

  lemma FitsLevels(cfg: Settings, v: seq<real>)
    requires ValidSettings(cfg) && |v| == 3
    ensures Fitting(cfg, v) <= 3
  {}
}