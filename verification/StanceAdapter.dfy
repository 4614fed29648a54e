/** The stance/motion adapter of stance_motion_policy_adapter.cpp as an object that owns a
    takeover adapter, if gestures are configured. */
module StanceAdapter {
  import opened Curves
  import opened RobotBase
  import P = Player
  import S = Stance
  import T = Takeover
  import Gestures = TakeoverAdapter
  import Poses = JointTrajectory

  class StanceMotionPolicyAdapter {
    const cfg: S.Settings
    const trajectory: Gestures.JointTrajectoryPolicyAdapter?
    var filtered: seq<real>
    var model: seq<real>
    var mode: nat
    var name: string
    var requested: S.Command
    var waits: bool
    var observing: bool
    var releaseLeft: nat
    var sequence: nat
    var rejected: InteractionStatus
    var history: seq<real>

    constructor (cfg: S.Settings, trajectory: Gestures.JointTrajectoryPolicyAdapter?)
      requires S.ValidSettings(cfg)
      requires trajectory != null ==> trajectory.Valid() && trajectory.cfg.dim == cfg.dim
      ensures this.cfg == cfg && this.trajectory == trajectory && Valid() && Snapshot() == S.Reset(cfg)
    {
      this.cfg, this.trajectory := cfg, trajectory;
      filtered, model, requested, history := S.ORIGIN, cfg.stance, [Some(0.0), Some(0.0), Some(0.0)], Zeros(cfg.dim);
      mode, name, waits, observing, releaseLeft, sequence, rejected := 0, "", false, false, 0, 0, NO_STATUS;
    }

    ghost function Snapshot(): S.State
      reads this
    {
      S.State(filtered, model, mode, name, requested, waits, observing, releaseLeft, sequence, rejected, history)
    }

    ghost predicate Valid()
      reads this, trajectory
    {
      && S.ValidSettings(cfg) && S.Valid(cfg, Snapshot())
      && (trajectory != null ==> trajectory.Valid() && trajectory.cfg.dim == cfg.dim)
    }

    predicate InteractionBusy()
      reads this, trajectory
    {
      trajectory != null && P.Busy(trajectory.status.phase)
    }

    predicate ReadyForPolicySwitch()
      reads this, trajectory
    {
      name == "stance" && mode == 0 && !InteractionBusy() && !waits
    }

    /** One axis after the other; a component that is not finite is an error. */
    method FilterCommand(command: S.Command) returns (ok: bool)
      requires Valid() && |command| == 3
      modifies `filtered
      ensures ok == (S.Usable(command, 0) == 3)
      ensures filtered == S.Filtered(cfg, old(filtered), command, S.Usable(command, 0))
    {
      ghost var n := S.Usable(command, 0);
      hide S.Step;
      for axis := 0 to 3
        modifies `filtered
        invariant axis <= n && filtered == S.Filtered(cfg, old(filtered), command, axis)
      {
        if command[axis].None? {
          return false;
        }
        assert n > axis;
        filtered := filtered[axis := S.Step(filtered[axis], command[axis].value, cfg.up[axis], cfg.down[axis])];
      }
      ok := true;
    }

    method SelectExecutor(command: S.Command) returns (r: Option<S.Executor>)
      requires Valid() && |command| == 3
      modifies `requested, `waits, `filtered, `model, `mode, `name
      ensures Valid()
      ensures var selected := S.SelectExecutor(cfg, old(Snapshot()), trajectory != null, old(InteractionBusy()), command);
              Snapshot() == selected.0 && r == selected.1
    {
      hide S.Filtered, S.Usable, S.Zero, P.Busy, T.ValidConfig, T.Valid;
      requested := command;
      if trajectory != null {
        var zero := S.Zero(command);
        if InteractionBusy() {
          waits := true;
        } else if zero {
          waits := false;
        }
        if InteractionBusy() || waits {
          filtered, model, mode, name := S.ORIGIN, cfg.stance, 0, "stance";
          return Some(S.Primary);
        }
      }
      var ok := FilterCommand(command);
      if !ok {
        return None;
      }
      r := Route();
    }

    /** Select by the old mode; a change of mode takes effect with the next tick. */
    method Route() returns (r: Option<S.Executor>)
      requires Valid()
      modifies `model, `mode, `name
      ensures var (executor, model_, name_) := S.Route(cfg, old(mode), filtered);
              r == Some(executor) && model == model_ && name == name_ && mode == S.NextMode(cfg, old(mode), filtered)
    {
      ghost var routed := S.Route(cfg, mode, filtered);
      var linearZero := Abs(filtered[0]) < cfg.stand[0] && Abs(filtered[1]) < cfg.stand[1];
      var nearZero := linearZero && Abs(filtered[2]) < cfg.stand[2];
      var selected := mode;
      var stance := selected == 0;
      model := filtered;
      if selected == 0 {
        model := cfg.stance;
        if !nearZero {
          mode := 1;
        }
      } else if selected == 1 {
        if filtered[0] > cfg.forward {
          mode := 2;
        } else if nearZero {
          mode := 0;
        }
        if linearZero && Abs(filtered[2]) > cfg.stand[2] {
          stance := true;
          model := model[2 := Times(model[2], cfg.turnScale)];
        }
      } else if selected == 2 {
        if filtered[0] < cfg.forward {
          mode := 1;
        } else if filtered[0] > cfg.fast {
          mode := 3;
        }
      } else if filtered[0] < cfg.fast {
        mode := 2;
      }
      var run := !stance && selected == 3 && cfg.hasRun;
      name := if stance then if selected == 0 then "stance" else "turn" else if run then "run" else "motion";
      assert model == routed.1;
      r := Some(if stance then S.Primary else if run then S.Running else S.Motion);
    }

    method HandleInteractionRequest(r: Interaction, elapsed: real)
      requires Valid()
      modifies `sequence, `rejected, trajectory
      ensures Valid()
      ensures Snapshot() == S.Hear(old(Snapshot()), trajectory != null, old(InteractionBusy()), r)
      ensures trajectory != null ==>
                trajectory.Snapshot() ==
                if S.Forwards(old(Snapshot()), true, old(InteractionBusy()), r)
                then T.HandleInteractionRequest(trajectory.cfg, old(trajectory.Snapshot()), r, elapsed)
                else old(trajectory.Snapshot())
    {
      if trajectory == null || r.operation == NoOperation || r.sequence == 0 || r.sequence <= sequence {
        return;
      }
      sequence, rejected := r.sequence, NO_STATUS;
      var zero := S.Zero(requested);
      if r.operation == Start && !InteractionBusy() && (name != "stance" || !zero || waits) {
        rejected := InteractionStatus(r.sequence, false, Rejected, 0.0, r.action);
        return;
      }
      trajectory.HandleInteractionRequest(r, elapsed);
    }

    method PrepareInputs(elapsed: real, positions: seq<real>) returns (ok: bool)
      requires Valid() && elapsed >= 0.0
      requires trajectory != null && T.Measures(trajectory.cfg, trajectory.Snapshot()) ==>
                 T.Covers(trajectory.cfg.clips[trajectory.active.value], positions)
      modifies `observing, `releaseLeft, trajectory
      ensures Valid()
      ensures trajectory != null ==>
                trajectory.Snapshot() == T.PrepareInputs(trajectory.cfg, old(trajectory.Snapshot()), elapsed, positions)
      ensures Snapshot() == S.Observe(cfg, old(Snapshot()), trajectory != null,
                if trajectory == null then 0.0 else T.InteractionWeight(trajectory.cfg, trajectory.Snapshot()))
    {
      ok := true;
      if trajectory != null {
        ok := trajectory.PrepareInputs(elapsed, positions);
      }
      hide T.InteractionWeight, T.PrepareInputs;
      observing := trajectory != null && T.InteractionWeight(trajectory.cfg, T.State(
        trajectory.active, trajectory.source, trajectory.previous, trajectory.phaseStart, trajectory.playbackStart,
        trajectory.entryDuration, trajectory.last, trajectory.gain, trajectory.sourceWeight, trajectory.sequence,
        trajectory.status)) > 0.0;
      if observing {
        releaseLeft := cfg.releaseFrames;
      } else if releaseLeft > 0 {
        releaseLeft := releaseLeft - 1;
      }
    }

    /** The model's history is its own output, before any override or trajectory. */
    method RecordAction(action: array<real>)
      requires Valid() && action.Length == cfg.dim
      modifies `history
      ensures history == S.HistoryOf(cfg, action[..])
    {
      for i := 0 to action.Length
        modifies `history
        invariant |history| == cfg.dim && forall k | 0 <= k < i :: history[k] == S.HistoryOf(cfg, action[..])[k]
      {
        history := history[i := action[i] * S.ScaleAt(cfg, i)];
      }
    }

    method OverrideJoints(action: array<real>)
      requires Valid() && action.Length == cfg.dim
      modifies action
      ensures action[..] == S.HandedOn(cfg, Snapshot(), old(action[..]))
    {
      ghost var input := action[..];
      if observing || releaseLeft > 0 {
        for i := 0 to |cfg.indices|
          modifies action
          invariant forall k | 0 <= k < i :: action[cfg.indices[k]] == cfg.neutral[k]
          invariant forall j | 0 <= j < action.Length :: j !in cfg.indices ==> action[j] == input[j]
        {
          action[cfg.indices[i]] := cfg.neutral[i];
        }
        Poses.PlacedExactly(input, cfg.indices, cfg.neutral, action[..]);
      }
    }

    /** An action of the wrong dimension is an error. */
    method OnAction(action: array<real>) returns (ok: bool)
      requires Valid()
      modifies `history, trajectory, action
      ensures Valid() && ok == (action.Length == cfg.dim)
      ensures !ok ==> Snapshot() == old(Snapshot()) && action[..] == old(action[..])
      ensures ok ==>
                var handed := S.HandedOn(cfg, old(Snapshot()), old(action[..]));
                && Snapshot() == old(Snapshot()).(history := S.HistoryOf(cfg, old(action[..])))
                && (trajectory == null ==> action[..] == handed)
                && (trajectory != null ==>
                      && action[..] == T.Applied(trajectory.cfg, old(trajectory.Snapshot()), handed)
                      && trajectory.Snapshot() == T.OnAction(trajectory.cfg, old(trajectory.Snapshot()), handed))
    {
      ok := action.Length == cfg.dim;
      if !ok {
        return;
      }
      hide T.OnAction, T.Applied, S.HandedOn, S.HistoryOf;
      RecordAction(action);
      OverrideJoints(action);
      if trajectory != null {
        ok := trajectory.OnAction(action);
      }
    }
  }
}
