/** The mode machine of behavior_fsm.cpp as an object. It holds the states it can enter as
    values; the environment's part of a tick comes in as a parameter. */
module Machine {
  import opened RobotBase
  import opened Fsm
  import Home = HomePose
  import Safety_ = SafetyRelease
  import Zero_ = ZeroPose

  class FSM {
    const cfg: FsmConfig
    var current: Mode
    var zero: Zero_.Visit
    var home: Home.HomeClock
    var safety: Safety_.Release
    var rl: RlState
    ghost var journal: seq<Change>

    constructor (cfg: FsmConfig)
      ensures this.cfg == cfg && Snapshot() == POWERED_OFF
    {
      this.cfg, current := cfg, PowerOff;
      zero, home, safety, rl, journal := Zero_.FRESH, Home.FRESH, Safety_.EnterSafety(false), FRESH_RL, [];
    }

    ghost function Snapshot(): FsmState
      reads this
    {
      FsmState(current, zero, home, safety, rl, journal)
    }

    function Fault(): FaultStatus
      reads this
      ensures Fault() == CurrentFault(Snapshot())
    {
      if current == Rl && rl.fault.Some? then FaultStatus(true, true, Policy, rl.fault.value, 0, 0) else NO_FAULT
    }

    predicate Ready(tick: Tick)
      reads this
      ensures Ready(tick) == ReadyForPolicySwitch(Snapshot(), tick)
    {
      current == Rl && rl.switchRequested && tick.switchReady
    }

    /** The inference thread reports a fault; the first one sticks. */
    method Report(code: Option<FaultCode>)
      modifies `rl
      ensures Snapshot() == RaiseIn(old(Snapshot()), code)
    {
      if current == Rl && rl.fault.None? {
        rl := rl.(fault := code);
      }
    }

    /** The present state's transition rule; a key that is used is taken off the command. */
    method CheckTransition(key: int) returns (next: Mode, left: int)
      ensures (next, left) == Fsm.CheckTransition(cfg, Snapshot(), key)
    {
      next, left := current, key;
      match current
      case PowerOff =>
        if key == 1 {
          next, left := Damp, 0;
        }
      case Damp =>
        if key == 4 {
          next, left := Home, 0;
        } else if key == -1 {
          next, left := PowerOff, 0;
        }
      case Safety =>
        if safety.finished {
          next := PowerOff;
        }
      case _ =>
        if current == Home && key == 2 && home.finished {
          next, left := Zero, 0;
        } else if current == Zero && key == 3 && zero.finished {
          next, left := cfg.zero.next, 0;
        } else if current == Rl && rl.fault.Some? {
          next := Safety;
        } else if key == 1 {
          next, left := Damp, 0;
        } else if key == -1 {
          next, left := PowerOff, 0;
        }
    }

    /** Leave the present state and enter another, if it is registered. */
    method SwitchTo(target: Mode, fault: FaultStatus, tick: Tick)
      modifies this
      ensures Snapshot() == Fsm.SwitchTo(cfg, old(Snapshot()), target, fault, tick)
    {
      if (target == Rl && !cfg.hasRl) || (target == Trajectory && !cfg.hasTrajectory) {
        return;
      }
      journal := journal + [Change(current, target, zero)];
      current := target;
      match target
      case Zero => zero := Zero_.FRESH;
      case Home => home := Home.FRESH;
      case Safety => safety := Safety_.EnterSafety(tick.releasable && Safety_.AllowsControlledRelease(fault));
      case Rl => rl := RlState(tick.rlEntry, false);
      case _ =>
    }

    method ForceSwitch(target: Mode, fault: FaultStatus, tick: Tick)
      modifies this
      ensures Snapshot() == Fsm.ForceSwitch(cfg, old(Snapshot()), target, fault, tick)
    {
      if target != current {
        SwitchTo(target, fault, tick);
      }
    }

    method RunCurrent(key: int, tick: Tick) returns (left: int)
      modifies this
      ensures (Snapshot(), left) == Fsm.RunCurrent(cfg, old(Snapshot()), key, tick)
    {
      left := key;
      match current
      case Zero => zero := Zero_.RunZero(cfg.zero, zero, tick.dt, tick.within);
      case Home => home := Home.RunHome(cfg.homeRamp, cfg.homeMove, home, tick.dt);
      case Safety => safety := Safety_.RunSafety(cfg.release, safety, tick.dt);
      case Rl =>
        if tick.dt <= 0.0 || tick.rlDt <= 0.0 {
          Report(Some(InvalidData));
        } else if tick.rlTilted {
          Report(Some(LimitExceeded));
        } else {
          if key == 5 {
            left := 0;
          }
          Report(tick.rlRun);
        }
      case _ =>
    }

    method Step(key: int, fault: FaultStatus, tick: Tick) returns (left: int)
      modifies this
      ensures (Snapshot(), left) == Fsm.StepFsm(cfg, old(Snapshot()), key, fault, tick)
    {
      hide Fsm.RunCurrent, Fsm.CheckTransition, Fsm.SwitchTo;
      var next;
      next, left := CheckTransition(key);
      if next != current {
        SwitchTo(next, fault, tick);
      }
      left := RunCurrent(left, tick);
    }

    /** A new ZERO state; if it is the present one it is entered. */
    method ReplaceState()
      modifies `zero
      ensures zero == Zero_.FRESH
    {
      zero := Zero_.FRESH;
    }

    /** A new RL state; if RL is present the inference thread of the new one starts. */
    method ReplaceStateDeferred(tick: Tick)
      modifies `rl
      ensures rl == if current == Rl then RlState(tick.rlEntry, false) else FRESH_RL
    {
      rl := FRESH_RL;
      if current == Rl {
        rl := RlState(tick.rlEntry, false);
      }
    }

    method RequestPolicySwitch(requested: bool)
      modifies `rl
      ensures Snapshot() == RequestSwitch(old(Snapshot()), requested)
    {
      if current == Rl {
        rl := rl.(switchRequested := requested);
      }
    }
  }
}
