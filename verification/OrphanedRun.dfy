/** A valid configuration with two concrete faults in RL: a refused chain orphans a running switch,
    so that a policy is handed over without the running policy's consent; and a chain started
    outside RL moves on to a policy of another group. */
module OrphanedRun {
  import opened Manager
  import opened ManagerInvariant
  import opened ManagerCatalog
  import opened HandoffByConfig
  import Fsm
  import RobotBase
  import RiskyRuns
  import SwitchGroups
  import Zero_ = ZeroPose

  /** Three policies of one group; the third needs a policy of another group first. */
  const CFG := Config(
    Fsm.FsmConfig(true, false, Zero_.ZeroConfig(1.0, 1.0, 1.0, 1.0, RobotBase.Rl), 1.0, 1.0, 1.0),
    false, false, "a", {"a", "b", "c"}, map["a" := "g", "b" := "g", "c" := "g", "d" := "h"],
    map[], map["c" := Prerequisite("d", 1.0)], map[], 30.0)

  /** While the first runs and the second is pending, the third is asked for. */
  lemma ConfigIsRisky()
    ensures ValidConfig(CFG) && Risky(CFG)
  {
    assert AskedFrom(CFG, "a", "b");
    assert RiskyPair(CFG, "c", "a");
  }

  /** So the live handoff is not safe for every valid configuration. */
  lemma UnsafeHandoff() returns (events: seq<Event>)
    ensures ValidConfig(CFG) && !SafeHandoffs(Run(CFG, events).log)
  {
    ConfigIsRisky();
    events := RiskyRuns.RiskIsUnsafe(CFG);
  }

  /** Nor does the active policy stay in its group. */
  lemma LeavesGroup() returns (events: seq<Event>, e: Event)
    ensures ValidConfig(CFG) && !StaysInGroup(CFG, Run(CFG, events), Apply(CFG, Run(CFG, events), e))
  {
    ConfigIsRisky();
    assert !SwitchGroups.PrerequisiteInGroup(CFG, "c");
    events, e := SwitchGroups.ChainLeavesGroup(CFG, "c");
  }
}
