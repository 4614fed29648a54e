/** What one command comes to: whether a policy request or a catalog request in it is taken up, and
    what is wanted afterwards, in terms of the state before and the command. */
module CommandOutcome {
  import opened RobotBase
  import opened Fsm
  import opened Manager
  import opened ManagerInvariant

  predicate OneGroup(cfg: Config, a: Name, b: Name) {
    a in cfg.groups && b in cfg.groups && cfg.groups[a] == cfg.groups[b] != ""
  }

  // ---------------------------------------------------------------- policy requests

  /** The command asks anew; repeating a command asks nothing. */
  predicate Asks(m: Manager, c: Command) {
    c.switchPolicy != "" && (c.switchPolicy != m.requests.policy || c.requestSequence != m.requests.sequence)
  }

  /** A policy may be asked for with no key pressed and nothing latched: freely in POWER_OFF and DAMP,
      and within the switch group in RL. */
  predicate MayAsk(cfg: Config, m: Manager, c: Command) {
    && cfg.fsm.hasRl && c.switchPolicy in cfg.selectable && c.key == 0 && !m.desk.fault.latched
    && (if m.fsm.mode == Rl then OneGroup(cfg, m.hand.active, c.switchPolicy) else m.fsm.mode in {PowerOff, Damp})
  }

  /** In RL the prerequisite of a target must be in the switch group as well. */
  predicate BadPrerequisite(cfg: Config, m: Manager, c: Command) {
    && m.fsm.mode == Rl && c.switchPolicy in cfg.prerequisites
    && !OneGroup(cfg, m.hand.active, cfg.prerequisites[c.switchPolicy].policy)
  }

  predicate Runs(m: Manager, policy: Name) { policy == m.hand.active && m.prep.runtimeReady }

  /** The catalog has nothing to hear. */
  predicate Silent(m: Manager, r: Interaction) {
    m.catalog.owner == "" || r.operation == NoOperation || r.sequence == 0 || r.sequence == m.catalog.previousSequence
  }

  /** The verdict of a policy request and what is wanted after it. A command that repeats the last
      request, or makes none, asks for nothing. */
  lemma RequestAnswered(cfg: Config, m: Manager, c: Command, now: real)
    requires Silent(m, c.interaction)
    ensures var n, h, policy := SetCommand(cfg, m, c, now), m.hand, c.switchPolicy;
            && n.fsm == m.fsm && n.desk == m.desk && n.requests.policy == policy && n.requests.sequence == c.requestSequence
            && (if !Asks(m, c) then
                  && n.hand == h && n.prep == m.prep && n.catalog == m.catalog && n.requests.status == m.requests.status
                  && n.command.key == c.key && n.command.velocity == c.velocity && (m.catalog.owner == "" ==> n.command == c)
                else
                  && n.requests.status ==
                     SwitchStatus(c.requestSequence,
                       if !MayAsk(cfg, m, c) then Refused else if Runs(m, policy) then Ready
                       else if BadPrerequisite(cfg, m, c) then Refused else Preparing, policy)
                  && n.prep == (if n.requests.status.phase == Preparing then m.prep.(failed := false) else m.prep)
                  && n.hand ==
                     if !MayAsk(cfg, m, c) then h
                     else if Runs(m, policy) then h.(pending := policy, hot := false, final := "", waiting := false, started := now)
                     else if BadPrerequisite(cfg, m, c) then h.(hot := false, started := now)
                     else if policy in cfg.prerequisites then
                       h.(pending := cfg.prerequisites[policy].policy, final := policy, waiting := true, timer := 0.0,
                          hot := m.fsm.mode == Rl, started := now)
                     else h.(pending := policy, final := "", waiting := false, timer := 0.0,
                              hot := m.fsm.mode == Rl, started := now))
  {
    hide Told, SwitchPolicy, HandlePolicyAction, FinishPolicyAction;
    var told := Told(cfg, m, c, now);
    ToldSilently(cfg, m, c, now);
    if Asks(m, c) {
      DecidedFor(cfg, m, told, c);
      Switched(cfg, told, c.switchPolicy, c.requestSequence, now);
    }
  }

  lemma ToldSilently(cfg: Config, m: Manager, c: Command, now: real)
    requires Silent(m, c.interaction)
    ensures var t := Told(cfg, m, c, now);
            && t == m.(command := t.command, requests := m.requests.(policy := c.switchPolicy, sequence := c.requestSequence))
            && t.command == (if m.catalog.owner == "" then c else c.(interaction := NO_INTERACTION))
  {}

  lemma DecidedFor(cfg: Config, m: Manager, told: Manager, c: Command)
    requires told == m.(command := told.command, requests := told.requests) && told.command.key == c.key
    ensures DecideSwitch(cfg, told, c.switchPolicy) ==
            if !MayAsk(cfg, m, c) then Inadmissible
            else if Runs(m, c.switchPolicy) then AlreadyActive
            else if BadPrerequisite(cfg, m, c) then Outside
            else if c.switchPolicy in cfg.prerequisites then Chain(cfg.prerequisites[c.switchPolicy].policy) else Direct
  {}

  lemma Switched(cfg: Config, m: Manager, policy: Name, sequence: nat, now: real)
    ensures var n, d := SwitchPolicy(cfg, m, policy, sequence, now), DecideSwitch(cfg, m, policy);
            && n.fsm == m.fsm && n.desk == m.desk && n.requests.policy == m.requests.policy
            && n.requests.sequence == m.requests.sequence
            && n.requests.status == SwitchStatus(sequence,
                 if d.Inadmissible? || d.Outside? then Refused else if d.AlreadyActive? then Ready else Preparing, policy)
            && n.prep == (if d.Chain? || d.Direct? then m.prep.(failed := false) else m.prep)
            && n.hand == HandAfterSwitch(m.hand, d, policy, m.fsm.mode == Rl, now)
  {
    hide DecideSwitch, HandAfterSwitch, FinishPolicyAction;
  }

  // ---------------------------------------------------------------- catalog requests

  predicate Allowed(m: Manager, c: Command) { m.fsm.mode == Rl && !m.desk.fault.latched && c.key == 0 }

  /** An action of the entry policy may start while that policy runs and nothing else is under way. */
  predicate Starts(cfg: Config, m: Manager, c: Command) {
    var r, k := c.interaction, m.catalog;
    && Allowed(m, c) && r.operation == Start && k.owner in cfg.actions && r.action in cfg.actions[k.owner]
    && k.target == "" && m.hand.pending == m.hand.active == k.owner
    && m.prep.runtimeReady && !m.prep.running && m.prep.prepared.None?
  }

  /** An action may be cancelled unless something outside the catalog is pending. */
  predicate Cancels(m: Manager, c: Command) {
    Allowed(m, c) && c.interaction.operation == Cancel && m.hand.pending in {m.hand.active, m.catalog.target, m.catalog.owner}
  }

  lemma Decided(cfg: Config, m: Manager, c: Command)
    requires ValidConfig(cfg) && !Silent(m, c.interaction)
    ensures DecideAction(cfg, m.(command := c), c.interaction) ==
            if Starts(cfg, m, c) then Begin(cfg.actions[m.catalog.owner][c.interaction.action])
            else if Cancels(m, c) then if m.hand.active == m.catalog.owner then CancelAtOwner else ReturnToOwner
            else Refuse
    ensures Starts(cfg, m, c) ==> cfg.actions[m.catalog.owner][c.interaction.action] != m.hand.active
  {}

  /** What a catalog request makes wanted, and what is shown for it. */
  lemma ActionAnswered(cfg: Config, m: Manager, c: Command, now: real)
    requires ValidConfig(cfg) && !Asks(m, c) && !Silent(m, c.interaction)
    ensures var n, h, k, r := SetCommand(cfg, m, c, now), m.hand, m.catalog, c.interaction;
            && n.catalog.previousSequence == r.sequence && n.catalog.owner == k.owner && n.catalog.status.sequence == r.sequence
            && n.fsm == m.fsm && n.desk == m.desk && n.requests.status == m.requests.status
            && n.command.interaction == NO_INTERACTION && n.command.key == c.key
            && (if Starts(cfg, m, c) then
                  && n.hand == h.(pending := cfg.actions[k.owner][r.action], started := now, final := "",
                       waiting := false, hot := true)
                  && n.catalog.target == cfg.actions[k.owner][r.action] && !n.catalog.returning
                  && n.catalog.status == InteractionStatus(r.sequence, true, BlendIn, 0.0, r.action)
                  && n.command.velocity == STANDSTILL && !n.prep.failed
                else if Cancels(m, c) then
                  && n.hand == h.(pending := k.owner, started := now, final := "", waiting := false, hot := h.active != k.owner)
                  && n.catalog.status.accepted && n.command.velocity == STANDSTILL && !n.prep.failed
                  && (if h.active == k.owner then n.catalog.target == "" && !n.catalog.returning
                       && n.catalog.status.phase in {Finished, Idle}
                      else n.catalog.target == k.target && n.catalog.returning && n.catalog.status.phase == BlendOut)
                else
                  && n.hand == h && n.prep == m.prep && n.catalog.target == k.target && n.catalog.returning == k.returning
                  && !n.catalog.status.accepted && n.command.velocity == c.velocity
                  && (if k.target != "" then n.catalog.status.phase == k.status.phase && n.catalog.status.action == k.status.action
                      else n.catalog.status.phase in {Rejected, Idle} && n.catalog.status.action == r.action))
  {
    Decided(cfg, m, c);
    hide DecideAction, ValidConfig;
  }
}
