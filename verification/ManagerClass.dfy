/** The supervisory controller of behavior_manager.cpp as an object with the source's fields.
    Each method is proved to do what the corresponding function on states does. */
module ManagerClass {
  import opened RobotBase
  import opened Fsm
  import M = Manager
  import Machine

  /** What the catalog decides, case by case. */
  lemma Decisions(cfg: M.Config, m: M.Manager, r: Interaction)
    ensures var d, c, h := M.DecideAction(cfg, m, r), m.catalog, m.hand;
            var heard := c.owner != "" && r.operation != NoOperation && r.sequence != 0 && r.sequence != c.previousSequence;
            var stops := r.operation == Cancel && M.ActionsAllowed(m) &&
                         (h.pending == h.active || h.pending == c.target || h.pending == c.owner);
            var begins := M.ActionsAllowed(m) && r.operation == Start && r.action in M.CatalogEntry(cfg, c.owner) &&
                          c.target == "" && h.active == c.owner && M.RequestedPolicyReady(m);
            && (c.owner == "" ==> d == M.Pass) && (c.owner != "" && !heard ==> d == M.Mute)
            && (heard && stops ==> d == if h.active == c.owner then M.CancelAtOwner else M.ReturnToOwner)
            && (heard && !stops && begins ==> d == M.Begin(M.CatalogEntry(cfg, c.owner)[r.action]))
            && (heard && !stops && !begins ==> d == M.Refuse)
  {}

  /** A retirement that has completed does not matter to the rest of the poll. */
  lemma FreedPoll(cfg: M.Config, m: M.Manager, tick: Tick)
    requires !(m.prep.retiring && !tick.retirementDone)
    ensures M.PollPolicyPreparation(cfg, m, tick) == M.PollPolicyPreparation(cfg, m.(prep := m.prep.(retiring := false)), tick)
  {
    var n := m.(prep := m.prep.(retiring := false));
    assert M.DecidePoll(n, tick) == M.DecidePoll(m, tick);
    hide M.DecidePoll, M.HandAfterPoll, M.CatalogAfterInstall, M.CatalogAfterFailure, ReplaceStates;
  }

  /** What the poll makes of a job that has failed. */
  lemma FailedPoll(cfg: M.Config, m: M.Manager, completed: Name, tick: Tick)
    requires !m.prep.retiring && m.prep.prepared.None? && m.prep.running && m.prep.job == Some(completed)
    requires tick.job == Broken
    ensures var h, p := m.hand, m.prep.(job := None, running := false);
            M.PollPolicyPreparation(cfg, m, tick) ==
            if completed != h.pending then m.(prep := p)
            else if completed == h.active then m.(prep := p.(failed := true), requests := M.Concluded(m.requests, M.Failed))
            else
              m.(prep := p.(failed := false), hand := M.Retained(h), requests := M.Concluded(m.requests, M.Failed),
                 catalog := M.CatalogAfterFailure(m.catalog, completed))
  {
    var d := M.DecidePoll(m, tick);
    assert d == M.DecideJob(m, completed, true);
    hide M.DecidePoll, M.CatalogAfterFailure, M.Concluded, M.Retained;
  }

  /** What the poll makes of a job that has succeeded. */
  lemma DonePoll(cfg: M.Config, m: M.Manager, completed: Name, tick: Tick)
    requires !m.prep.retiring && m.prep.prepared.None? && m.prep.running && m.prep.job == Some(completed)
    requires tick.job == Done
    ensures var h, p := m.hand, m.prep.(job := None, running := false);
            M.PollPolicyPreparation(cfg, m, tick) ==
            if h.hot && (m.desk.fault.latched || m.command.key != 0 || m.fsm.mode != Rl) then
              m.(prep := p.(retiring := true), hand := h.(pending := h.active, hot := false),
                 requests := M.Concluded(m.requests, M.Refused), log := m.log + [M.Retired(false)])
            else if completed == h.pending then m.(prep := p.(prepared := Some(completed)))
            else m.(prep := p.(retiring := true), log := m.log + [M.Retired(false)])
  {
    var d := M.DecidePoll(m, tick);
    assert d == M.DecideJob(m, completed, false);
    hide M.DecidePoll, M.Concluded;
  }

  /** What an attempt to launch a preparation leads to. */
  lemma LaunchResults(cfg: M.Config, m: M.Manager, tick: Tick)
    ensures var h, lost := m.hand, m.hand.pending != m.hand.active;
            var inState := m.fsm.mode == PowerOff || m.fsm.mode == Damp || (m.fsm.mode == Rl && lost);
            var tries := cfg.fsm.hasRl && inState && !M.RequestedPolicyReady(m) && !m.prep.running && !m.prep.failed;
            M.PreparePending(cfg, m, tick) ==
            if !tries || !(m.prep.prepared.None? && h.pending != "") then m
            else if !tick.launchFails then
              m.(prep := m.prep.(job := Some(h.pending), running := true, failed := false),
                 log := m.log + [M.Launched(h.pending, m.prep.job.Some?)])
            else
              m.(hand := if lost then M.Retained(h) else h, prep := m.prep.(failed := !lost),
                 catalog := if lost then M.CatalogAfterFailure(m.catalog, h.pending) else m.catalog,
                 requests := M.Concluded(m.requests, M.Failed))
  {
    hide M.CatalogAfterFailure, M.Retained, M.Concluded;
  }

  /** What a policy request leads to, in the order in which the conditions are checked. */
  lemma SwitchResults(cfg: M.Config, m: M.Manager, policy: Name, sequence: nat, now: real)
    ensures var h, hot := m.hand, m.fsm.mode == Rl && M.SameSwitchGroup(cfg, m.hand.active, policy);
            var chained := policy in cfg.prerequisites;
            var outside := chained && hot && !M.SameSwitchGroup(cfg, h.active, cfg.prerequisites[policy].policy);
            var d := if outside then M.Outside else if chained then M.Chain(cfg.prerequisites[policy].policy) else M.Direct;
            var asked := m.(requests := m.requests.(status := M.SwitchStatus(sequence, M.Preparing, policy)));
            var refused := m.(requests := m.requests.(status := M.SwitchStatus(sequence, M.Refused, policy)));
            M.SwitchPolicy(cfg, m, policy, sequence, now) ==
            if policy !in cfg.selectable || m.command.key != 0 || !cfg.fsm.hasRl || m.desk.fault.latched ||
               (m.fsm.mode != PowerOff && m.fsm.mode != Damp && !hot) then refused
            else if policy == h.active && m.prep.runtimeReady then
              m.(requests := m.requests.(status := M.SwitchStatus(sequence, M.Ready, policy)),
                 hand := M.Retained(h.(started := now)),
                 catalog := if h.active == m.catalog.owner then M.FinishPolicyAction(m.catalog, true) else m.catalog)
            else if outside then
              refused.(hand := M.HandAfterSwitch(h, d, policy, hot, now), log := m.log + [M.OutsideGroup(h.pending, h.active)])
            else asked.(hand := M.HandAfterSwitch(h, d, policy, hot, now), prep := m.prep.(failed := false))
  {
    hide M.FinishPolicyAction, M.Retained;
  }

  /** A running preparation has its job, and a catalog in use is configured. */
  ghost predicate Wired(cfg: M.Config, m: M.Manager) {
    (m.prep.running ==> m.prep.job.Some?) && (m.catalog.owner != "" ==> m.catalog.owner in cfg.actions)
  }

  lemma BeforeKeepsWired(cfg: M.Config, m: M.Manager, tick: Tick)
    requires Wired(cfg, m)
    ensures Wired(cfg, M.StepBefore(cfg, m, tick))
  {
    var raised := m.(fsm := RaiseIn(m.fsm, tick.rlBefore));
    var (desk, seen) := M.ObserveBefore(cfg, raised, tick);
    var asked := M.RequestHandoff(M.CancelRunningSwitch(cfg, M.ResolveIn(raised, desk, seen), tick.now));
    assert Wired(cfg, asked);
    PollKeepsWired(cfg, asked, tick);
  }

  lemma PollKeepsWired(cfg: M.Config, m: M.Manager, tick: Tick)
    requires Wired(cfg, m)
    ensures Wired(cfg, M.PollPolicyPreparation(cfg, m, tick))
  {
    hide M.DecidePoll, M.LogAfterPoll, ReplaceStates;
  }

  lemma PrepareKeepsWired(cfg: M.Config, m: M.Manager, tick: Tick)
    requires Wired(cfg, m)
    ensures Wired(cfg, M.StepPrepare(cfg, m, tick))
  {
    var confined := M.ConfineFault(cfg, m, tick);
    assert confined.prep == m.prep && confined.catalog == m.catalog;
    assert Wired(cfg, M.PreparePending(cfg, confined, tick));
  }

  lemma AfterKeepsWired(cfg: M.Config, m: M.Manager, before: seq<FaultStatus>, tick: Tick)
    requires Wired(cfg, m)
    ensures Wired(cfg, M.StepAfter(cfg, m, before, tick))
  {
    var ran := M.RunStates(cfg, M.PrepareAtStartup(cfg, m, tick), m.command.key, tick);
    assert ran.prep == m.prep && ran.catalog == m.catalog;
    var latched := M.LatchStateFault(cfg, ran, before, tick);
    assert latched.prep == m.prep && latched.catalog == m.catalog;
    BookKeepsWired(cfg, latched, tick);
  }

  lemma StagesKeepWired(cfg: M.Config, m: M.Manager, tick: Tick)
    requires Wired(cfg, m)
    ensures Wired(cfg, M.LeaveRl(m)) && Wired(cfg, M.AdvanceChain(cfg, m, tick))
    ensures Wired(cfg, M.ReturnFinished(cfg, m, tick)) && Wired(cfg, M.CancelChain(m))
  {
    hide M.DecideReturn, M.ChainRuns;
  }

  lemma BookKeepsWired(cfg: M.Config, m: M.Manager, tick: Tick)
    requires Wired(cfg, m)
    ensures Wired(cfg, M.Book(cfg, m, tick))
  {
    hide M.LeaveRl, M.AdvanceChain, M.ReturnFinished, M.CancelChain;
    StagesKeepWired(cfg, m, tick);
    var counted := M.CountResidence(M.LeaveRl(m), tick.dt);
    StagesKeepWired(cfg, counted, tick);
    var advanced := M.AdvanceChain(cfg, counted, tick);
    StagesKeepWired(cfg, advanced, tick);
    StagesKeepWired(cfg, M.ReturnFinished(cfg, advanced, tick), tick);
  }

  lemma StepKeepsWired(cfg: M.Config, m: M.Manager, tick: Tick)
    requires Wired(cfg, m)
    ensures Wired(cfg, M.Step(cfg, m, tick))
  {
    var seen := M.ObserveBefore(cfg, m.(fsm := RaiseIn(m.fsm, tick.rlBefore)), tick).1;
    hide M.StepBefore, M.StepPrepare, M.StepAfter, Wired;
    BeforeKeepsWired(cfg, m, tick);
    PrepareKeepsWired(cfg, M.StepBefore(cfg, m, tick), tick);
    AfterKeepsWired(cfg, M.StepPrepare(cfg, M.StepBefore(cfg, m, tick), tick), seen, tick);
  }

  lemma ActionKeepsWired(cfg: M.Config, m: M.Manager, r: Interaction, now: real)
    requires Wired(cfg, m)
    ensures Wired(cfg, M.HandlePolicyAction(cfg, m, r, now))
  {
    hide M.DecideAction, M.HandedTo;
  }

  lemma CommandKeepsWired(cfg: M.Config, m: M.Manager, c: M.Command, now: real)
    requires Wired(cfg, m)
    ensures Wired(cfg, M.SetCommand(cfg, m, c, now))
  {
    hide M.HandlePolicyAction, M.DecideSwitch, M.HandAfterSwitch;
    ActionKeepsWired(cfg, m.(command := c), c.interaction, now);
  }

  /** What the poll makes of a prepared policy. */
  lemma PreparedPoll(cfg: M.Config, m: M.Manager, tick: Tick)
    requires !m.prep.retiring && m.prep.prepared.Some?
    ensures var policy, h := m.prep.prepared.value, m.hand;
            var note := M.Installed(policy, h.pending, m.fsm.mode, ReadyForPolicySwitch(m.fsm, tick), m.desk.fault.latched);
            M.PollPolicyPreparation(cfg, m, tick) ==
            if policy != h.pending then
              m.(prep := m.prep.(prepared := None, retiring := true), log := m.log + [M.Retired(false)])
            else if h.hot && m.fsm.mode == Rl && !m.desk.fault.latched && !ReadyForPolicySwitch(m.fsm, tick) then m
            else
              m.(fsm := ReplaceStates(m.fsm, tick), hand := M.HandAfterPoll(h, M.Install(policy)),
                 command := if M.ActionArrives(m.catalog, policy) then m.command.(key := 5) else m.command,
                 prep := m.prep.(prepared := None, retiring := true, runtimeReady := true, failed := false),
                 catalog := M.CatalogAfterInstall(cfg, m.catalog, policy), residence := 0.0,
                 log := m.log + [note] + [M.Retired(false)])
  {
    hide M.CatalogAfterInstall, M.ActionArrives, ReplaceStates;
  }

  class BehaviorManager {
    const cfg: M.Config
    const fsm: Machine.FSM

    var command: M.Command
    var sensorFault: FaultStatus
    var sensorReceived: bool
    var startupPending: bool
    var desk: M.FaultDesk
    var observations: seq<FaultStatus>
    var hand: M.Handoff
    var prep: M.Preparation
    var catalog: M.Catalog
    var requests: M.Requests
    var prevState: Mode
    ghost var residence: real
    ghost var log: seq<M.Note>

    constructor (cfg: M.Config)
      ensures this.cfg == cfg && fresh(fsm) && Valid() && Snapshot() == M.Initial(cfg)
    {
      this.cfg := cfg;
      fsm := new Machine.FSM(cfg.fsm);
      command, sensorFault, sensorReceived, startupPending := M.NO_COMMAND, NO_FAULT, false, cfg.startupPrepare;
      desk, observations := M.FaultDesk(NO_FAULT, 0, 0, M.NO_ACK, 0), [];
      hand := M.Handoff(cfg.initialPolicy, cfg.initialPolicy, false, 0.0, false, "", false, 0.0);
      prep := M.Preparation(None, false, None, false, false, cfg.fsm.hasRl);
      catalog := M.Catalog(M.OwnerOf(cfg, cfg.initialPolicy), "", false, 0, NO_STATUS);
      requests := M.Requests("", 0, M.SwitchStatus(0, M.NoSwitch, ""));
      prevState, residence, log := PowerOff, 0.0, [];
    }

    /** The state as a value. */
    ghost function Snapshot(): M.Manager
      reads this, fsm
    {
      M.Manager(fsm.Snapshot(), command, sensorFault, sensorReceived, startupPending, desk, hand, prep,
                catalog, requests, prevState, residence, log)
    }

    ghost predicate Valid()
      reads this, fsm
    {
      fsm.cfg == cfg.fsm && Wired(cfg, Snapshot())
    }

    predicate RequestedPolicyReady()
      reads this
    {
      prep.runtimeReady && hand.pending == hand.active && !prep.running && prep.prepared.None?
    }

    predicate InActiveGroup(target: Name)
      reads this
      ensures InActiveGroup(target) == M.SameSwitchGroup(cfg, hand.active, target)
    {
      hand.active in cfg.groups && target in cfg.groups && cfg.groups[hand.active] != "" &&
      cfg.groups[hand.active] == cfg.groups[target]
    }

    // ---------------------------------------------------------------- faults

    method ObserveFault(f: FaultStatus)
      modifies `observations
      ensures observations == if f.active || f.latched then old(observations) + [f] else old(observations)
    {
      if f.active || f.latched {
        observations := observations + [f];
      }
    }

    /** The driver's report; a fault that is active again is no longer acknowledged. */
    method ObserveSensorFault()
      modifies `observations, `desk
      ensures var (d, seen) := M.ReportedSensorFault(old(desk), sensorFault);
              desk == d && observations == old(observations) + seen
    {
      if sensorFault.active {
        if M.IsAcknowledged(desk, sensorFault) {
          desk := desk.(acknowledged := M.NO_ACK);
        }
        ObserveFault(sensorFault);
      } else if sensorFault.latched && !M.IsAcknowledged(desk, sensorFault) {
        ObserveFault(sensorFault);
      }
    }

    method ObserveMonitor(tick: Tick)
      modifies `observations
      ensures observations == old(observations) + M.MonitorFault(cfg, fsm.current, tick)
    {
      if !tick.stateValid {
        ObserveFault(FaultStatus(true, true, SafetyMonitor, InvalidData, 1, 0));
      } else if fsm.current != PowerOff && !cfg.fixedBase {
        if tick.tilted {
          ObserveFault(FaultStatus(true, true, SafetyMonitor, LimitExceeded, 2, 0));
        } else if tick.spinning {
          ObserveFault(FaultStatus(true, true, SafetyMonitor, LimitExceeded, 3, 0));
        }
      }
    }

    method LatchFault(f: FaultStatus)
      modifies `desk, `log
      ensures desk == M.LatchFault(old(desk), f) && log == old(log) + [M.Latched(desk.sequence)]
    {
      desk := desk.(observed := f.sequence, sequence := desk.sequence + 1);
      desk := desk.(fault := f.(latched := true, sequence := desk.sequence));
      log := log + [M.Latched(desk.sequence)];
    }

    /** The first observation with a property, by its index. */
    static method First(seen: seq<FaultStatus>, p: FaultStatus -> bool) returns (i: nat)
      ensures i <= |seen|
      ensures M.Find(seen, p) == if i < |seen| then Some(seen[i]) else None
    {
      i := 0;
      while i < |seen| && !p(seen[i])
        invariant i <= |seen| && forall k | 0 <= k < i :: !p(seen[k])
      {
        i := i + 1;
      }
      FindIsFirst(seen, p, i);
    }

    static lemma FindIsFirst(seen: seq<FaultStatus>, p: FaultStatus -> bool, i: nat)
      requires i <= |seen| && (i < |seen| ==> p(seen[i])) && forall k | 0 <= k < i :: !p(seen[k])
      ensures M.Find(seen, p) == if i < |seen| then Some(seen[i]) else None
    {
      if i > 0 {
        FindIsFirst(seen[1..], p, i - 1);
      }
    }

    method ResolveObservedFaults()
      modifies `desk, `log
      ensures desk == M.Resolve(old(desk), observations)
      ensures log == M.LogAfterResolve(old(log), old(desk), desk)
    {
      var d := desk;
      hide M.Find, M.MatchesCurrent;
      var root := First(observations, (f: FaultStatus) => f.active && M.MatchesCurrent(d, f));
      if desk.fault.latched && desk.fault.active && root < |observations| {
        return;
      }
      var active := First(observations, (f: FaultStatus) => f.active);
      if active < |observations| {
        LatchFault(observations[active]);
        return;
      }
      if desk.fault.latched {
        desk := desk.(fault := desk.fault.(active := false));
        return;
      }
      var latched := First(observations, (f: FaultStatus) => f.latched);
      if latched < |observations| {
        LatchFault(observations[latched]);
      }
    }

    method AcknowledgeFault(sequence: nat)
      requires Valid()
      modifies `desk
      ensures Valid() && Snapshot() == M.AcknowledgeFault(old(Snapshot()), sequence)
    {
      if sequence == 0 {
        desk := desk.(previousAck := 0);
        return;
      }
      var can := desk.fault.latched && fsm.current == PowerOff && !desk.fault.active && !sensorFault.active;
      if !can || sequence == desk.previousAck {
        return;
      }
      var fault, s := desk.fault, sensorFault;
      desk := desk.(previousAck := sequence);
      if sequence != fault.sequence {
        return;
      }
      if s.latched && !s.active && s.source == fault.source && s.code == fault.code && s.native == fault.native &&
         s.sequence == desk.observed {
        desk := desk.(acknowledged := M.SensorAck(s.sequence, s.source, s.code, s.native));
      }
      desk := desk.(fault := NO_FAULT, observed := 0);
    }

    // ---------------------------------------------------------------- catalog actions

    method FinishPolicyAction(accepted: bool)
      modifies `catalog
      ensures catalog == M.FinishPolicyAction(old(catalog), accepted)
    {
      var status := catalog.status.(accepted := accepted, phase := if accepted then Finished else Rejected,
                                    progress := if accepted then 1.0 else 0.0);
      if status.action == "" {
        status := status.(phase := Idle, progress := 0.0);
      }
      catalog := catalog.(status := status, target := "", returning := false);
    }

    method StartActionHandoff(target: Name, now: real)
      modifies `hand, `prep, `command
      ensures hand == M.HandedTo(old(hand), target, fsm.current == Rl, now)
      ensures prep == old(prep).(failed := false) && command == M.Halted(old(command))
    {
      hand := hand.(pending := target, hot := fsm.current == Rl && target != hand.active, started := now,
                    waiting := false, final := "");
      prep := prep.(failed := false);
      command := command.(velocity := STANDSTILL);
    }

    method HandlePolicyAction(request: Interaction, now: real)
      requires catalog.owner != "" ==> catalog.owner in cfg.actions
      modifies `catalog, `hand, `prep, `command
      ensures Snapshot() == M.HandlePolicyAction(cfg, old(Snapshot()), request, now)
    {
      ghost var before := Snapshot();
      Decisions(cfg, before, request);
      ActionKept(before.catalog, request);
      if catalog.owner == "" {
        return;
      }
      command := command.(interaction := NO_INTERACTION);
      if request.operation == NoOperation || request.sequence == 0 || request.sequence == catalog.previousSequence {
        return;
      }
      hide M.HandlePolicyAction, M.DecideAction;
      catalog := catalog.(previousSequence := request.sequence);
      AnswerRequest(request, now, before);
    }

    method AnswerRequest(request: Interaction, now: real, ghost before: M.Manager)
      requires catalog.owner != "" && catalog.owner in cfg.actions
      requires request.operation != NoOperation && request.sequence != 0 && request.sequence != before.catalog.previousSequence
      requires Snapshot() == before.(command := before.command.(interaction := NO_INTERACTION),
                                     catalog := before.catalog.(previousSequence := request.sequence))
      modifies `catalog, `hand, `prep, `command
      ensures Snapshot() == M.HandlePolicyAction(cfg, before, request, now)
    {
      Decisions(cfg, before, request);
      hide M.DecideAction, M.CatalogAfterAction, M.FinishPolicyAction, M.HandedTo, M.Halted;
      var canRun := fsm.current == Rl && !desk.fault.latched && command.key == 0;
      var actions := cfg.actions[catalog.owner];
      if request.operation == Cancel && canRun &&
         (hand.pending == hand.active || hand.pending == catalog.target || hand.pending == catalog.owner) {
        CancelAction(request, now, before.catalog);
      } else if !canRun || request.operation != Start || request.action !in actions || catalog.target != "" ||
                hand.active != catalog.owner || hand.pending != hand.active || !RequestedPolicyReady() {
        RefuseAction(request, before.catalog);
      } else {
        BeginAction(request, actions[request.action], now, before.catalog);
      }
    }

    static lemma ActionKept(c: M.Catalog, r: Interaction)
      ensures M.CatalogAfterAction(c, r, M.Pass) == M.CatalogAfterAction(c, r, M.Mute) == c
    {}

    method CancelAction(request: Interaction, now: real, ghost before: M.Catalog)
      requires catalog == before.(previousSequence := request.sequence)
      modifies `catalog, `hand, `prep, `command
      ensures catalog == M.CatalogAfterAction(before, request,
                if old(hand.active) == before.owner then M.CancelAtOwner else M.ReturnToOwner)
      ensures hand == M.HandedTo(old(hand), before.owner, fsm.current == Rl, now)
      ensures prep == old(prep).(failed := false) && command == M.Halted(old(command))
    {
      catalog := catalog.(status := catalog.status.(sequence := request.sequence, accepted := true));
      if hand.active == catalog.owner {
        StartActionHandoff(catalog.owner, now);
        FinishPolicyAction(true);
      } else {
        catalog := catalog.(returning := true, status := catalog.status.(phase := BlendOut));
        StartActionHandoff(catalog.owner, now);
      }
    }

    /** A refused second request does not hide a running action. */
    method RefuseAction(request: Interaction, ghost before: M.Catalog)
      requires catalog == before.(previousSequence := request.sequence)
      modifies `catalog
      ensures catalog == M.CatalogAfterAction(before, request, M.Refuse)
    {
      catalog := catalog.(status := catalog.status.(sequence := request.sequence, accepted := false));
      if catalog.target == "" {
        catalog := catalog.(status := catalog.status.(action := request.action, progress := 0.0,
                                                      phase := if request.action == "" then Idle else Rejected));
      }
    }

    method BeginAction(request: Interaction, target: Name, now: real, ghost before: M.Catalog)
      requires catalog == before.(previousSequence := request.sequence)
      modifies `catalog, `hand, `prep, `command
      ensures catalog == M.CatalogAfterAction(before, request, M.Begin(target))
      ensures hand == M.HandedTo(old(hand), target, fsm.current == Rl, now)
      ensures prep == old(prep).(failed := false) && command == M.Halted(old(command))
    {
      catalog := catalog.(status := InteractionStatus(request.sequence, true, BlendIn, 0.0, request.action),
                          target := target, returning := false);
      StartActionHandoff(target, now);
    }

    // ---------------------------------------------------------------- background preparation

    /** Assigning the future waits for a retirement that has not completed. */
    method RetirePolicy(tick: Tick)
      modifies `prep, `log
      ensures prep == old(prep).(retiring := true)
      ensures log == old(log) + [M.Retired(old(prep.retiring) && !tick.retirementDone)]
    {
      log := log + [M.Retired(prep.retiring && !tick.retirementDone)];
      prep := prep.(retiring := true);
    }

    /** The catalog learns which policy has taken over. */
    method ArriveAt(policy: Name)
      modifies `catalog, `command
      ensures catalog == M.CatalogAfterInstall(cfg, old(catalog), policy)
      ensures command == if M.ActionArrives(old(catalog), policy) then old(command).(key := 5) else old(command)
    {
      if policy == catalog.owner {
        if catalog.target != "" || catalog.returning {
          FinishPolicyAction(true);
        }
      } else if catalog.target != "" && policy == catalog.target && !catalog.returning {
        catalog := catalog.(status := catalog.status.(phase := Playing));
        command := command.(key := 5);
      } else {
        catalog := catalog.(owner := if policy in cfg.actions then policy else "", target := "", returning := false,
                            status := NO_STATUS);
      }
    }

    method ReplacePolicyStates(tick: Tick)
      modifies fsm
      ensures fsm.Snapshot() == ReplaceStates(old(fsm.Snapshot()), tick)
    {
      fsm.ReplaceState();
      fsm.ReplaceStateDeferred(tick);
    }

    /** The note is written first: it holds what the running policy has agreed to. */
    method InstallPreparedPolicy(policy: Name, tick: Tick)
      modifies `log, `hand, `prep, `catalog, `command, `residence, fsm
      ensures fsm.Snapshot() == ReplaceStates(old(fsm.Snapshot()), tick)
      ensures hand == M.HandAfterPoll(old(hand), M.Install(policy)) && residence == 0.0
      ensures prep == old(prep).(prepared := None, retiring := true, runtimeReady := true, failed := false)
      ensures catalog == M.CatalogAfterInstall(cfg, old(catalog), policy)
      ensures command == if M.ActionArrives(old(catalog), policy) then old(command).(key := 5) else old(command)
      ensures log == old(log) +
                [M.Installed(policy, old(hand.pending), old(fsm.current), old(fsm.Ready(tick)), desk.fault.latched)] +
                [M.Retired(old(prep.retiring) && !tick.retirementDone)]
    {
      hide M.CatalogAfterInstall, M.ActionArrives, ReplaceStates;
      log := log + [M.Installed(policy, hand.pending, fsm.current, fsm.Ready(tick), desk.fault.latched)];
      ReplacePolicyStates(tick);
      RetirePolicy(tick);
      ArriveAt(policy);
      hand := hand.(active := policy, returnAttempted := false, hot := hand.hot && hand.waiting, timer := 0.0);
      prep := prep.(prepared := None, runtimeReady := true, failed := false);
      residence := 0.0;
    }

    method Conclude(phase: M.SwitchPhase)
      modifies `requests
      ensures requests == M.Concluded(old(requests), phase)
    {
      if requests.status.phase == M.Preparing {
        requests := requests.(status := requests.status.(phase := phase));
      }
    }

    method FailAction(policy: Name)
      modifies `catalog
      ensures catalog == M.CatalogAfterFailure(old(catalog), policy)
    {
      if policy == catalog.target || policy == catalog.owner {
        FinishPolicyAction(false);
      }
    }

    /** Give up on the pending policy and stay with the active one. */
    method RetainActive()
      modifies `hand
      ensures hand == M.Retained(old(hand))
    {
      hand := hand.(pending := hand.active, hot := false, final := "", waiting := false);
    }

    method PollPolicyPreparation(tick: Tick)
      requires prep.running ==> prep.job.Some?
      modifies `log, `hand, `prep, `catalog, `command, `requests, `residence, fsm
      ensures Snapshot() == M.PollPolicyPreparation(cfg, old(Snapshot()), tick)
    {
      ghost var before := Snapshot();
      if prep.retiring && !tick.retirementDone {
        assert M.DecidePoll(before, tick) == M.Wait;
        return;
      }
      FreedPoll(cfg, before, tick);
      hide M.PollPolicyPreparation;
      prep := prep.(retiring := false);
      if prep.prepared.Some? {
        PollPrepared(tick);
      } else if prep.running && tick.job != Pending {
        CollectJob(tick);
      } else {
        NothingToPoll(cfg, Snapshot(), tick);
      }
    }

    static lemma NothingToPoll(cfg: M.Config, m: M.Manager, tick: Tick)
      requires !m.prep.retiring && m.prep.prepared.None? && (!m.prep.running || tick.job == Pending)
      ensures M.PollPolicyPreparation(cfg, m, tick) == m
    {
      assert M.DecidePoll(m, tick) == M.Nothing;
    }

    method DropPrepared(tick: Tick)
      requires !prep.retiring
      modifies `prep, `log
      ensures prep == old(prep).(prepared := None, retiring := true) && log == old(log) + [M.Retired(false)]
    {
      RetirePolicy(tick);
      prep := prep.(prepared := None);
    }

    /** A prepared policy is dropped, kept waiting or installed. */
    method PollPrepared(tick: Tick)
      requires prep.prepared.Some? && !prep.retiring
      modifies `log, `hand, `prep, `catalog, `command, `residence, fsm
      ensures Snapshot() == M.PollPolicyPreparation(cfg, old(Snapshot()), tick)
    {
      PreparedPoll(cfg, Snapshot(), tick);
      hide M.PollPolicyPreparation, M.HandAfterPoll, M.CatalogAfterInstall, M.ActionArrives, ReplaceStates;
      var policy := prep.prepared.value;
      if policy != hand.pending {
        DropPrepared(tick);
      } else if !(hand.hot && fsm.current == Rl && !desk.fault.latched && !fsm.Ready(tick)) {
        InstallPreparedPolicy(policy, tick);
      }
    }

    /** The future is ready: collect the job's result. */
    method CollectJob(tick: Tick)
      requires prep.job.Some? && prep.running && prep.prepared.None? && !prep.retiring && tick.job != Pending
      modifies `log, `hand, `prep, `catalog, `requests
      ensures Snapshot() == M.PollPolicyPreparation(cfg, old(Snapshot()), tick)
    {
      var completed := prep.job.value;
      if tick.job == Broken {
        JobFailed(completed, tick);
      } else {
        JobDone(completed, tick);
      }
    }

    method JobFailed(completed: Name, tick: Tick)
      requires prep.job == Some(completed) && prep.running && prep.prepared.None? && !prep.retiring && tick.job == Broken
      modifies `hand, `prep, `catalog, `requests
      ensures Snapshot() == M.PollPolicyPreparation(cfg, old(Snapshot()), tick)
    {
      FailedPoll(cfg, Snapshot(), completed, tick);
      hide M.PollPolicyPreparation, M.CatalogAfterFailure, M.Concluded, M.Retained;
      prep := prep.(running := false, job := None);
      if completed != hand.pending {
        return;
      }
      Conclude(M.Failed);
      if completed != hand.active {
        FailAction(completed);
        RetainActive();
        prep := prep.(failed := false);
      } else {
        prep := prep.(failed := true);
      }
    }

    method JobDone(completed: Name, tick: Tick)
      requires prep.job == Some(completed) && prep.running && prep.prepared.None? && !prep.retiring && tick.job == Done
      modifies `log, `hand, `prep, `requests
      ensures Snapshot() == M.PollPolicyPreparation(cfg, old(Snapshot()), tick)
    {
      DonePoll(cfg, Snapshot(), completed, tick);
      hide M.PollPolicyPreparation, M.Concluded;
      prep := prep.(running := false, job := None);
      if hand.hot && (desk.fault.latched || command.key != 0 || fsm.current != Rl) {
        hand := hand.(pending := hand.active, hot := false);
        Conclude(M.Refused);
        RetirePolicy(tick);
      } else if completed != hand.pending {
        RetirePolicy(tick);
      } else {
        prep := prep.(prepared := Some(completed));
      }
    }

    // ---------------------------------------------------------------- stages of Step

    /** A running switch is given up on a fault, on a stop key or when it takes too long. */
    method CancelRunningSwitch(now: real)
      modifies `hand, `catalog, `requests
      ensures Snapshot() == M.CancelRunningSwitch(cfg, old(Snapshot()), now)
    {
      hide M.CatalogAfterFailure, M.Retained, M.Concluded;
      if hand.hot && fsm.current == Rl &&
         (desk.fault.latched || command.key == -1 || command.key == 1 || now - hand.started > cfg.switchTimeout) {
        FailAction(hand.pending);
        RetainActive();
        Conclude(M.Refused);
      }
    }

    method RequestHandoff()
      modifies `command, fsm
      ensures Snapshot() == M.RequestHandoff(old(Snapshot()))
    {
      fsm.RequestPolicySwitch(hand.hot && prep.prepared.Some? && hand.pending != hand.active);
      if hand.hot {
        command := command.(velocity := STANDSTILL);
      }
    }

    /** A latched fault keeps the machine in SAFETY or POWER_OFF and blocks powering on. */
    method ConfineFault(tick: Tick)
      requires fsm.cfg == cfg.fsm
      modifies `command, fsm
      ensures Snapshot() == M.ConfineFault(cfg, old(Snapshot()), tick)
    {
      if desk.fault.latched && fsm.current != PowerOff && fsm.current != Safety {
        fsm.ForceSwitch(Safety, desk.fault, tick);
      }
      if desk.fault.latched && fsm.current == PowerOff && command.key != 0 && command.key != -1 {
        command := command.(key := 0);
      }
    }

    /** Launch a job unless one is running or its result is waiting; a launch can fail. */
    method StartPolicyPreparation(policy: Name, tick: Tick) returns (failed: bool)
      modifies `prep, `log
      ensures var launches := !old(prep.running) && old(prep.prepared).None? && policy != "";
              && failed == (launches && tick.launchFails)
              && prep == (if launches && !failed then old(prep).(job := Some(policy), running := true, failed := false)
                          else if failed then old(prep).(failed := false) else old(prep))
              && log == (if launches && !failed then old(log) + [M.Launched(policy, old(prep.job).Some?)] else old(log))
    {
      failed := false;
      if prep.running || prep.prepared.Some? || policy == "" {
        return;
      }
      prep := prep.(failed := false);
      if tick.launchFails {
        return true;
      }
      log := log + [M.Launched(policy, prep.job.Some?)];
      prep := prep.(job := Some(policy), running := true);
    }

    method PreparePending(tick: Tick)
      modifies `log, `hand, `prep, `catalog, `requests
      ensures Snapshot() == M.PreparePending(cfg, old(Snapshot()), tick)
    {
      LaunchResults(cfg, Snapshot(), tick);
      hide M.PreparePending, M.CatalogAfterFailure, M.Retained, M.Concluded;
      var inState :=
        fsm.current == PowerOff || fsm.current == Damp || (fsm.current == Rl && hand.pending != hand.active);
      if cfg.fsm.hasRl && inState && !RequestedPolicyReady() && !prep.running && !prep.failed {
        var failed := StartPolicyPreparation(hand.pending, tick);
        if failed {
          LaunchFailed();
        }
      }
    }

    method LaunchFailed()
      modifies `hand, `prep, `catalog, `requests
      ensures var lost := old(hand.pending) != old(hand.active);
              && hand == (if lost then M.Retained(old(hand)) else old(hand))
              && prep == old(prep).(failed := !lost)
              && catalog == (if lost then M.CatalogAfterFailure(old(catalog), old(hand.pending)) else old(catalog))
              && requests == M.Concluded(old(requests), M.Failed)
    {
      hide M.CatalogAfterFailure, M.Concluded;
      prep := prep.(failed := true);
      Conclude(M.Failed);
      if hand.pending != hand.active {
        FailAction(hand.pending);
        RetainActive();
        prep := prep.(failed := false);
      }
    }

    /** Report readiness, and let DAMP go to HOME only with the requested policy ready. */
    method GateHome()
      modifies `requests, `command
      ensures Snapshot() == M.GateHome(cfg, old(Snapshot()))
    {
      hide M.Concluded;
      if RequestedPolicyReady() && (!hand.waiting || fsm.current != Rl) {
        Conclude(M.Ready);
      }
      if cfg.fsm.hasRl && fsm.current == Damp && command.key == 4 && !RequestedPolicyReady() {
        command := command.(key := 0);
      }
    }

    /** The optional start-up of a fixed-base robot presses the keys itself. */
    method PrepareAtStartup(tick: Tick)
      requires fsm.cfg == cfg.fsm
      modifies `startupPending, `command, fsm
      ensures Snapshot() == M.PrepareAtStartup(cfg, old(Snapshot()), tick)
    {
      if !startupPending {
        return;
      }
      if desk.fault.latched || command.key != 0 {
        startupPending := false;
      } else if sensorReceived {
        if fsm.current == PowerOff {
          fsm.ForceSwitch(Home, desk.fault, tick);
        } else if fsm.current == Home {
          command := command.(key := 2);
        } else if fsm.current == Zero {
          command := command.(key := 3);
        } else if fsm.current == Trajectory {
          startupPending := false;
        }
      }
    }

    method RunStates(requestedKey: int, tick: Tick)
      requires fsm.cfg == cfg.fsm
      modifies `command, fsm
      ensures Snapshot() == M.RunStates(cfg, old(Snapshot()), requestedKey, tick)
    {
      hide StepFsm, RaiseIn;
      fsm.Report(tick.rlMid);
      var left := fsm.Step(command.key, desk.fault, tick);
      command := command.(key := if requestedKey == 0 then 0 else left);
    }

    /** A fault that the present state reports after its run. */
    method LatchStateFault(tick: Tick)
      requires fsm.cfg == cfg.fsm
      modifies `observations, `desk, `log, fsm
      ensures Snapshot() == M.LatchStateFault(cfg, old(Snapshot()), old(observations), tick)
    {
      hide M.Resolve, SwitchTo;
      var reported := fsm.Fault();
      if reported.active || reported.latched {
        ObserveFault(reported);
        ResolveObservedFaults();
        if fsm.current != PowerOff && fsm.current != Safety {
          fsm.ForceSwitch(Safety, desk.fault, tick);
        }
      }
    }

    // ---------------------------------------------------------------- books

    /** A used policy instance must be prepared again before RL. */
    method LeaveRl()
      modifies `prep, `hand, `catalog
      ensures Snapshot() == M.LeaveRl(old(Snapshot()))
    {
      hide M.FinishPolicyAction;
      if prevState == Rl && fsm.current != Rl {
        prep := prep.(runtimeReady := false, failed := false);
        if catalog.owner != "" {
          hand := hand.(pending := catalog.owner, hot := false);
          FinishPolicyAction(true);
        }
      }
    }

    method CountResidence(dt: real)
      modifies `residence
      ensures Snapshot() == M.CountResidence(old(Snapshot()), dt)
    {
      residence := if fsm.current == Rl then residence + dt else 0.0;
    }

    /** The prerequisite chain moves on once the prerequisite policy has run for its time. */
    method AdvanceChain(tick: Tick)
      modifies `hand, `log
      ensures Snapshot() == M.AdvanceChain(cfg, old(Snapshot()), tick)
    {
      if hand.waiting && fsm.current == Rl && RequestedPolicyReady() && hand.final in cfg.prerequisites {
        var entry := cfg.prerequisites[hand.final];
        if hand.active == entry.policy {
          hand := hand.(timer := hand.timer + tick.dt);
        }
        if hand.timer >= entry.duration {
          log := log + [M.Advanced(hand.final, hand.active, residence)];
          hand := hand.(pending := hand.final, final := "", waiting := false, hot := true, started := tick.now);
        }
      }
    }

    /** A policy that has finished goes back to the catalog's entry or to its return policy. */
    method ReturnFinished(tick: Tick)
      modifies `hand, `prep, `catalog, `command
      ensures Snapshot() == M.ReturnFinished(cfg, old(Snapshot()), tick)
    {
      hide M.HandedTo, M.Halted;
      if fsm.current == Rl && !hand.waiting && RequestedPolicyReady() && !hand.hot && !hand.returnAttempted &&
         tick.policyFinished {
        if catalog.owner != "" && hand.active != catalog.owner {
          hand := hand.(returnAttempted := true);
          catalog := catalog.(returning := true, status := catalog.status.(phase := BlendOut));
          StartActionHandoff(catalog.owner, tick.now);
        } else if hand.active in cfg.returnPolicies && cfg.returnPolicies[hand.active] != "" {
          hand := hand.(returnAttempted := true, pending := cfg.returnPolicies[hand.active], hot := true,
                        started := tick.now);
        }
      }
    }

    method CancelChain()
      modifies `hand
      ensures Snapshot() == M.CancelChain(old(Snapshot()))
    {
      if hand.waiting && prevState == Rl && fsm.current == PowerOff {
        hand := hand.(final := "", waiting := false, timer := 0.0);
      }
    }

    method Book(tick: Tick)
      modifies `prep, `hand, `catalog, `command, `residence, `log, `prevState
      ensures Snapshot() == M.Book(cfg, old(Snapshot()), tick)
    {
      hide M.LeaveRl, M.AdvanceChain, M.ReturnFinished, M.CancelChain, M.CountResidence;
      LeaveRl();
      CountResidence(tick.dt);
      AdvanceChain(tick);
      ReturnFinished(tick);
      CancelChain();
      prevState := fsm.current;
    }

    // ---------------------------------------------------------------- the control step

    /** Everything that is looked at before acting, in order. */
    method Observe(tick: Tick)
      modifies `observations, `desk
      ensures (desk, observations) == M.ObserveBefore(cfg, old(Snapshot()), tick)
    {
      hide M.ReportedSensorFault, M.MonitorFault, CurrentFault;
      observations := [];
      ghost var report := M.ReportedSensorFault(desk, sensorFault);
      ObserveSensorFault();
      assert observations == report.1;
      ObserveMonitor(tick);
      assert observations == report.1 + M.MonitorFault(cfg, fsm.current, tick);
      ObserveFault(fsm.Fault());
      assert observations == report.1 + M.MonitorFault(cfg, fsm.current, tick) + M.StateFault(fsm.Snapshot());
    }

    method StepBefore(tick: Tick)
      requires prep.running ==> prep.job.Some?
      modifies this, fsm
      ensures Snapshot() == M.StepBefore(cfg, old(Snapshot()), tick)
      ensures observations == M.ObserveBefore(cfg, old(Snapshot()).(fsm := RaiseIn(old(fsm.Snapshot()), tick.rlBefore)), tick).1
    {
      ghost var raised := Snapshot().(fsm := RaiseIn(fsm.Snapshot(), tick.rlBefore));
      hide M.ObserveBefore, M.Resolve, M.CancelRunningSwitch, M.RequestHandoff, M.PollPolicyPreparation, RaiseIn;
      fsm.Report(tick.rlBefore);
      Observe(tick);
      ghost var d := desk;
      ResolveObservedFaults();
      assert Snapshot() == M.ResolveIn(raised, d, observations);
      hide M.ResolveIn;
      CancelRunningSwitch(tick.now);
      RequestHandoff();
      StillCollecting(cfg, raised, d, observations, tick);
      PollPolicyPreparation(tick);
    }

    /** Neither faults nor a cancelled switch touch a running preparation. */
    static lemma StillCollecting(cfg: M.Config, m: M.Manager, desk: M.FaultDesk, seen: seq<FaultStatus>, tick: Tick)
      ensures M.RequestHandoff(M.CancelRunningSwitch(cfg, M.ResolveIn(m, desk, seen), tick.now)).prep == m.prep
    {}

    method StepPrepare(tick: Tick)
      requires fsm.cfg == cfg.fsm
      modifies `log, `hand, `prep, `catalog, `command, `requests, fsm
      ensures Snapshot() == M.StepPrepare(cfg, old(Snapshot()), tick)
    {
      hide M.ConfineFault, M.PreparePending, M.GateHome;
      ConfineFault(tick);
      PreparePending(tick);
      GateHome();
    }

    method StepAfter(tick: Tick)
      requires fsm.cfg == cfg.fsm
      modifies this, fsm
      ensures Snapshot() == M.StepAfter(cfg, old(Snapshot()), old(observations), tick)
    {
      hide M.PrepareAtStartup, M.RunStates, M.LatchStateFault, M.Book;
      var requestedKey := command.key;
      PrepareAtStartup(tick);
      RunStates(requestedKey, tick);
      LatchStateFault(tick);
      Book(tick);
    }

    static lemma StepInStages(cfg: M.Config, m: M.Manager, tick: Tick)
      ensures var seen := M.ObserveBefore(cfg, m.(fsm := RaiseIn(m.fsm, tick.rlBefore)), tick).1;
              M.Step(cfg, m, tick) == M.StepAfter(cfg, M.StepPrepare(cfg, M.StepBefore(cfg, m, tick), tick), seen, tick)
    {}

    method RunStages(tick: Tick)
      requires fsm.cfg == cfg.fsm && (prep.running ==> prep.job.Some?)
      modifies this, fsm
      ensures Snapshot() == M.Step(cfg, old(Snapshot()), tick)
    {
      hide M.Step, M.StepBefore, M.StepPrepare, M.StepAfter, M.ObserveBefore, RaiseIn;
      StepInStages(cfg, Snapshot(), tick);
      StepBefore(tick);
      StepPrepare(tick);
      StepAfter(tick);
    }

    static lemma WiredJob(cfg: M.Config, m: M.Manager)
      requires Wired(cfg, m)
      ensures m.prep.running ==> m.prep.job.Some?
    {}

    method Step(tick: Tick)
      requires Valid()
      modifies this, fsm
      ensures Valid() && Snapshot() == M.Step(cfg, old(Snapshot()), tick)
    {
      hide M.Step, Wired;
      StepKeepsWired(cfg, Snapshot(), tick);
      WiredJob(cfg, Snapshot());
      RunStages(tick);
    }

    // ---------------------------------------------------------------- commands

    method SetSensorData()
      requires Valid()
      modifies `sensorReceived
      ensures Valid() && Snapshot() == old(Snapshot()).(sensorReceived := true)
    {
      sensorReceived := true;
    }

    method SetSensorFault(f: FaultStatus)
      requires Valid()
      modifies `sensorFault
      ensures Valid() && Snapshot() == old(Snapshot()).(sensorFault := f)
    {
      sensorFault := f;
    }

    /** The running policy was asked for: nothing is pending any more. */
    method KeepActive(now: real)
      modifies `requests, `hand, `catalog
      ensures hand == M.Retained(old(hand).(started := now))
      ensures requests == old(requests).(status := old(requests.status).(phase := M.Ready))
      ensures catalog == if old(hand.active) == old(catalog.owner) then M.FinishPolicyAction(old(catalog), true) else old(catalog)
    {
      hand := hand.(started := now, hot := false, pending := hand.active, final := "", waiting := false);
      requests := requests.(status := requests.status.(phase := M.Ready));
      if hand.active == catalog.owner {
        FinishPolicyAction(true);
      }
    }

    /** A policy request, as it stands after the catalog has had its say. */
    method SwitchPolicy(policy: Name, sequence: nat, now: real)
      modifies `requests, `hand, `prep, `catalog, `log
      ensures Snapshot() == M.SwitchPolicy(cfg, old(Snapshot()), policy, sequence, now)
    {
      hide M.SwitchPolicy, M.FinishPolicyAction, M.HandAfterSwitch, M.SameSwitchGroup, M.Retained;
      SwitchResults(cfg, Snapshot(), policy, sequence, now);
      requests := requests.(status := M.SwitchStatus(sequence, M.Preparing, policy));
      var cur := fsm.current;
      var hot := cur == Rl && InActiveGroup(policy);
      if policy !in cfg.selectable || command.key != 0 || !cfg.fsm.hasRl || desk.fault.latched ||
         (cur != PowerOff && cur != Damp && !hot) {
        requests := requests.(status := requests.status.(phase := M.Refused));
      } else if policy == hand.active && prep.runtimeReady {
        KeepActive(now);
      } else {
        Schedule(policy, hot, now);
      }
    }

    /** Start the chain of a policy with a prerequisite, or go to it directly. A chain that would
        leave the running group is refused and leaves an older pending policy as it is. */
    method Schedule(policy: Name, hot: bool, now: real)
      modifies `requests, `hand, `prep, `log
      ensures var chained := policy in cfg.prerequisites;
              var outside := chained && hot && !M.SameSwitchGroup(cfg, old(hand.active), cfg.prerequisites[policy].policy);
              var d := if outside then M.Outside else if chained then M.Chain(cfg.prerequisites[policy].policy) else M.Direct;
              && hand == M.HandAfterSwitch(old(hand), d, policy, hot, now)
              && prep == (if outside then old(prep) else old(prep).(failed := false))
              && requests == (if outside then old(requests).(status := old(requests.status).(phase := M.Refused))
                              else old(requests))
              && log == (if outside then old(log) + [M.OutsideGroup(old(hand.pending), old(hand.active))] else old(log))
    {
      if policy in cfg.prerequisites {
        var prerequisite := cfg.prerequisites[policy].policy;
        if hot && !InActiveGroup(prerequisite) {
          log := log + [M.OutsideGroup(hand.pending, hand.active)];
          hand := hand.(started := now, hot := false);
          requests := requests.(status := requests.status.(phase := M.Refused));
          return;
        }
        hand := hand.(started := now, hot := hot, final := policy, pending := prerequisite, timer := 0.0, waiting := true);
      } else {
        hand := hand.(started := now, hot := hot, pending := policy, final := "", waiting := false, timer := 0.0);
      }
      prep := prep.(failed := false);
    }

    /** A command is repeated every frame, so only a changed policy request counts. */
    method SetCommand(c: M.Command, now: real)
      requires Valid()
      modifies `command, `catalog, `hand, `prep, `requests, `log
      ensures Valid() && Snapshot() == M.SetCommand(cfg, old(Snapshot()), c, now)
    {
      CommandKeepsWired(cfg, Snapshot(), c, now);
      hide M.HandlePolicyAction, M.SwitchPolicy;
      command := c;
      KeepsRequests(cfg, Snapshot(), c.interaction, now);
      HandlePolicyAction(c.interaction, now);
      var edge := c.switchPolicy != requests.policy || c.requestSequence != requests.sequence;
      requests := requests.(policy := c.switchPolicy, sequence := c.requestSequence);
      if edge && c.switchPolicy != "" {
        SwitchPolicy(c.switchPolicy, c.requestSequence, now);
      }
    }

    static lemma KeepsRequests(cfg: M.Config, m: M.Manager, r: Interaction, now: real)
      ensures M.HandlePolicyAction(cfg, m, r, now).requests == m.requests
    {}

    /** One call of the interface. */
    method Handle(e: M.Event)
      requires Valid()
      modifies this, fsm
      ensures Valid() && Snapshot() == M.Apply(cfg, old(Snapshot()), e)
    {
      hide M.Step, M.SetCommand, M.AcknowledgeFault, Wired;
      match e
      case OnTick(tick) => Step(tick);
      case OnCommand(c, now) => SetCommand(c, now);
      case OnAcknowledge(sequence) => AcknowledgeFault(sequence);
      case OnSensorFault(f) => SetSensorFault(f);
      case OnSensorData => SetSensorData();
    }
  }

  /** A controller that has been called in any way is in the state of that run, so everything
      proved about runs holds of it. */
  method Drive(cfg: M.Config, events: seq<M.Event>) returns (manager: BehaviorManager)
    ensures fresh(manager) && manager.cfg == cfg && manager.Valid() && manager.Snapshot() == M.Run(cfg, events)
  {
    hide M.Apply, Wired;
    manager := new BehaviorManager(cfg);
    for i := 0 to |events|
      invariant fresh(manager) && fresh(manager.fsm) && manager.cfg == cfg && manager.Valid()
      invariant manager.Snapshot() == M.Run(cfg, events[..i])
    {
      manager.Handle(events[i]);
      assert events[..i + 1][..i] == events[..i];
    }
    assert events[..|events|] == events;
  }
}
