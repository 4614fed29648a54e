/** The supervisory controller of behavior_manager.cpp as functions on its state: one function
    per private method or per stage of Step. The class in ManagerClass.dfy performs them. */
module Manager {
  import opened RobotBase
  import opened Fsm

  datatype Prerequisite = Prerequisite(policy: Name, duration: real)

  datatype Config = Config(
    fsm: FsmConfig, fixedBase: bool, startupPrepare: bool, initialPolicy: Name,
    selectable: set<Name>, groups: map<Name, Name>, returnPolicies: map<Name, Name>,
    prerequisites: map<Name, Prerequisite>, actions: map<Name, map<Name, Name>>, switchTimeout: real)

  /** The checks of LoadConfig that constrain later behaviour. */
  ghost predicate ValidConfig(cfg: Config) {
    && Fsm.ValidModes(cfg.fsm)
    && cfg.fsm.release >= 0.0 && cfg.switchTimeout > 0.0
    && (cfg.startupPrepare ==> cfg.fixedBase && cfg.fsm.hasTrajectory)
    && (cfg.fsm.hasTrajectory ==> cfg.fixedBase)
    && (cfg.fsm.hasRl ==> !cfg.fixedBase)
    && (!cfg.fsm.hasRl ==> cfg.initialPolicy == "")
    && (forall p | p in cfg.prerequisites ::
          && cfg.prerequisites[p].duration > 0.0
          && cfg.prerequisites[p].policy != p && cfg.prerequisites[p].policy != ""
          && cfg.prerequisites[p].policy in cfg.groups
          && cfg.prerequisites[p].policy !in cfg.prerequisites)
    && (forall p | p in cfg.returnPolicies && cfg.returnPolicies[p] != "" ::
          && p in cfg.groups && cfg.returnPolicies[p] in cfg.groups && cfg.returnPolicies[p] != p
          && cfg.groups[p] != "" && cfg.groups[p] == cfg.groups[cfg.returnPolicies[p]])
    && (forall p | p in cfg.actions ::
          && p in cfg.selectable && p in cfg.groups && cfg.groups[p] != ""
          && p !in cfg.prerequisites && cfg.actions[p] != map[]
          && forall a | a in cfg.actions[p] ::
               var child := cfg.actions[p][a];
               && a != "" && child != "" && child in cfg.groups && cfg.groups[child] == cfg.groups[p]
               && child !in cfg.selectable && child !in cfg.actions && child !in cfg.prerequisites)
  }

  datatype Command = Command(
    key: int, velocity: Twist, switchPolicy: Name, requestSequence: nat, interaction: Interaction)

  const NO_COMMAND := Command(0, STANDSTILL, "", 0, NO_INTERACTION)

  datatype SwitchPhase = NoSwitch | Preparing | Ready | Failed | Refused

  datatype SwitchStatus = SwitchStatus(sequence: nat, phase: SwitchPhase, policy: Name)

  /** The sensor fault an acknowledgement referred to. */
  datatype SensorAck = SensorAck(sequence: nat, source: FaultSource, code: FaultCode, native: int)

  const NO_ACK := SensorAck(0, NoSource, NoCode, 0)

  datatype FaultDesk = FaultDesk(
    fault: FaultStatus, sequence: nat, observed: nat, acknowledged: SensorAck, previousAck: nat)

  /** Background preparation: the job's future, the collected result and the retirement job. */
  datatype Preparation = Preparation(
    job: Option<Name>, running: bool, prepared: Option<Name>, retiring: bool, failed: bool,
    runtimeReady: bool)

  datatype Catalog = Catalog(
    owner: Name, target: Name, returning: bool, previousSequence: nat, status: InteractionStatus)

  /** Which policy runs, which is wanted, and the prerequisite chain between them. */
  datatype Handoff = Handoff(
    pending: Name, active: Name, hot: bool, started: real, returnAttempted: bool,
    final: Name, waiting: bool, timer: real)

  /** The last policy request, as a repeated command is recognised, and its verdict. */
  datatype Requests = Requests(policy: Name, sequence: nat, status: SwitchStatus)

  /** What a run leaves behind for its theorems. */
  datatype Note =
    | Installed(policy: Name, pending: Name, mode: Mode, ready: bool, latched: bool)
    | Launched(policy: Name, blocked: bool)
    | Retired(blocked: bool)
    | Advanced(target: Name, policy: Name, residence: real)
    | Latched(sequence: nat)
    | OutsideGroup(pending: Name, active: Name)

  datatype Manager = Manager(
    fsm: FsmState, command: Command, sensorFault: FaultStatus, sensorReceived: bool, startupPending: bool,
    desk: FaultDesk, hand: Handoff, prep: Preparation, catalog: Catalog, requests: Requests,
    previousMode: Mode, residence: real, log: seq<Note>)

  function OwnerOf(cfg: Config, policy: Name): Name { if policy in cfg.actions then policy else "" }

  function Initial(cfg: Config): Manager {
    Manager(
      POWERED_OFF, NO_COMMAND, NO_FAULT, false, cfg.startupPrepare,
      FaultDesk(NO_FAULT, 0, 0, NO_ACK, 0),
      Handoff(cfg.initialPolicy, cfg.initialPolicy, false, 0.0, false, "", false, 0.0),
      Preparation(None, false, None, false, false, cfg.fsm.hasRl),
      Catalog(OwnerOf(cfg, cfg.initialPolicy), "", false, 0, NO_STATUS),
      Requests("", 0, SwitchStatus(0, NoSwitch, "")), PowerOff, 0.0, [])
  }

  // ---------------------------------------------------------------- shared pieces

  predicate PolicyReady(h: Handoff, p: Preparation) {
    p.runtimeReady && h.pending == h.active && !p.running && p.prepared.None?
  }

  predicate RequestedPolicyReady(m: Manager) { PolicyReady(m.hand, m.prep) }

  predicate SameSwitchGroup(cfg: Config, from: Name, to: Name) {
    from in cfg.groups && to in cfg.groups && cfg.groups[from] != "" && cfg.groups[from] == cfg.groups[to]
  }

  /** Only a request that is still being prepared gets a new verdict. */
  function Concluded(r: Requests, to: SwitchPhase): Requests {
    if r.status.phase == Preparing then r.(status := r.status.(phase := to)) else r
  }

  /** Stay with the running policy. */
  function Retained(h: Handoff): Handoff {
    h.(pending := h.active, hot := false, final := "", waiting := false)
  }

  /** Hand the robot to a policy of the catalog. */
  function HandedTo(h: Handoff, target: Name, inRl: bool, now: real): Handoff {
    h.(pending := target, hot := inRl && target != h.active, started := now, waiting := false, final := "")
  }

  function Halted(c: Command): Command { c.(velocity := STANDSTILL) }

  // ---------------------------------------------------------------- faults

  predicate IsAcknowledged(desk: FaultDesk, f: FaultStatus) {
    f.sequence != 0 && desk.acknowledged == SensorAck(f.sequence, f.source, f.code, f.native)
  }

  /** The driver's fault: an active one always counts, a latched one until it was acknowledged. */
  function ReportedSensorFault(desk: FaultDesk, sensor: FaultStatus): (FaultDesk, seq<FaultStatus>) {
    if sensor.active then
      (if IsAcknowledged(desk, sensor) then desk.(acknowledged := NO_ACK) else desk, [sensor])
    else if sensor.latched && !IsAcknowledged(desk, sensor) then (desk, [sensor])
    else (desk, [])
  }

  function MonitorFault(cfg: Config, mode: Mode, tick: Tick): seq<FaultStatus> {
    if !tick.stateValid then [FaultStatus(true, true, SafetyMonitor, InvalidData, 1, 0)]
    else if mode != PowerOff && !cfg.fixedBase && tick.tilted then
      [FaultStatus(true, true, SafetyMonitor, LimitExceeded, 2, 0)]
    else if mode != PowerOff && !cfg.fixedBase && tick.spinning then
      [FaultStatus(true, true, SafetyMonitor, LimitExceeded, 3, 0)]
    else []
  }

  function StateFault(f: FsmState): seq<FaultStatus> {
    var fault := CurrentFault(f);
    if fault.active || fault.latched then [fault] else []
  }

  predicate MatchesCurrent(desk: FaultDesk, f: FaultStatus) {
    && desk.fault.latched && desk.fault.source == f.source && desk.fault.code == f.code
    && desk.fault.native == f.native && desk.observed == f.sequence
  }

  function LatchFault(desk: FaultDesk, f: FaultStatus): FaultDesk {
    desk.(observed := f.sequence, sequence := desk.sequence + 1,
          fault := f.(latched := true, sequence := desk.sequence + 1))
  }

  /** First observation with the given property. */
  function Find(seen: seq<FaultStatus>, p: FaultStatus -> bool): (r: Option<FaultStatus>)
    ensures r.Some? <==> exists i :: 0 <= i < |seen| && p(seen[i])
    ensures r.Some? ==> p(r.value) && r.value in seen
  {
    if seen == [] then None else if p(seen[0]) then Some(seen[0]) else Find(seen[1..], p)
  }

  function Resolve(desk: FaultDesk, seen: seq<FaultStatus>): FaultDesk {
    var root := Find(seen, (f: FaultStatus) => f.active && MatchesCurrent(desk, f));
    var firstActive := Find(seen, (f: FaultStatus) => f.active);
    var firstLatched := Find(seen, (f: FaultStatus) => f.latched);
    if desk.fault.latched && desk.fault.active && root.Some? then desk
    else if firstActive.Some? then LatchFault(desk, firstActive.value)
    else if desk.fault.latched then desk.(fault := desk.fault.(active := false))
    else if firstLatched.Some? then LatchFault(desk, firstLatched.value)
    else desk
  }

  function LogAfterResolve(log: seq<Note>, before: FaultDesk, after: FaultDesk): seq<Note> {
    if after.sequence != before.sequence then log + [Latched(after.sequence)] else log
  }

  function ResolveIn(m: Manager, desk: FaultDesk, seen: seq<FaultStatus>): Manager {
    m.(desk := Resolve(desk, seen), log := LogAfterResolve(m.log, desk, Resolve(desk, seen)))
  }

  /** Everything Step looks at before it acts, in the order in which it looks. */
  function ObserveBefore(cfg: Config, m: Manager, tick: Tick): (FaultDesk, seq<FaultStatus>) {
    var (desk, sensor) := ReportedSensorFault(m.desk, m.sensorFault);
    (desk, sensor + MonitorFault(cfg, m.fsm.mode, tick) + StateFault(m.fsm))
  }

  function AcknowledgeFault(m: Manager, sequence: nat): Manager {
    var d := m.desk;
    if sequence == 0 then m.(desk := d.(previousAck := 0))
    else if !(d.fault.latched && m.fsm.mode == PowerOff && !d.fault.active && !m.sensorFault.active) ||
            sequence == d.previousAck then m
    else if sequence != d.fault.sequence then m.(desk := d.(previousAck := sequence))
    else
      var s := m.sensorFault;
      var root := s.latched && !s.active && s.source == d.fault.source && s.code == d.fault.code &&
                  s.native == d.fault.native && s.sequence == d.observed;
      m.(desk := FaultDesk(NO_FAULT, d.sequence, 0,
           if root then SensorAck(s.sequence, s.source, s.code, s.native) else d.acknowledged, sequence))
  }

  // ---------------------------------------------------------------- catalog actions

  function FinishPolicyAction(c: Catalog, accepted: bool): Catalog {
    var s := c.status.(accepted := accepted, phase := if accepted then Finished else Rejected,
                       progress := if accepted then 1.0 else 0.0);
    c.(target := "", returning := false,
       status := if s.action == "" then s.(phase := Idle, progress := 0.0) else s)
  }

  /** A policy of the catalog could not be reached. */
  function CatalogAfterFailure(c: Catalog, policy: Name): Catalog {
    if policy == c.target || policy == c.owner then FinishPolicyAction(c, false) else c
  }

  datatype ActionDecision = Pass | Mute | CancelAtOwner | ReturnToOwner | Refuse | Begin(target: Name)

  predicate ActionsAllowed(m: Manager) {
    m.fsm.mode == Rl && !m.desk.fault.latched && m.command.key == 0
  }

  function CatalogEntry(cfg: Config, owner: Name): map<Name, Name> {
    if owner in cfg.actions then cfg.actions[owner] else map[]
  }

  /** What the catalog of the active entry policy makes of an interaction request. */
  function DecideAction(cfg: Config, m: Manager, request: Interaction): ActionDecision {
    var c, h := m.catalog, m.hand;
    if c.owner == "" then Pass
    else if request.operation == NoOperation || request.sequence == 0 ||
            request.sequence == c.previousSequence then Mute
    else if request.operation == Cancel && ActionsAllowed(m) &&
            (h.pending == h.active || h.pending == c.target || h.pending == c.owner) then
      if h.active == c.owner then CancelAtOwner else ReturnToOwner
    else if ActionsAllowed(m) && request.operation == Start && request.action in CatalogEntry(cfg, c.owner) &&
            c.target == "" && h.active == c.owner && RequestedPolicyReady(m) then
      Begin(CatalogEntry(cfg, c.owner)[request.action])
    else Refuse
  }

  /** A refused second request does not hide a running action. */
  function RefusedStatus(c: Catalog, request: Interaction): InteractionStatus {
    var s := c.status.(sequence := request.sequence, accepted := false);
    if c.target != "" then s
    else s.(action := request.action, progress := 0.0, phase := if request.action == "" then Idle else Rejected)
  }

  function CatalogAfterAction(old_: Catalog, request: Interaction, d: ActionDecision): Catalog {
    var c := old_.(previousSequence := request.sequence);
    var accepted := c.status.(sequence := request.sequence, accepted := true);
    match d
    case Pass => old_
    case Mute => old_
    case CancelAtOwner => FinishPolicyAction(c.(status := accepted), true)
    case ReturnToOwner => c.(returning := true, status := accepted.(phase := BlendOut))
    case Refuse => c.(status := RefusedStatus(c, request))
    case Begin(target) =>
      c.(target := target, returning := false,
         status := InteractionStatus(request.sequence, true, BlendIn, 0.0, request.action))
  }

  predicate StartsHandoff(d: ActionDecision) { d.CancelAtOwner? || d.ReturnToOwner? || d.Begin? }

  function HandoffTarget(c: Catalog, d: ActionDecision): Name { if d.Begin? then d.target else c.owner }

  function HandlePolicyAction(cfg: Config, m: Manager, request: Interaction, now: real): Manager {
    var d := DecideAction(cfg, m, request);
    var quiet := if d.Pass? then m.command else m.command.(interaction := NO_INTERACTION);
    m.(command := if StartsHandoff(d) then Halted(quiet) else quiet,
       catalog := CatalogAfterAction(m.catalog, request, d),
       hand := if StartsHandoff(d) then HandedTo(m.hand, HandoffTarget(m.catalog, d), m.fsm.mode == Rl, now) else m.hand,
       prep := if StartsHandoff(d) then m.prep.(failed := false) else m.prep)
  }

  // ---------------------------------------------------------------- background preparation

  /** What one poll of the background work comes to. */
  datatype PollDecision =
    | Wait                       // the previous retirement is still running
    | Nothing
    | Discard                    // the prepared policy is no longer wanted
    | Install(policy: Name)
    | Stale                      // a failed job nobody waits for
    | Unavailable(policy: Name)  // the job for the wanted policy failed
    | Cancelled                  // the running switch ended while the job ran
    | Outdated                   // the finished job is no longer wanted
    | Keep(policy: Name)         // the finished job becomes the prepared policy

  function DecideJob(m: Manager, policy: Name, failed: bool): PollDecision {
    if failed then if policy != m.hand.pending then Stale else Unavailable(policy)
    else if m.hand.hot && (m.desk.fault.latched || m.command.key != 0 || m.fsm.mode != Rl) then Cancelled
    else if policy != m.hand.pending then Outdated
    else Keep(policy)
  }

  function DecidePoll(m: Manager, tick: Tick): PollDecision {
    if m.prep.retiring && !tick.retirementDone then Wait
    else if m.prep.prepared.Some? then
      if m.prep.prepared.value != m.hand.pending then Discard
      else if m.hand.hot && m.fsm.mode == Rl && !m.desk.fault.latched && !ReadyForPolicySwitch(m.fsm, tick) then Nothing
      else Install(m.prep.prepared.value)
    else if m.prep.running && m.prep.job.Some? && tick.job != Pending then
      DecideJob(m, m.prep.job.value, tick.job == Broken)
    else Nothing
  }

  /** The started action's policy has taken over. */
  predicate ActionArrives(c: Catalog, policy: Name) {
    policy != c.owner && c.target != "" && policy == c.target && !c.returning
  }

  function CatalogAfterInstall(cfg: Config, c: Catalog, policy: Name): Catalog {
    if policy == c.owner then if c.target != "" || c.returning then FinishPolicyAction(c, true) else c
    else if ActionArrives(c, policy) then c.(status := c.status.(phase := Playing))
    else c.(owner := OwnerOf(cfg, policy), target := "", returning := false, status := NO_STATUS)
  }

  function HandAfterPoll(h: Handoff, d: PollDecision): Handoff {
    match d
    case Install(policy) => h.(active := policy, returnAttempted := false, hot := h.hot && h.waiting, timer := 0.0)
    case Unavailable(policy) => if policy == h.active then h else Retained(h)
    case Cancelled => h.(pending := h.active, hot := false)
    case _ => h
  }

  function PrepAfterPoll(p: Preparation, h: Handoff, d: PollDecision): Preparation {
    var free := p.(retiring := false);
    var collected := free.(job := None, running := false);
    match d
    case Wait => p
    case Nothing => free
    case Discard => p.(prepared := None, retiring := true)
    case Install(_) => p.(prepared := None, retiring := true, runtimeReady := true, failed := false)
    case Stale => collected
    case Unavailable(policy) => collected.(failed := policy == h.active)
    case Cancelled => collected.(retiring := true)
    case Outdated => collected.(retiring := true)
    case Keep(policy) => collected.(prepared := Some(policy))
  }

  function CatalogAfterPoll(cfg: Config, m: Manager, d: PollDecision): Catalog {
    match d
    case Install(policy) => CatalogAfterInstall(cfg, m.catalog, policy)
    case Unavailable(policy) => if policy == m.hand.active then m.catalog else CatalogAfterFailure(m.catalog, policy)
    case _ => m.catalog
  }

  /** A retirement waits for the one before it exactly if that one has not completed. */
  function LogAfterPoll(m: Manager, d: PollDecision, tick: Tick): seq<Note> {
    var retired := Retired(m.prep.retiring && !tick.retirementDone);
    match d
    case Discard => m.log + [retired]
    case Install(policy) =>
      m.log +
      [Installed(policy, m.hand.pending, m.fsm.mode, ReadyForPolicySwitch(m.fsm, tick), m.desk.fault.latched)] +
      [retired]
    case Cancelled => m.log + [retired]
    case Outdated => m.log + [retired]
    case _ => m.log
  }

  function PollPolicyPreparation(cfg: Config, m: Manager, tick: Tick): Manager {
    var d := DecidePoll(m, tick);
    m.(fsm := if d.Install? then ReplaceStates(m.fsm, tick) else m.fsm,
       command := if d.Install? && ActionArrives(m.catalog, d.policy) then m.command.(key := 5) else m.command,
       hand := HandAfterPoll(m.hand, d),
       prep := PrepAfterPoll(m.prep, m.hand, d),
       catalog := CatalogAfterPoll(cfg, m, d),
       requests := if d.Unavailable? then Concluded(m.requests, Failed)
                   else if d.Cancelled? then Concluded(m.requests, Refused) else m.requests,
       residence := if d.Install? then 0.0 else m.residence,
       log := LogAfterPoll(m, d, tick))
  }

  // ---------------------------------------------------------------- stages of Step

  /** A running switch is given up on a fault, on a stop key or when it takes too long. */
  predicate GivesUp(cfg: Config, m: Manager, now: real) {
    && m.hand.hot && m.fsm.mode == Rl
    && (m.desk.fault.latched || m.command.key == -1 || m.command.key == 1 ||
        now - m.hand.started > cfg.switchTimeout)
  }

  function CancelRunningSwitch(cfg: Config, m: Manager, now: real): Manager {
    if !GivesUp(cfg, m, now) then m
    else
      m.(catalog := CatalogAfterFailure(m.catalog, m.hand.pending), hand := Retained(m.hand),
         requests := Concluded(m.requests, Refused))
  }

  function RequestHandoff(m: Manager): Manager {
    m.(fsm := RequestSwitch(m.fsm, m.hand.hot && m.prep.prepared.Some? && m.hand.pending != m.hand.active),
       command := if m.hand.hot then Halted(m.command) else m.command)
  }

  /** A latched fault keeps the machine in SAFETY or POWER_OFF and blocks powering on. */
  function ConfineFault(cfg: Config, m: Manager, tick: Tick): Manager {
    var confined := m.desk.fault.latched && m.fsm.mode != PowerOff;
    var blocked := m.desk.fault.latched && m.fsm.mode == PowerOff && m.command.key != -1;
    m.(fsm := if confined then ForceSwitch(cfg.fsm, m.fsm, Safety, m.desk.fault, tick) else m.fsm,
       command := if blocked then m.command.(key := 0) else m.command)
  }

  datatype LaunchDecision = NoLaunch | Launch | LaunchFails

  function DecideLaunch(cfg: Config, m: Manager, tick: Tick): LaunchDecision {
    if && cfg.fsm.hasRl
       && (m.fsm.mode == PowerOff || m.fsm.mode == Damp || (m.fsm.mode == Rl && m.hand.pending != m.hand.active))
       && !RequestedPolicyReady(m) && !m.prep.running && !m.prep.failed
       && m.prep.prepared.None? && m.hand.pending != ""
    then if tick.launchFails then LaunchFails else Launch
    else NoLaunch
  }

  function PreparePending(cfg: Config, m: Manager, tick: Tick): Manager {
    var d := DecideLaunch(cfg, m, tick);
    var lost := d.LaunchFails? && m.hand.pending != m.hand.active;
    m.(hand := if lost then Retained(m.hand) else m.hand,
       prep := match d
         case NoLaunch => m.prep
         case Launch => m.prep.(job := Some(m.hand.pending), running := true, failed := false)
         case LaunchFails => m.prep.(failed := !lost),
       catalog := if lost then CatalogAfterFailure(m.catalog, m.hand.pending) else m.catalog,
       requests := if d.LaunchFails? then Concluded(m.requests, Failed) else m.requests,
       log := if d.Launch? then m.log + [Launched(m.hand.pending, m.prep.job.Some?)] else m.log)
  }

  /** Report readiness, and let DAMP go to HOME only with the requested policy ready. */
  function GateHome(cfg: Config, m: Manager): Manager {
    var blocked := cfg.fsm.hasRl && m.fsm.mode == Damp && m.command.key == 4 && !RequestedPolicyReady(m);
    m.(requests :=
         if RequestedPolicyReady(m) && (!m.hand.waiting || m.fsm.mode != Rl)
         then Concluded(m.requests, Ready) else m.requests,
       command := if blocked then m.command.(key := 0) else m.command)
  }

  /** The optional start-up of a fixed-base robot presses the keys itself. */
  function PrepareAtStartup(cfg: Config, m: Manager, tick: Tick): Manager {
    var cancelled := m.startupPending && (m.desk.fault.latched || m.command.key != 0);
    var driving := m.startupPending && !cancelled && m.sensorReceived;
    m.(startupPending := m.startupPending && !cancelled && !(driving && m.fsm.mode == Trajectory),
       fsm := if driving && m.fsm.mode == PowerOff then ForceSwitch(cfg.fsm, m.fsm, Home, m.desk.fault, tick) else m.fsm,
       command := m.command.(key := if driving && m.fsm.mode == Home then 2
                                    else if driving && m.fsm.mode == Zero then 3 else m.command.key))
  }

  /** The transition check and the current state's run; a key set by the start-up is not kept. */
  function RunStates(cfg: Config, m: Manager, requestedKey: int, tick: Tick): Manager {
    var (f, key) := StepFsm(cfg.fsm, RaiseIn(m.fsm, tick.rlMid), m.command.key, m.desk.fault, tick);
    m.(fsm := f, command := m.command.(key := if requestedKey == 0 then 0 else key))
  }

  /** `before` are the observations made at the start of the step. */
  function LatchStateFault(cfg: Config, m: Manager, before: seq<FaultStatus>, tick: Tick): Manager {
    if StateFault(m.fsm) == [] then m
    else
      var desk := Resolve(m.desk, before + StateFault(m.fsm));
      m.(desk := desk, log := LogAfterResolve(m.log, m.desk, desk),
         fsm := if m.fsm.mode != PowerOff then ForceSwitch(cfg.fsm, m.fsm, Safety, desk.fault, tick) else m.fsm)
  }

  /** A used policy instance must be prepared again before RL. */
  function LeaveRl(m: Manager): Manager {
    if !(m.previousMode == Rl && m.fsm.mode != Rl) then m
    else
      m.(prep := m.prep.(runtimeReady := false, failed := false),
         hand := if m.catalog.owner == "" then m.hand else m.hand.(pending := m.catalog.owner, hot := false),
         catalog := if m.catalog.owner == "" then m.catalog else FinishPolicyAction(m.catalog, true))
  }

  /** Control time since the present policy took over in an uninterrupted RL residence. */
  function CountResidence(m: Manager, dt: real): Manager {
    m.(residence := if m.fsm.mode == Rl then m.residence + dt else 0.0)
  }

  predicate ChainRuns(cfg: Config, m: Manager) {
    m.hand.waiting && m.fsm.mode == Rl && RequestedPolicyReady(m) && m.hand.final in cfg.prerequisites
  }

  function AdvanceChain(cfg: Config, m: Manager, tick: Tick): Manager {
    if !ChainRuns(cfg, m) then m
    else
      var h, entry := m.hand, cfg.prerequisites[m.hand.final];
      var timer := if h.active == entry.policy then h.timer + tick.dt else h.timer;
      var due := timer >= entry.duration;
      m.(hand := if due then h.(timer := timer, pending := h.final, final := "", waiting := false, hot := true,
                                started := tick.now) else h.(timer := timer),
         log := if due then m.log + [Advanced(h.final, h.active, m.residence)] else m.log)
  }

  /** A policy that has finished goes back to the catalog's entry or to its return policy. */
  datatype ReturnDecision = Stay | ToOwner | ToReturnPolicy(policy: Name)

  function DecideReturn(cfg: Config, m: Manager, tick: Tick): ReturnDecision {
    var h := m.hand;
    if !(m.fsm.mode == Rl && !h.waiting && RequestedPolicyReady(m) && !h.hot && !h.returnAttempted &&
         tick.policyFinished) then Stay
    else if m.catalog.owner != "" && h.active != m.catalog.owner then ToOwner
    else if h.active in cfg.returnPolicies && cfg.returnPolicies[h.active] != "" then
      ToReturnPolicy(cfg.returnPolicies[h.active])
    else Stay
  }

  function ReturnFinished(cfg: Config, m: Manager, tick: Tick): Manager {
    var d := DecideReturn(cfg, m, tick);
    m.(hand := match d
         case Stay => m.hand
         case ToOwner => HandedTo(m.hand.(returnAttempted := true), m.catalog.owner, true, tick.now)
         case ToReturnPolicy(policy) =>
           m.hand.(returnAttempted := true, pending := policy, hot := true, started := tick.now),
       prep := if d.ToOwner? then m.prep.(failed := false) else m.prep,
       command := if d.ToOwner? then Halted(m.command) else m.command,
       catalog := if d.ToOwner?
         then m.catalog.(returning := true, status := m.catalog.status.(phase := BlendOut)) else m.catalog)
  }

  function CancelChain(m: Manager): Manager {
    m.(hand := if m.hand.waiting && m.previousMode == Rl && m.fsm.mode == PowerOff
               then m.hand.(final := "", waiting := false, timer := 0.0) else m.hand)
  }

  function Book(cfg: Config, m: Manager, tick: Tick): Manager {
    var n := CancelChain(ReturnFinished(cfg, AdvanceChain(cfg, CountResidence(LeaveRl(m), tick.dt), tick), tick));
    n.(previousMode := n.fsm.mode)
  }

  /** Faults, cancellation, the handoff request and the preparation, before any change of mode. */
  function StepBefore(cfg: Config, m: Manager, tick: Tick): Manager {
    var raised := m.(fsm := RaiseIn(m.fsm, tick.rlBefore));
    var (desk, seen) := ObserveBefore(cfg, raised, tick);
    PollPolicyPreparation(cfg, RequestHandoff(CancelRunningSwitch(cfg, ResolveIn(raised, desk, seen), tick.now)), tick)
  }

  function StepPrepare(cfg: Config, m: Manager, tick: Tick): Manager {
    GateHome(cfg, PreparePending(cfg, ConfineFault(cfg, m, tick), tick))
  }

  function StepAfter(cfg: Config, m: Manager, before: seq<FaultStatus>, tick: Tick): Manager {
    var started := PrepareAtStartup(cfg, m, tick);
    Book(cfg, LatchStateFault(cfg, RunStates(cfg, started, m.command.key, tick), before, tick), tick)
  }

  function Step(cfg: Config, m: Manager, tick: Tick): Manager {
    var before := ObserveBefore(cfg, m.(fsm := RaiseIn(m.fsm, tick.rlBefore)), tick).1;
    StepAfter(cfg, StepPrepare(cfg, StepBefore(cfg, m, tick), tick), before, tick)
  }

  // ---------------------------------------------------------------- commands

  /** The request is refused because the prerequisite of its target is outside the group. */
  predicate OutsideGroupOf(cfg: Config, m: Manager, policy: Name) {
    && policy in cfg.prerequisites && m.fsm.mode == Rl && SameSwitchGroup(cfg, m.hand.active, policy)
    && !SameSwitchGroup(cfg, m.hand.active, cfg.prerequisites[policy].policy)
  }

  predicate Admissible(cfg: Config, m: Manager, policy: Name) {
    && policy in cfg.selectable && m.command.key == 0 && cfg.fsm.hasRl && !m.desk.fault.latched
    && (m.fsm.mode == PowerOff || m.fsm.mode == Damp ||
        (m.fsm.mode == Rl && SameSwitchGroup(cfg, m.hand.active, policy)))
  }

  datatype SwitchDecision = Inadmissible | AlreadyActive | Outside | Chain(prerequisite: Name) | Direct

  function DecideSwitch(cfg: Config, m: Manager, policy: Name): SwitchDecision {
    if !Admissible(cfg, m, policy) then Inadmissible
    else if policy == m.hand.active && m.prep.runtimeReady then AlreadyActive
    else if OutsideGroupOf(cfg, m, policy) then Outside
    else if policy in cfg.prerequisites then Chain(cfg.prerequisites[policy].policy)
    else Direct
  }

  function HandAfterSwitch(h: Handoff, d: SwitchDecision, policy: Name, inRl: bool, now: real): Handoff {
    match d
    case Inadmissible => h
    case AlreadyActive => Retained(h.(started := now))
    case Outside => h.(hot := false, started := now)
    case Chain(prerequisite) =>
      h.(hot := inRl, started := now, final := policy, pending := prerequisite, timer := 0.0, waiting := true)
    case Direct => h.(hot := inRl, started := now, pending := policy, final := "", waiting := false, timer := 0.0)
  }

  function SwitchPolicy(cfg: Config, m: Manager, policy: Name, sequence: nat, now: real): Manager {
    var d := DecideSwitch(cfg, m, policy);
    var verdict := if d.Inadmissible? || d.Outside? then Refused else if d.AlreadyActive? then Ready else Preparing;
    m.(requests := m.requests.(status := SwitchStatus(sequence, verdict, policy)),
       hand := HandAfterSwitch(m.hand, d, policy, m.fsm.mode == Rl, now),
       prep := if d.Chain? || d.Direct? then m.prep.(failed := false) else m.prep,
       catalog := if d.AlreadyActive? && m.hand.active == m.catalog.owner
                  then FinishPolicyAction(m.catalog, true) else m.catalog,
       log := if d.Outside? then m.log + [OutsideGroup(m.hand.pending, m.hand.active)] else m.log)
  }

  /** A command is stored, offered to the catalog and remembered as the last request. */
  function Told(cfg: Config, m: Manager, c: Command, now: real): Manager {
    var n := HandlePolicyAction(cfg, m.(command := c), c.interaction, now);
    n.(requests := n.requests.(policy := c.switchPolicy, sequence := c.requestSequence))
  }

  /** A command is repeated every frame, so only a changed policy request counts. */
  predicate AsksForPolicy(m: Manager, c: Command) {
    && c.switchPolicy != ""
    && (c.switchPolicy != m.requests.policy || c.requestSequence != m.requests.sequence)
  }

  function SetCommand(cfg: Config, m: Manager, c: Command, now: real): Manager {
    if AsksForPolicy(m, c) then SwitchPolicy(cfg, Told(cfg, m, c, now), c.switchPolicy, c.requestSequence, now)
    else Told(cfg, m, c, now)
  }

  // ---------------------------------------------------------------- runs

  datatype Event =
    | OnTick(tick: Tick)
    | OnCommand(command: Command, now: real)
    | OnAcknowledge(sequence: nat)
    | OnSensorFault(fault: FaultStatus)
    | OnSensorData

  function Apply(cfg: Config, m: Manager, e: Event): Manager {
    match e
    case OnTick(tick) => Step(cfg, m, tick)
    case OnCommand(c, now) => SetCommand(cfg, m, c, now)
    case OnAcknowledge(sequence) => AcknowledgeFault(m, sequence)
    case OnSensorFault(f) => m.(sensorFault := f)
    case OnSensorData => m.(sensorReceived := true)
  }

  function Run(cfg: Config, events: seq<Event>): Manager {
    if events == [] then Initial(cfg) else Apply(cfg, Run(cfg, events[..|events| - 1]), events[|events| - 1])
  }
}
