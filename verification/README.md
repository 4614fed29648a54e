# Motion control of a legged robot: verified models

This project models the safety-relevant logic of a robot motion controller and its clients in
Dafny and proves what it promises.

* **Supervisory controller.** `Manager.dfy` gives the behaviour of the controller's private
  stages and API calls as functions on its state, with the environment (sensor verdicts, the
  inference thread, background jobs) as a parameter of each tick. `ManagerInvariant.dfy` proves
  the joint invariant, `ManagerTheorems.dfy` what it means for whole runs, `ManagerCatalog.dfy`
  the catalog, `SwitchGroups.dfy` the switch groups by request and by configuration,
  `QuietRuns.dfy` the undisturbed way into RL, `HandoffByConfig.dfy` and `RiskyRuns.dfy` which
  configurations hand over safely, `RlResidence.dfy` what lies between two residences in RL,
  `StepOutcome.dfy`, `StepFaults.dfy` and `CommandOutcome.dfy` what one step and one command come
  to, end to end, `SwitchClock.dfy` how long a live switch may take,
  `OrphanedRun.dfy` a concrete configuration that goes wrong.
  `ManagerClass.dfy` is the object with the source's fields and methods, grouped into a few
  records; each method is proved to do what the functions say. `Fsm.dfy` and `Machine.dfy` are
  the mode machine in the same two forms, and `ZeroPose.dfy`, `HomePose.dfy` and
  `SafetyRelease.dfy` the mode states, with the times of their moves in `PoseOutcome.dfy`.
* **RL mode.** `RlPipeline.dfy` is the protocol between control and inference thread: every
  block under a lock, and every single copy into or out of a shared buffer, is one step, and the
  theorems hold for all interleavings. `RlRounds.dfy` follows whole control runs and inferences.
  `RlOutput.dfy` shapes the output.
* **Trajectories and handoff.** `Player.dfy` and `JointTrajectory.dfy` (whole-robot playback),
  `Takeover.dfy` and `TakeoverAdapter.dfy` (selected joints inside RL, over whole inferences in
  `TakeoverRuns.dfy`), `Handoff.dfy` (reference playback), `Stance.dfy` and `StanceAdapter.dfy`
  (stance and motion models, over whole inferences with gestures in `GestureRuns.dfy`), with the
  easing polynomials in `Curves.dfy`. The first file of each pair holds the meaning and the
  theorems, the second the class. `PlayerOutcome.dfy`, `TakeoverOutcome.dfy` and
  `StanceOutcome.dfy` say what one request and one tick come to in frames, positions and times.
* **Motion planner.** `Planner.dfy` (worker protocol), `PlannerRounds.dfy` (from a command to its
  motion) and `PlannerMotion.dfy` (resampling, blending).
* **Logger.** `LogQueue.dfy`, `LogQueueInvariant.dfy`, `LogQueueTheorems.dfy`, `LogQueueCalls.dfy`,
  `LogQueueDrain.dfy` (bounded queue and lock-free reserve slots), `TelemetryRing.dfy`, `Csv.dfy`,
  `CsvLines.dfy`.
* **Clients.** `Descriptor.dfy` and `DescriptorBytes.dfy` (HID report descriptors), `Ramp.dfy`
  (velocity ramp, both implementations).

Some claims one would make of the code do not hold in full, and are settled exactly.

* A live handoff can happen without the running policy's consent
  (`ManagerTheorems.RequestExact` at the request, `RiskyRuns.SafeByConfiguration` by configuration,
  `OrphanedRun.UnsafeHandoff`).
* A policy of another switch group can take over while RL runs, by a chain that was accepted
  before RL, although src/operator_service/README.md (line 100) has policies of the same group
  only (`SwitchGroups.GroupsByConfiguration`, `OrphanedRun.LeavesGroup`).
* A trajectory player that was never reset can leave its limits (`Player.FreshExactly`).
* The takeover weight differs from the gain for a clip that ends without a blend-out time
  (`Takeover.WeightIsGain`), and can rise at a repeated cancel if late inferences are discarded
  (`TakeoverRuns.WeightNeverRisesExactly`).
* Rows of a lone empty field are printed as nothing (`Csv.AgreeExactly`).
* An idle planner may have been told to walk, in steps within its tolerance
  (`Planner.IdleStandsExactly`); what its idleness does mean is `Planner.IdleIsCurrent`.
* The tracked reference can jump when a planned motion is published after its start
  (`PlannerMotion.ContinuesExactly`, `PlannerMotion.NeverJumpsExactly`).
* The black-box ring can drop a row that would still fit when rows are queued out of order
  (`TelemetryRing.RingExactly`).

`dafny verify dfyconfig.toml` checks everything.

## Model

| member | source | states |
|---|---|---|
| ManagerTheorems.LiveHandoff | src/behavior_manager/behavior_manager.cpp:409-432 | For every run of API calls and every environment: unless some chain request was refused while an older switch was pending, each installation in RL happened with the running policy ready and no latched fault. |
| ManagerTheorems.GroupedLiveHandoff | src/behavior_manager/behavior_manager.cpp:1184-1248 | If every prerequisite shares its target's switch group, that holds of every run without exception. |
| ManagerTheorems.RequestExact | src/behavior_manager/behavior_manager.cpp:1206-1247 | Call by call: a policy request made in RL leaves a pending policy without a running switch exactly if it is refused because its prerequisite is outside the group while another policy is already pending. |
| ManagerTheorems.SafeExactlyIfNeverOrphaned | src/behavior_manager/behavior_manager.cpp:1223-1227 | The exact condition: a valid configuration hands over safely in all its runs if and only if none of its runs takes that branch while another switch is pending. |
| RiskyRuns.SafeByConfiguration | src/behavior_manager/behavior_manager.cpp:1196-1247 | The exact condition, on the configuration alone: all installations in RL of all runs are agreed and free of faults, if and only if there are no two policies of one group of which the first is selectable with its prerequisite outside the group, and the second can run and leave a third one pending. |
| RiskyRuns.RiskIsUnsafe | src/behavior_manager/behavior_manager.cpp:1219-1247 | Every other configuration has a run, built from power-on, that hands over in RL without the running policy's consent: reached directly, by a request, by a chain or by a return policy, with a request, a chain, a catalog action or a return pending. |
| HandoffByConfig.GroupedIsSafe | src/behavior_manager/behavior_manager.cpp:1219-1228 | In particular with every selectable policy's prerequisite in its own group; one condition for agreed handoffs and for staying in the group. |
| ManagerTheorems.OrphanIsUnsafe | src/behavior_manager/behavior_manager.cpp:379-432 | Each run that takes that branch can be continued, by quiet ticks alone, to an installation that the running policy never agreed to. |
| OrphanedRun.UnsafeHandoff | src/behavior_manager/behavior_manager.cpp:1223-1227 | A concrete valid configuration and run in which a policy is handed over in RL without the running policy's consent. |
| ManagerTheorems.FaultConfined | src/behavior_manager/behavior_manager.cpp:1007-1023 | After every API call a latched fault means POWER_OFF or SAFETY, and it carries the newest sequence. |
| ManagerTheorems.SequencesIncrease | src/behavior_manager/behavior_manager.cpp:597-609 | Over a whole run the sequences of latched faults strictly increase. |
| ManagerTheorems.LatchesExactly | src/behavior_manager/behavior_manager.cpp:611-645 | Exactly when the observations of a cycle latch a new fault: a new active root cause, a recurrence after inactivity, or a latched one with nothing latched; otherwise the sequence stays. |
| ManagerTheorems.ClearedExactly | src/behavior_manager/behavior_manager.cpp:647-677 | The latch is cleared by one kind of call only: an acknowledgement in POWER_OFF with the present nonzero sequence, not repeated, with the condition and the driver's fault inactive; and that call always clears it. |
| ManagerTheorems.AcknowledgedStaysSilent | src/behavior_manager/behavior_manager.cpp:497-521 | After an acknowledgement the driver's still latched report stays silent exactly if it carries a sequence and is the fault that was acknowledged now or before. |
| ManagerTheorems.SafetyEnds | src/behavior_manager/states/state_safety.cpp:72-113 | Whatever is called, SAFETY has been left for POWER_OFF once all ticks but one add up to the release time, with tick lengths bounded below. |
| ManagerTheorems.EventInSafety | src/behavior_manager/behavior_manager.cpp:1007-1023 | What one API call does to a running release: nothing but a tick touches it, a tick advances it by its length, and the tick after it has finished leads to POWER_OFF. |
| ManagerTheorems.ChainTakesItsTime | src/behavior_manager/behavior_manager.cpp:1131-1145 | In every run the chain moves on to its target only after the configured prerequisite policy has run for its full duration within one uninterrupted RL residence. |
| ManagerTheorems.LeavingForcesReinstall | src/behavior_manager/behavior_manager.cpp:1113-1129 | The step that leaves RL voids the policy runtime and the residence. |
| RlResidence.ReturnNeedsInstallation | src/behavior_manager/behavior_manager.cpp:1113-1129 | In every run a policy is installed between leaving RL and being in RL again, outside HOME and ZERO, so that ZERO has to settle for it. |
| RlResidence.EntryStartsClocks | src/behavior_manager/behavior_manager.cpp:1118-1132 | The step that enters RL starts the residence with its own length, and the chain's timer counts within it. |
| ManagerTheorems.BackgroundNeverBlocks | src/behavior_manager/behavior_manager.cpp:340-456 | In every run no preparation or retirement is started while its predecessor is still running, a running preparation and a prepared policy never coexist, and the active policy is the one of the last installation, which was the pending one at that moment. |
| ManagerTheorems.GateToMotion | src/behavior_manager/behavior_fsm.cpp:108-176 | In every run each entry to RL or TRAJECTORY comes from ZERO after a settled block, and the change before it went from HOME to ZERO. |
| ManagerTheorems.ReadyBeforeRl | src/behavior_manager/behavior_manager.cpp:1062-1076 | In HOME and ZERO of a robot with RL the requested policy is installed and no preparation is outstanding. |
| ManagerInvariant.RunHolds | src/behavior_manager/behavior_manager.cpp:971-1262 | The joint invariant over mode, pending and active policy, running switch, preparation, chain timer and fault desk holds after every run. |
| ManagerInvariant.StepKeeps | src/behavior_manager/behavior_manager.cpp:971-1173 | One control step keeps it, whatever sensors, inference and background work do. |
| ManagerInvariant.CommandKeeps | src/behavior_manager/behavior_manager.cpp:1184-1248 | One command keeps it, catalog actions and policy requests included. |
| ManagerInvariant.AcknowledgeKeeps | src/behavior_manager/behavior_manager.cpp:1250-1262 | One acknowledgement keeps it. |
| ManagerInvariant.InstallIsSafe | src/behavior_manager/behavior_manager.cpp:416-432 | Under the invariant an installation is of the pending policy, and in RL it waits for the running policy to agree, unless a switch was orphaned. |
| ManagerInvariant.SwitchFlat | src/behavior_manager/behavior_manager.cpp:1206-1247 | A policy request never weakens the invariant silently: a refusal outside the group that leaves an older switch pending is on record. |
| ManagerCatalog.CatalogShowsTheTruth | src/behavior_manager/behavior_manager.cpp:294-338 | In every run the catalog's entry policy or one of its actions is active, a started action is one of the entry's, and an action shown as playing is the policy that runs. |
| ManagerCatalog.ActiveStaysInGroup | src/behavior_manager/behavior_manager.cpp:258-268 | Unless a chain has moved on to a target of another group, no call of any run changes the active policy in RL to one of another switch group. |
| ManagerCatalog.GroupedStaysInGroup | src/behavior_manager/behavior_manager.cpp:1131-1145 | With prerequisites in the group of their targets this holds of every run and every call. |
| ManagerCatalog.ChainsInRlShareGroup | src/behavior_manager/behavior_manager.cpp:1219-1232 | Chains accepted in RL never cross groups; only those accepted in POWER_OFF or DAMP, where groups are not compared, can. |
| SwitchGroups.GroupsByConfiguration | src/behavior_manager/behavior_manager.cpp:1131-1145 | The exact condition, on the configuration alone: in all runs the active policy stays in its group while RL runs, if and only if there is no RL state or every selectable policy has its prerequisite in its own group. |
| SwitchGroups.GroupedRequestsStay | src/behavior_manager/behavior_manager.cpp:1196-1247 | The same at the request: a run that accepts chains only to policies whose prerequisite shares their group never leaves the group of the active policy while RL runs. |
| SwitchGroups.ChainsWereAsked | src/behavior_manager/behavior_manager.cpp:1219-1234 | In every run a waiting chain, and each chain that has moved on, was accepted at a request; nothing else begins one. |
| SwitchGroups.ChainLeavesGroup | src/behavior_manager/behavior_manager.cpp:1219-1234 | For each selectable policy with a prerequisite in another group, and whatever else is configured, a run through POWER_OFF, DAMP, HOME and ZERO leads to an out-of-group handover in RL. |
| ManagerCatalog.ActionHeardOnce | src/behavior_manager/behavior_manager.cpp:294-338 | A catalog request that is repeated every frame is heard once: the second time nothing at all changes. |
| ManagerCatalog.RefusedActionIsHarmless | src/behavior_manager/behavior_manager.cpp:294-338 | A refused catalog request changes neither the handoff nor the preparation nor what the catalog is doing; only its status tells of the refusal, and a running action stays shown. |
| ManagerCatalog.VerdictIsHonest | src/behavior_manager/behavior_manager.cpp:1196-1247 | The verdict on a policy request tells the truth: ready means it runs with nothing else pending, preparing that it or its prerequisite is pending, refused that pending policy, chain and preparation are as before. |
| ManagerCatalog.CrossingIsUnsafe | src/behavior_manager/behavior_manager.cpp:1131-1145 | Every run in which a chain crosses groups can be continued, by quiet ticks alone, to a handover in RL to a policy of another group. |
| OrphanedRun.LeavesGroup | src/behavior_manager/behavior_manager.cpp:1131-1145 | A concrete valid configuration and run in which RL hands over to a policy of another switch group. |
| ManagerTheorems.QuietArrives | src/behavior_manager/behavior_manager.cpp:409-432 | From any RL state with another policy pending, quiet ticks lead to its installation; it is agreed exactly if a switch is under way. |
| StepFaults.StepLatchesExactly | src/behavior_manager/behavior_manager.cpp:547-645 | What one control step latches when nothing is latched: exactly a reported fault, with its source, code and native number, the first active one of driver, monitor and RL state or else the driver's latched one; the robot is then in SAFETY or POWER_OFF. The monitor reports invalid data in every mode, and tilt or spin of a floating base outside POWER_OFF. |
| StepFaults.StepFollowsReports | src/behavior_manager/behavior_manager.cpp:611-645 | A fault that is latched stays latched through every step, and is shown as active exactly while an active one is reported. |
| StepFaults.RunTroubleLatches | src/behavior_manager/behavior_manager.cpp:1007-1023 | A fault that the RL state runs into during the step itself is latched by it with its code, and the robot is in SAFETY. |
| StepOutcome.KeysLeadExactly | src/behavior_manager/behavior_fsm.cpp:153-176 | In every run without an orphaned switch a step without faults leads from each mode exactly where its key says: HOME to ZERO once the move is done, ZERO to motion once settled, DAMP to HOME only with the requested policy ready. |
| StepOutcome.InstalledExactly | src/behavior_manager/behavior_manager.cpp:409-432 | A step without faults installs the pending policy exactly if it has been prepared, the one before it is retired, and a live switch is neither stopped nor still waiting for the running policy. |
| StepOutcome.PreparedExactly | src/behavior_manager/behavior_manager.cpp:409-432 | What becomes of a prepared policy in a step: it waits for a retirement, then for the agreement of the running policy, and is otherwise installed or retired at once. |
| StepOutcome.LaunchedExactly | src/behavior_manager/behavior_manager.cpp:340-370 | With nothing under way a step launches the preparation of the pending policy exactly if one is due: in POWER_OFF and DAMP until it is ready, in RL for a policy that does not run, and never again after a failure; a failed launch fails the request. |
| StepOutcome.CollectedExactly | src/behavior_manager/behavior_manager.cpp:434-482 | A finished job is kept exactly if its policy is still wanted, and retired otherwise; a failed one fails the request for it. |
| StepOutcome.VerdictExactly | src/behavior_manager/behavior_manager.cpp:1057-1061 | When a request becomes ready: as soon as its policy runs with nothing outstanding, in RL not before its chain has moved on. |
| StepOutcome.EndedIsRefused | src/behavior_manager/behavior_manager.cpp:985-1000 | A request whose live switch ends with a fault, a stop key or its clock is refused, and the policy that ran stays. |
| StepOutcome.ChainAdvancesExactly | src/behavior_manager/behavior_manager.cpp:1131-1145 | A waiting chain whose prerequisite runs undisturbed moves on exactly in the step that completes its time, as a live switch with a clock of its own. |
| StepOutcome.ReturnsExactly | src/behavior_manager/behavior_manager.cpp:1146-1161 | Where a policy that has ended goes: an action to its entry policy, any other to its return policy, once; otherwise nothing changes. |
| StepOutcome.InstallShows | src/behavior_manager/behavior_manager.cpp:379-407 | What an installation in RL shows in the catalog: the entry policy ends the action, the action's policy plays it and is told to begin, any other brings its own entry. |
| StepOutcome.SwitchStands | src/behavior_manager/behavior_manager.cpp:1001-1003 | No step of a live switch lets the robot walk. |
| StepOutcome.LeavingEndsAll | src/behavior_manager/behavior_manager.cpp:1113-1173 | What every step that leaves RL leaves behind: no action, the entry policy wanted, preparing allowed again, and in POWER_OFF no chain. |
| StepOutcome.StartupExactly | src/behavior_manager/behavior_manager.cpp:1077-1098 | The start-up of a fixed base presses its way from POWER_OFF to TRAJECTORY, one mode a step and each as soon as the one before is done; it waits for sensor data and ends on arrival or with any key. |
| SwitchClock.SwitchKeptExactly | src/behavior_manager/behavior_manager.cpp:985-1000 | In every run: a live switch, begun by a request, a chain, a catalog action, a chain that moves on or a policy that ends, is given up by a step without faults or keys exactly if it comes more than the switch timeout after the call that began it. |
| SwitchClock.GivenUpExactly | src/behavior_manager/behavior_manager.cpp:985-1000 | The same for one step from any state, with the verdict that a given-up switch leaves. |
| CommandOutcome.RequestAnswered | src/behavior_manager/behavior_manager.cpp:1184-1247 | The verdict of every policy request and the whole handoff after it, a repeated one asking for nothing: who may ask, what is active already, which prerequisite is outside the group, what becomes pending, and when the clock of a live switch starts. |
| CommandOutcome.ActionAnswered | src/behavior_manager/behavior_manager.cpp:294-338 | The answer to every catalog request: what starts, what is cancelled at or away from the entry policy, what is refused and what is shown for it. |
| ManagerClass.Drive | src/behavior_manager/behavior_manager.cpp:971-1262 | A controller object that is called in any order is in the state of that run, so all theorems about runs hold of it. |
| ManagerClass.BehaviorManager.Step | src/behavior_manager/behavior_manager.cpp:971-1173 | The control step, field by field, comes to the state the theorems are about. |
| ManagerClass.BehaviorManager.SetCommand | src/behavior_manager/behavior_manager.cpp:1184-1248 | Commands: the catalog first, then edge detection, then the policy request. |
| ManagerClass.BehaviorManager.SwitchPolicy | src/behavior_manager/behavior_manager.cpp:1196-1247 | A policy request: admission, a policy that is already active, the prerequisite chain, a direct switch. |
| ManagerClass.BehaviorManager.Schedule | src/behavior_manager/behavior_manager.cpp:1219-1247 | Chain or direct switch, on the fields; a chain outside the group is refused and keeps the older pending policy. What is scheduled and when its clock starts is CommandOutcome.RequestAnswered. |
| ManagerClass.BehaviorManager.AcknowledgeFault | src/behavior_manager/behavior_manager.cpp:1250-1262 | Acknowledgement with duplicate suppression and the memory of an acknowledged driver fault. |
| ManagerClass.BehaviorManager.ResolveObservedFaults | src/behavior_manager/behavior_manager.cpp:611-645 | Picks root cause, first active and first latched observation by scanning, and latches accordingly. |
| ManagerClass.BehaviorManager.First | src/behavior_manager/behavior_manager.cpp:611-645 | The scan stops at the first observation with a property, or finds that there is none. |
| ManagerClass.BehaviorManager.Observe | src/behavior_manager/behavior_manager.cpp:976-983 | All observations of a cycle in order, on the fields: driver, safety monitor, present state. What they are is StepFaults.StepLatchesExactly. |
| ManagerClass.BehaviorManager.HandlePolicyAction | src/behavior_manager/behavior_manager.cpp:294-338 | Catalog actions: who hears a request, what starts, what is cancelled, what is refused. |
| ManagerClass.BehaviorManager.StartPolicyPreparation | src/behavior_manager/behavior_manager.cpp:340-370 | A preparation is launched only if none is running, none is waiting and there is a name; a launch can fail. |
| ManagerClass.BehaviorManager.InstallPreparedPolicy | src/behavior_manager/behavior_manager.cpp:379-407 | The installation: both states exchanged, timer zero, catalog informed, the old policy retired; records what the running policy had agreed to. |
| ManagerClass.BehaviorManager.PollPolicyPreparation | src/behavior_manager/behavior_manager.cpp:409-482 | One look at the background work, from a pending retirement to a failed job. |
| ManagerClass.StepKeepsWired | src/behavior_manager/behavior_manager.cpp:409-482 | A running preparation always has its job and a catalog in use is configured, so nothing is read that is not there. |
| Fsm.StepKeepsSound | src/behavior_manager/behavior_fsm.cpp:108-120 | One step of the mode machine keeps its journal lawful and connected. |
| Fsm.CheckIsLawful | src/behavior_manager/behavior_fsm.cpp:153-176 | Every change of mode that a transition rule asks for is lawful: motion only from a settled ZERO, ZERO only from HOME, SAFETY only to POWER_OFF. |
| Machine.FSM.Step | src/behavior_manager/behavior_fsm.cpp:108-120 | Transition check, change of mode, run of the state that is then present. |
| Machine.FSM.SwitchTo | src/behavior_manager/behavior_fsm.cpp:153-176 | Leaving one state and entering another; an unregistered state is not entered. |
| Machine.FSM.ForceSwitch | src/behavior_manager/behavior_fsm.cpp:122-134 | A forced change of mode does nothing if the mode is already there. |
| ZeroPose.FinishedIffSettled | src/behavior_manager/states/state_zero.cpp:166-178 | ZERO reports "settled" if and only if the visit contained, after the interpolation, a contiguous block of runs within tolerance that lasted the settle time up to the slack. |
| ZeroPose.StateZero.Run | src/behavior_manager/states/state_zero.cpp:66-99 | One run of ZERO: position, velocity, clock and readiness. |
| ZeroPose.StateZero.Interpolate | src/behavior_manager/states/state_zero.cpp:77-97 | The loop over the joints, in the polynomial form of the source, gives the quintic positions and their velocities. |
| ZeroPose.StateZero.MeasurePose | src/behavior_manager/states/state_zero.cpp:133-164 | The largest position error and speed over all joints, attained by some joint, if all readings are usable. |
| ZeroPose.TargetBetween | src/behavior_manager/states/state_zero.cpp:66-99 | Every ZERO target lies between the start and the reference pose. |
| ZeroPose.VelocityIsSlope | src/behavior_manager/states/state_zero.cpp:66-99 | The commanded velocity is the slope of the commanded position at every time, past the end of the move included: they agree up to a multiple of the squared time step. |
| ZeroPose.StateZero.OnEnter | src/behavior_manager/states/state_zero.cpp:36-64 | ZERO continues from a target that is being held, restores the gains and clears the torques. |
| HomePose.TargetInLimits | src/behavior_manager/states/state_home.cpp:56-107 | Whatever was measured and however the clock moved, every HOME target lies between the start of the visit and the default pose, and within every configured limit. |
| HomePose.StiffnessRises | src/behavior_manager/states/state_home.cpp:77-107 | The HOME stiffness starts from zero, never falls with time and never exceeds the configured one. |
| HomePose.StateHome.OnEnter | src/behavior_manager/states/state_home.cpp:56-75 | HOME starts from the measured pose pulled into the limits, with zero stiffness; a pose of the wrong size commands nothing. |
| HomePose.StateHome.Run | src/behavior_manager/states/state_home.cpp:77-107 | One run of HOME: gain ramp, move, hold. |
| SafetyRelease.ShareFalls | src/behavior_manager/states/state_safety.cpp:72-105 | While time passes the applied gains only fall, stay between zero and the entry gains, and are zero exactly when the release has finished. |
| SafetyRelease.StateSafety.OnEnter | src/behavior_manager/states/state_safety.cpp:46-70 | The release is gradual only from an enabled robot with usable readings and a fault that leaves the joint loop trustworthy. |
| SafetyRelease.StateSafety.Run | src/behavior_manager/states/state_safety.cpp:72-105 | One run of the release: scaled gains or none. |
| PoseOutcome.HomeFinishesExactly | src/behavior_manager/states/state_home.cpp:77-107 | HOME is finished exactly by a run that begins after ramp and move have passed. |
| PoseOutcome.HomeMovesExactly | src/behavior_manager/states/state_home.cpp:77-107 | Stiffness and target of HOME at every time: at rest while the stiffness rises along the quintic, then along the quintic to the default pose. |
| PoseOutcome.SafetyFinishesExactly | src/behavior_manager/states/state_safety.cpp:72-105 | A release is over with its first run, if it must not be gradual, and otherwise exactly with the run that reaches the release time; until then the gains fall in a straight line. |
| RlPipeline.NumbersIncrease | src/behavior_manager/states/state_rl.cpp:222-331 | Under every interleaving the release numbers that inference started with, published, and that were applied strictly increase and never exceed the number of releases. |
| RlPipeline.AppliedIsGenuine | src/behavior_manager/states/state_rl.cpp:506-536 | Every applied action was computed from the untorn sample released under its number, was published within a positive inference deadline, and was within the age limit when applied. |
| RlPipeline.NothingLateIsPublished | src/behavior_manager/states/state_rl.cpp:645-694 | Nothing is published past a positive inference deadline, whether it is ever applied or not; whether a late result is a fault or is discarded is RlRounds.InferenceFaultsExactly and RlRounds.NothingIsLost. |
| RlPipeline.CommandLease | src/behavior_manager/states/state_rl.cpp:271-305 | A control run that passes without a fault went by a publication within its age limit, or was within the time for the first one, unless a newer one replaced it meanwhile; a busy publisher does not renew the lease. |
| RlPipeline.EntryProgress | src/behavior_manager/states/state_rl.cpp:441-456 | However control ticks sampled the publications, the entry transition has progressed by the policy period per applied action, up to its duration. |
| RlPipeline.FaultTriggers | src/behavior_manager/states/state_rl.cpp:866-884 | A fault that is recorded has triggered the change of mode, or does so with the next step of the thread that recorded it. |
| RlPipeline.FaultStopsControl | src/behavior_manager/states/state_rl.cpp:341-357 | Once a fault has triggered and the present run has ended, nothing is released, applied or blended any more, whatever either thread does. |
| RlPipeline.FaultEndsRun | src/behavior_manager/states/state_rl.cpp:194-221 | A fault that triggers in the middle of a control run leaves it at most one action to put out and one sample to release. |
| RlPipeline.RunHolds | src/behavior_manager/states/state_rl.cpp:194-339 | The invariant of the two threads and their two shared buffers holds under every interleaving. |
| RlRounds.ControlRun | src/behavior_manager/states/state_rl.cpp:194-339 | One whole control run that nothing disturbs: the fault it ends with, whether a sample is released and under which number, and the one action it applies. |
| RlRounds.ReleasesKeepBeat | src/behavior_manager/states/state_rl.cpp:222-262 | However control periods vary, samples are released on the beat of the policy period: in every run with one policy period the time kept since the last release is the counted control time less whole periods. |
| RlRounds.PeriodStep | src/behavior_manager/states/state_rl.cpp:222-262 | A run releases a sample exactly if the policy period has passed, and keeps the remainder. |
| RlRounds.InferenceRun | src/behavior_manager/states/state_rl.cpp:500-700 | One whole inference that nothing disturbs: what it starts with, and whether it publishes, is discarded as late, or ends with InferenceTimeout, InvalidData or InternalError. |
| RlRounds.InferenceRestsExactly | src/behavior_manager/states/state_rl.cpp:504-515 | When a step of the inference thread changes nothing. |
| RlRounds.InferenceFaultsExactly | src/behavior_manager/states/state_rl.cpp:619-674 | The exact steps at which the inference thread records each of its faults, in terms of clock, release time and outcome. |
| RlRounds.NothingIsLost | src/behavior_manager/states/state_rl.cpp:619-694 | In every run each started inference has been published or was discarded as late and past its deadline; without discarding every started inference was published while inference waits for a sample. |
| PoseOutcome.EntryBlendsExactly | src/behavior_manager/states/state_rl.cpp:441-456 | The entry transition weighs the raw target with the square of the share of its time that has passed. |
| PoseOutcome.GainsBlendExactly | src/behavior_manager/states/state_rl.cpp:458-468 | So do the gains of a live handoff; without one the configured gains apply at once. |
| RlOutput.BlendedBetween | src/behavior_manager/states/state_rl.cpp:441-456 | Every blended joint lies between its entry position and its raw target, starts at the former and ends at the latter. |
| RlOutput.GainsBetween | src/behavior_manager/states/state_rl.cpp:458-468 | Handoff gains stay between the gains at entry and the configured ones. |
| RlOutput.ElapsedIsCredited | src/behavior_manager/states/state_rl.cpp:441-456 | The transition clock of the output code is the one of the two-thread protocol. |
| RlOutput.Clamped | src/behavior_manager/states/state_rl.cpp:470-488 | The clamped target keeps every limit with its margin and leaves alone what was within. |
| RlOutput.StateRl.ApplyEntryTargetTransition | src/behavior_manager/states/state_rl.cpp:441-456 | The in-place blend of the target towards the raw action. |
| RlOutput.StateRl.ApplyHandoffGains | src/behavior_manager/states/state_rl.cpp:458-468 | The in-place blend of both gain vectors in a live handoff. |
| RlOutput.StateRl.ClampTargetPosition | src/behavior_manager/states/state_rl.cpp:470-488 | Accepts exactly the targets of the right size with finite joints, or anything without limits, and clamps in place. |
| Player.ReturnVelocityBound | src/behavior_manager/joint_trajectory.cpp:249-274 | From the tick that enters BLEND_OUT until the one that finishes it, any two ticks move every joint by at most the permitted speed times the time between them, whatever is requested meanwhile, repeated cancels included. |
| Player.CancelVelocityBound | src/behavior_manager/joint_trajectory.cpp:181-190 | The first tick after a cancel also stays within the permitted speed of the last output before it. |
| Player.ReturnIsOnePath | src/behavior_manager/joint_trajectory.cpp:219-285 | Until it has finished, a return follows the one path fixed when it was entered. |
| Player.TargetsStayInLimits | src/behavior_manager/joint_trajectory.cpp:163-285 | From a pose within limits at the clips' joints, every output of any sequence of Reset, Request and Apply is within limits if all given poses and frames are. |
| Player.FreshExactly | src/behavior_manager/joint_trajectory.cpp:149-158 | A player that has never been reset starts from the zero pose: it keeps all limits in all runs exactly if zero is allowed at every clip joint, or if nothing is blended. |
| Player.FreshEscapes | src/behavior_manager/joint_trajectory.cpp:149-158 | Otherwise a run of at most three calls puts out zero where it is not allowed. |
| Player.CallsKeepValid | src/behavior_manager/joint_trajectory.cpp:163-285 | A clip is active exactly in the four busy phases, after every call. |
| Player.OthersKeepInput | src/behavior_manager/joint_trajectory.cpp:219-285 | Joints outside the active clip keep their input. |
| Player.EntryStartsReturn | src/behavior_manager/joint_trajectory.cpp:242-259 | The tick that enters the return, after a cancel or at the natural end, fixes a duration that is long enough for every joint. |
| PlayerOutcome.ShowsFrames | src/behavior_manager/joint_trajectory.cpp:93-107 | Playback runs in straight lines through all frames of the clip, from the first to the last, each at its time. |
| PlayerOutcome.ActionShows | src/behavior_manager/joint_trajectory.cpp:163-285 | From its accepted start until it is over, an action shows what the time since its start says, whatever the times of the ticks and their inputs: the eased blend from the pose at the start, then its frames, then the last one held. |
| PlayerOutcome.EntryTick | src/behavior_manager/joint_trajectory.cpp:219-285 | A tick of the blend-in: the output between the captured pose and the first frame, by the eased share of the time passed. |
| PlayerOutcome.RunningTick | src/behavior_manager/joint_trajectory.cpp:219-285 | A tick of a running clip: the frame of its time, the last frame while it is held, or a return that begins from the last frame with a duration of its own. |
| PlayerOutcome.ReturnTick | src/behavior_manager/joint_trajectory.cpp:249-285 | A tick of a return: over exactly when its time has passed, with the input put out, and between source and input before. |
| PlayerOutcome.ReturnTimeExactly | src/behavior_manager/joint_trajectory.cpp:249-259 | That time is the configured one or what the joint with the longest way needs at the permitted speed, whichever is longer. |
| Curves.QuinticSlope | src/behavior_manager/joint_trajectory.cpp:251-266 | The quintic never falls and never rises faster than 15/8 on the unit interval, which the return duration relies on. |
| JointTrajectory.Player.Request | src/behavior_manager/joint_trajectory.cpp:173-217 | Start, cancel and refusal of requests, on the fields. |
| JointTrajectory.Player.Apply | src/behavior_manager/joint_trajectory.cpp:219-285 | One tick, in place on the target vector. |
| JointTrajectory.Player.MeasureReturn | src/behavior_manager/joint_trajectory.cpp:250-259 | The loop that stretches the return until no joint is too fast. |
| JointTrajectory.Player.Reset | src/behavior_manager/joint_trajectory.cpp:163-171 | Reset, with the dimension check. |
| JointTrajectory.StateTrajectory.Run | src/behavior_manager/states/state_trajectory.cpp:38-43 | TRAJECTORY hands the request to the player and starts every tick from the ready pose. |
| JointTrajectory.PlacedExactly | src/behavior_manager/joint_trajectory.cpp:268-281 | Writing joints one by one gives exactly the pose with these joints replaced. |
| Takeover.WeightIsGain | src/behavior_manager/policy_adapter/joint_trajectory_policy_adapter.cpp:179-192 | The weight shown before inference equals the gain left by OnAction at the same time if and only if it is not a clip without blend-out time that ends in this very tick. |
| Takeover.GainNeverRises | src/behavior_manager/policy_adapter/joint_trajectory_policy_adapter.cpp:401-511 | From the start of a return until it is over the gain never rises, cancelled again or not, and the weight shown never exceeds the gain left by an earlier action. |
| Takeover.EndStartsFading | src/behavior_manager/policy_adapter/joint_trajectory_policy_adapter.cpp:445-456 | A clip that ends by itself starts such a return at full weight, or without a blend-out time is over at once. |
| TakeoverRuns.WeightNeverRisesExactly | src/behavior_manager/states/state_rl.cpp:560-617 | The exact condition for each return: in all runs of whole inferences the weight shown never rises, if and only if late inferences are never discarded or no weight is left. |
| TakeoverRuns.RisesExactly | src/behavior_manager/policy_adapter/joint_trajectory_policy_adapter.cpp:401-415 | From one inference of a return to the next the weight shown rises if and only if the next one cancels again and discarded inferences had lowered the weight since the last composed action. |
| TakeoverRuns.KeptNeverRises | src/behavior_manager/policy_adapter/joint_trajectory_policy_adapter.cpp:401-415 | With no inference discarded it never rises until the return is over, repeated cancels included. |
| TakeoverRuns.LateRunRises | src/behavior_manager/states/state_rl.cpp:613-617 | With discarding, every return with weight left has a run of three inferences in which the weight rises. |
| TakeoverRuns.CancelSettles | src/behavior_manager/policy_adapter/joint_trajectory_policy_adapter.cpp:401-415 | A cancel whose inference is kept begins a return in which gain and weight agree. |
| Takeover.WeightUnit | src/behavior_manager/policy_adapter/joint_trajectory_policy_adapter.cpp:179-192 | The weight is a share, and in BLEND_OUT at most the weight the return started with. |
| Takeover.OthersKeepAction | src/behavior_manager/policy_adapter/joint_trajectory_policy_adapter.cpp:417-511 | Actions outside the clip are the policy's own, and so is everything in the tick that ends the return. |
| Takeover.GainsBetween | src/behavior_manager/policy_adapter/joint_trajectory_policy_adapter.cpp:194-204 | Overlaid gains lie between the policy's and the clip's; other joints keep the policy's. |
| Takeover.ComposeKeepsValid | src/behavior_manager/policy_adapter/joint_trajectory_policy_adapter.cpp:417-511 | Composition keeps weights in the unit interval and a clip active exactly in the busy phases. |
| TakeoverOutcome.NormalizedExactly | src/behavior_manager/policy_adapter/joint_trajectory_policy_adapter.cpp:386-390 | A value of the action is the normalized form of a position exactly if value times scale plus centre is that position. |
| TakeoverOutcome.ActionShows | src/behavior_manager/policy_adapter/joint_trajectory_policy_adapter.cpp:77-173 | From its accepted start until it is over, an action of the takeover shows, in joint positions and over whole inferences, what the time since its start says, whatever the policy puts out meanwhile: the blend from the measured or the last applied pose, then its frames, then the last one held. |
| TakeoverOutcome.FirstPrepared | src/behavior_manager/policy_adapter/joint_trajectory_policy_adapter.cpp:77-158 | What it begins with: from idle a fresh start of a known clip always begins it, from the measured pose at the permitted speed or from the last applied action in the blend-in time. |
| TakeoverOutcome.EntryAction | src/behavior_manager/policy_adapter/joint_trajectory_policy_adapter.cpp:417-436 | An action of the blend-in: in joint positions, between what was captured and the clip's first frame, by the share of the time passed; and the gain it leaves. |
| TakeoverOutcome.RunningAction | src/behavior_manager/policy_adapter/joint_trajectory_policy_adapter.cpp:437-511 | An action of a running clip: its value times scale plus centre is the frame of its time, the last frame while that is held, or the start of a return from it; without a blend-out time the action is the policy's at once. |
| TakeoverOutcome.ReturnAction | src/behavior_manager/policy_adapter/joint_trajectory_policy_adapter.cpp:463-494 | An action of a return: over exactly when its time has passed, with the policy's action, and the shares of action and gain before. |
| TakeoverOutcome.ShareIs | src/behavior_manager/policy_adapter/joint_trajectory_policy_adapter.cpp:206-214 | The share of a blend: the share of its time, or eased by the cubic. |
| TakeoverOutcome.EntryMeasured | src/behavior_manager/policy_adapter/joint_trajectory_policy_adapter.cpp:77-105 | A measured entry starts from the measured positions and takes as long as the joint with the longest way needs at the permitted speed; playback begins when it is over. |
| TakeoverOutcome.CancelHeard | src/behavior_manager/policy_adapter/joint_trajectory_policy_adapter.cpp:107-158 | What a fresh cancel comes to: a return from what was applied last, at the present gain, repeated cancels included. |
| TakeoverAdapter.JointTrajectoryPolicyAdapter.HandleInteractionRequest | src/behavior_manager/policy_adapter/joint_trajectory_policy_adapter.cpp:107-158 | Requests, on the fields. |
| TakeoverAdapter.JointTrajectoryPolicyAdapter.PrepareInputs | src/behavior_manager/policy_adapter/joint_trajectory_policy_adapter.cpp:77-105 | The clock and the entry from the measured pose at a limited speed. |
| TakeoverAdapter.JointTrajectoryPolicyAdapter.OnAction | src/behavior_manager/policy_adapter/joint_trajectory_policy_adapter.cpp:160-173 | One action, blended in place. |
| TakeoverAdapter.JointTrajectoryPolicyAdapter.ComposeAction | src/behavior_manager/policy_adapter/joint_trajectory_policy_adapter.cpp:417-511 | The composition with its phase changes, in place on the action vector. |
| TakeoverAdapter.JointTrajectoryPolicyAdapter.BeginBlendOut | src/behavior_manager/policy_adapter/joint_trajectory_policy_adapter.cpp:401-415 | The start of a return, from the last applied action at the present gain. |
| TakeoverAdapter.JointTrajectoryPolicyAdapter.ApplyJointGains | src/behavior_manager/policy_adapter/joint_trajectory_policy_adapter.cpp:194-204 | The gain overlay in place; clips without gains change nothing. |
| Handoff.PositionNeverFalls | src/behavior_manager/policy_adapter/policy_adapter.cpp:112-136 | While the request stays set and time does not decrease, the sampled frame position never falls. |
| Handoff.HandoffCompletes | src/behavior_manager/policy_adapter/policy_adapter.cpp:112-136 | It stays in the cycle of the request, and by that cycle's end shows the last frame and reports ready. |
| Handoff.HeldStaysHeld | src/behavior_manager/policy_adapter/policy_adapter.cpp:104-136 | Once held, the last frame is shown until Reset, even if the request is withdrawn. |
| Handoff.PlaybackExactly | src/behavior_manager/policy_adapter/policy_adapter.cpp:56-136 | What a tick shows without a handoff, at every time: each cycle runs through the frames at the configured rate, rests at the last one for the pause and is ready there; without a loop one pass ends playback. |
| Handoff.MotionClockAgrees | src/behavior_manager/policy_adapter/policy_adapter.cpp:56-98 | The sampled position is the motion's own time over its frame period, cut off at the last frame. |
| Handoff.SamplePlayback | src/behavior_manager/policy_adapter/policy_adapter.cpp:56-98 | A sample exists exactly for valid parameters, and its frame indices are in range. |
| Handoff.ReferenceHandoff.TakeSample | src/behavior_manager/policy_adapter/policy_adapter.cpp:122-136 | One sample, with the flags it leaves. |
| Handoff.ReferenceHandoff.ResetAll | src/behavior_manager/policy_adapter/policy_adapter.cpp:110-110 | Reset clears request and hold; the end time is fixed anew by the next request. |
| Handoff.ReferenceHandoff.RequestSwitch | src/behavior_manager/policy_adapter/policy_adapter.cpp:112-120 | The end of the cycle is fixed when the request appears. |
| Stance.GestureFreezesLegs | src/behavior_manager/policy_adapter/stance_motion_policy_adapter.cpp:142-157 | From any tick that starts with a gesture until a later tick with none and a zero command, every tick selects the stance executor with the stance command and the filter rests at zero. |
| Stance.ReleaseRestartsFilter | src/behavior_manager/policy_adapter/stance_motion_policy_adapter.cpp:142-202 | The tick that ends the freeze still stands, and the filter starts from zero. |
| GestureRuns.GestureBegins | src/behavior_manager/policy_adapter/stance_motion_policy_adapter.cpp:258-277 | Over all runs of whole inferences with the takeover adapter: a gesture begins only by a start that is requested with a zero command, while the filtered velocity is below the thresholds of standing, the stance model is in charge and the stick has been let go since the gesture before. |
| GestureRuns.LegsStand | src/behavior_manager/policy_adapter/stance_motion_policy_adapter.cpp:142-157 | In every run the stance model runs with the stance command in each inference that has a gesture at any time, the one in which it begins included. |
| Stance.RequestsOnce | src/behavior_manager/policy_adapter/stance_motion_policy_adapter.cpp:258-277 | Every fresh request is refused here or handed on, and never heard twice; refused is exactly a start while no gesture is under way and the robot does not stand with the stick let go. |
| Stance.OverrideLasts | src/behavior_manager/policy_adapter/stance_motion_policy_adapter.cpp:204-241 | The neutral override outlives the trajectory's weight by exactly the configured frames less one. |
| Stance.OverrideIsLocal | src/behavior_manager/policy_adapter/stance_motion_policy_adapter.cpp:223-241 | The override touches its own joints only. |
| Stance.StepApproaches | src/behavior_manager/policy_adapter/stance_motion_policy_adapter.cpp:158-169 | The velocity filter never overshoots, takes bounded steps and reaches what is in reach. |
| Stance.ModeMovesByOne | src/behavior_manager/policy_adapter/stance_motion_policy_adapter.cpp:170-201 | The mode changes by at most one level a tick, and running needs the top mode and a running model. |
| StanceOutcome.SelectedExactly | src/behavior_manager/policy_adapter/stance_motion_policy_adapter.cpp:142-202 | Which executor each tick selects, as equivalences in the mode before it and the filtered velocity, with the commanded velocity, the model's name, the filter's step and the next mode. |
| StanceOutcome.CommandIsReached | src/behavior_manager/policy_adapter/stance_motion_policy_adapter.cpp:158-201 | A command that is held is reached within the ticks its way takes, and at most three ticks later the mode fits it and stays. |
| StanceAdapter.StanceMotionPolicyAdapter.SelectExecutor | src/behavior_manager/policy_adapter/stance_motion_policy_adapter.cpp:142-202 | Freeze, filter and routing, on the fields. |
| StanceAdapter.StanceMotionPolicyAdapter.FilterCommand | src/behavior_manager/policy_adapter/stance_motion_policy_adapter.cpp:158-169 | The filter axis by axis, up to the first component that is not finite. |
| StanceAdapter.StanceMotionPolicyAdapter.HandleInteractionRequest | src/behavior_manager/policy_adapter/stance_motion_policy_adapter.cpp:258-277 | What is refused here and what is handed on to the trajectory. |
| StanceAdapter.StanceMotionPolicyAdapter.OnAction | src/behavior_manager/policy_adapter/stance_motion_policy_adapter.cpp:223-241 | History before override before trajectory. |
| Planner.IdleIsCurrent | src/behavior_manager/policy_adapter/sonic_planner.cpp:218-223 | An idle planner shows a motion generated in mode 0 from a command of the present generation, has run to its end, and has seen no change beyond the tolerance since. |
| Planner.PublishedWasRequested | src/behavior_manager/policy_adapter/sonic_planner.cpp:182-201 | What is published was requested, and publications never go back to an older command. |
| Planner.NothingAfterStop | src/behavior_manager/policy_adapter/sonic_planner.cpp:607-712 | Between a stop and the completion of the next reset nothing is published, under every interleaving. |
| Planner.StopIsJoined | src/behavior_manager/policy_adapter/sonic_planner.cpp:714-722 | After a stop every step brings the worker closer to leaving, so that the join ends. |
| Planner.IdleStandsExactly | src/behavior_manager/policy_adapter/sonic_planner.cpp:218-223 | The exact condition: in all runs of a configuration an idle planner has been told to stand still, if and only if the mode is fixed or the tolerance is not positive. |
| Planner.WalksWhileIdle | src/behavior_manager/policy_adapter/sonic_planner.cpp:69-74 | Otherwise a run from construction on leaves the planner idle while it is told to walk, after two changes within the tolerance. |
| Planner.QuietDrift | src/behavior_manager/policy_adapter/sonic_planner.cpp:69-74 | How far commands can drift while each single change stays within the tolerance. |
| Planner.RunHolds | src/behavior_manager/policy_adapter/sonic_planner.cpp:162-222 | The invariant over generations, publications and the worker holds under every interleaving; that generations are answered is PlannerRounds.CommandsAreAnswered. |
| PlannerRounds.CommandsAreAnswered | src/behavior_manager/policy_adapter/sonic_planner.cpp:639-700 | From every state that a run of a planner reaches, running and without a failure, at most seven successful steps of the worker lead to a motion of the present generation, generated from the newest command if one was outstanding. |
| PlannerRounds.ChangeIsAnswered | src/behavior_manager/policy_adapter/sonic_planner.cpp:182-201 | A command that differs from the one before by more than the tolerance gets a new generation, and a few successful steps of a waiting worker later a motion generated from that command is published; any other leaves the worker at rest. |
| PlannerRounds.RestsExactly | src/behavior_manager/policy_adapter/sonic_planner.cpp:639-648 | A waiting worker stays at rest exactly while the present generation is handled and no periodic replan is due; otherwise it takes up the newest command. |
| PlannerRounds.ModeExactly | src/behavior_manager/policy_adapter/sonic_planner.cpp:339-355 | The mode of a command by its speed, or the fixed one. |
| PlannerRounds.FailsExactly | src/behavior_manager/policy_adapter/sonic_planner.cpp:607-712 | The exact steps at which a worker fails or is on its way to it. |
| PlannerMotion.ConvertPlannerOutput | src/behavior_manager/policy_adapter/sonic_planner.cpp:445-541 | Exactly the convertible outputs are accepted; positions are resampled, velocities are forward differences, the last one repeated. |
| PlannerMotion.SourceInRange | src/behavior_manager/policy_adapter/sonic_planner.cpp:465-500 | No output frame reads past the valid frames. |
| PlannerMotion.ResampledWithin | src/behavior_manager/policy_adapter/sonic_planner.cpp:465-500 | No resampled joint leaves the range of the model's values for it. |
| PlannerMotion.BlendWithCurrentMotion | src/behavior_manager/policy_adapter/sonic_planner.cpp:547-605 | The published motion, frame by frame; one that has already ended is published as it is. |
| PlannerMotion.ContinuesExactly | src/behavior_manager/policy_adapter/sonic_planner.cpp:547-605 | The tracked reference goes on without a jump at publication if and only if the motion is published no later than its own start, or the two motions meet there; a motion that has already ended included. |
| PlannerMotion.JumpIsShare | src/behavior_manager/policy_adapter/sonic_planner.cpp:547-605 | Otherwise each joint jumps by the share of the generated motion at that time, which is all of it for one that has ended, times the distance between the two motions. |
| PlannerMotion.NeverJumpsExactly | src/behavior_manager/policy_adapter/sonic_planner.cpp:671-680 | So no generated motion makes it jump if and only if the time from the snapshot to the publication is within the lookahead. |
| PlannerMotion.BlendEnds | src/behavior_manager/policy_adapter/sonic_planner.cpp:547-605 | Every published frame after the blend window is the generated motion's. |
| PlannerMotion.BlendBetween | src/behavior_manager/policy_adapter/sonic_planner.cpp:547-605 | In between every joint lies between the two motions. |
| PlannerMotion.BlendCovers | src/behavior_manager/policy_adapter/sonic_planner.cpp:547-605 | The blended frames reach to the generated motion's end, and not past it unless two frames are forced. |
| LogQueueTheorems.ExactlyOnce | src/logging/runtime_logger.cpp:710-740 | Under every interleaving each preserved record waits in exactly one slot or has reached the writer exactly once, and exactly as it was preserved. |
| LogQueueTheorems.NeverHalfWritten | src/logging/runtime_logger.cpp:728-740 | While the writer reads a slot no producer writes it, and what has been read is the beginning of the preserved text. |
| LogQueueTheorems.OneProducerPerSlot | src/logging/runtime_logger.cpp:710-726 | No two producers ever fill the same slot. |
| LogQueueTheorems.QueueIsBounded | src/logging/runtime_logger.cpp:680-700 | The byte counter is the sum over the queue, both limits hold, and the queue is first in, first out. |
| LogQueueTheorems.CallsEndOnce | src/logging/runtime_logger.cpp:680-700 | Every call on a running logger ends in exactly one of queued, preserved or counted as dropped, and leaves no trace before; in which one is LogQueueCalls.EnqueueExactly. |
| LogQueueTheorems.LossesAreCounted | src/logging/runtime_logger.cpp:680-773 | The drop counter is the number of dropped calls plus the writer's failures, and every trigger that was lost has raised the snapshot flag. |
| LogQueueTheorems.LostOnlyIfAllTaken | src/logging/runtime_logger.cpp:710-726 | Undisturbed, a trigger that finds the queue closed is lost exactly if all eight slots are taken, and then the snapshot flag is set. |
| LogQueueCalls.EnqueueExactly | src/logging/runtime_logger.cpp:680-726 | How every call ends that nothing disturbs: queued exactly if it gets the mutex of a running logger with room in both limits; a trigger that is not queued is preserved exactly if a slot is free, and otherwise the record is dropped and counted, a lost trigger raising the flag; a stopped logger ignores it. |
| LogQueueCalls.OwnerDecides | src/logging/runtime_logger.cpp:686-700 | The same under every interleaving for the step that holds the mutex: the record is appended exactly if there is room, a trigger begins to claim a slot, anything else is counted as dropped. |
| LogQueueCalls.EntryDecides | src/logging/runtime_logger.cpp:680-686 | What a call does at entry: a CSV row waits for the mutex, a trigger that fails to get it claims a slot, any other record is dropped. |
| LogQueueCalls.QueueIsEmptied | src/logging/runtime_logger.cpp:742-773 | A writer that is left alone writes everything that waits in the queue, oldest first. |
| LogQueueCalls.QueuedIsWritten | src/logging/runtime_logger.cpp:742-773 | In every run what has been queued is what was written, then what the writer holds, then what waits, in order. |
| LogQueueDrain.PassDelivers | src/logging/runtime_logger.cpp:728-740 | Under every interleaving a record that was in a full slot when a pass of the writer began has reached the writer when the pass is over, and at the latest after a fixed number of the writer's own steps. |
| LogQueueInvariant.RunHolds | src/logging/runtime_logger.cpp:680-773 | The invariant of producers, slots, queue and writer holds under every interleaving. |
| TelemetryRing.RingExactly | src/logging/runtime_logger.cpp:827-838 | For every history of recorded rows and triggers: the black-box ring is at each moment the longest end of all recorded rows that fits memory and time window, if and only if whatever fits at a moment had room at the moment before. |
| TelemetryRing.StopsOnlyBackwards | src/logging/runtime_logger.cpp:680-685 | That fails only where a time lies before the one recorded previously, as rows stamped before the queue lock was taken can. |
| TelemetryRing.RingIsLongest | src/logging/runtime_logger.cpp:827-838 | So while times do not run backwards, nothing that could still be kept has ever been dropped. |
| TelemetryRing.BackwardsLosesRows | src/logging/runtime_logger.cpp:680-685 | Three rows, the last one stamped before the second, make the ring lose a row that fits. |
| TelemetryRing.EvictIsLongest | src/logging/runtime_logger.cpp:833-838 | Dropping the oldest rows one at a time leaves the longest end that fits. |
| TelemetryRing.IncidentIsUnbroken | src/logging/runtime_logger.cpp:881-911 | An incident file is an unbroken stretch of everything recorded, up to the present, and begins with all that the ring held at the trigger. |
| TelemetryRing.IncidentCoversWindow | src/logging/runtime_logger.cpp:881-911 | With times in order it lacks no row of the time before the trigger that window and memory had room for. |
| TelemetryRing.SummaryIsSpaced | src/logging/runtime_logger.cpp:840-846 | In the continuous record successive rows of a stream are of one frame, at least a period apart, or of a clock that went back. |
| TelemetryRing.MissingExactly | src/logging/runtime_logger.cpp:840-846 | A row is missing there exactly if its sample is NaN or comes less than a period after the last one of its stream in the record; a text that begins with no number counts as zero. |
| TelemetryRing.Recorder.RecordTelemetry | src/logging/runtime_logger.cpp:827-847 | One row: header, eviction loop with its byte counter, incident file, thinned continuous record. |
| TelemetryRing.Recorder.StartCapture | src/logging/runtime_logger.cpp:881-914 | When an incident begins, and what it is given at once. |
| Csv.AgreeExactly | src/logging/runtime_logger.cpp:197-263 | Rows of equal width printed with CsvEscape are analysed as exactly that many records of that many columns if and only if no row is a lone empty field (section 2 of RFC 4180). |
| Csv.RowsAreRecords | src/logging/runtime_logger.cpp:197-263 | In particular with any quotes, commas and line breaks inside the fields. |
| Csv.EscapeRoundTrip | src/logging/runtime_logger.cpp:197-212 | Escaped fields can be read back. |
| Csv.ScanField | src/logging/runtime_logger.cpp:214-263 | Whatever a field contains, its escaped form is scanned as one field. |
| CsvLines.ShapeExactly | src/logging/runtime_logger.cpp:214-263 | For every text: accepted exactly if its rows between line breaks outside quotations are not empty and all have as many fields, with no quotation left open; and then with these rows and fields counted. |
| Csv.CsvEscape | src/logging/runtime_logger.cpp:197-212 | The loop that doubles quotes. |
| Csv.AnalyzeCsv | src/logging/runtime_logger.cpp:214-263 | The loop over the text, with quotation, columns and records. |
| Descriptor.HasDs4Output | clients/gamepad/gamepad_feedback.h:75-103 | Terminates, stays in bounds, never wraps around, and returns true exactly if the short-item stream is well formed, every pop is matched, no output item of report 5 exceeds 248 in size or count, and their bits total 248 (section 6.2.2 of HID 1.11). |
| Descriptor.Interpret | clients/gamepad/gamepad_feedback.h:82-101 | One item keeps the scanner's globals and stack equal to what the recursive meaning of push and pop says. |
| Descriptor.ReadItem | clients/gamepad/gamepad_feedback.h:77-88 | One item is read exactly if it is whole and not a long item. |
| Descriptor.ReadValue | clients/gamepad/gamepad_feedback.h:83-88 | Little-endian values below one machine word. |
| Descriptor.CountOutput | clients/gamepad/gamepad_feedback.h:93-100 | The unsigned comparison against the room that is left decides exactly whether the total stays within 248. |
| DescriptorBytes.StreamRead | clients/gamepad/gamepad_feedback.h:77-88 | Every stream of encoded short items is read back as it was sent, whatever follows it. |
| DescriptorBytes.ReportExactly | clients/gamepad/gamepad_feedback.h:89-103 | A single output report, byte by byte and in every encoding of its items: accepted exactly if its identifier is 5 and size times count is 248. |
| DescriptorBytes.NestedReports | clients/gamepad/gamepad_feedback.h:89-103 | With a second report between a push and its pop the inner items have their own values, the outer ones apply again after it, and the bits of both add up. |
| DescriptorBytes.BrokenIsRefused | clients/gamepad/gamepad_feedback.h:77-82 | A long item, and an item that is cut off, are refused wherever they stand. |
| DescriptorBytes.PopNeedsPush | clients/gamepad/gamepad_feedback.h:94-96 | A pop without a push is refused. |
| DescriptorBytes.ForeignIsIgnored | clients/gamepad/gamepad_feedback.h:89-101 | An item of any other kind in front changes nothing. |
| Ramp.ClientsAgree | clients/web/teleop.js:15-26 | The web client and the gamepad client ramp alike on all values, targets, positive rates and periods. |
| Ramp.AdvanceTwice | clients/gamepad/gamepad_input.h:109-118 | The ramp does not depend on how time is cut into periods, through reversals as well. |
| Ramp.NeverOvershoots | clients/gamepad/gamepad_input.h:109-118 | It never overshoots and never changes faster than the larger rate. |
| Ramp.ReachesInTime | clients/gamepad/gamepad_input.h:109-118 | The target is reached exactly when braking and acceleration time have passed. |

## Left out

- Floating point: all quantities are reals, so rounding, overflow and the exact value of slack
  comparisons are not modelled; values that are not finite appear as `None` where the code tests for them.
- 64-bit counters (sequences, generations, release numbers) are unbounded.
- Memory model: each block under a mutex and each atomic operation is one step of a sequentially
  consistent interleaving; the acquire and release orders themselves are not modelled.
- The two-thread RL protocol, the planner worker and the log hand-off are state machines on values rather than
  classes, because their steps interleave; what runs in one step has no further structure.
- Machine.FSM: holds its states as values instead of replaceable objects, and the robot's output vectors belong to the
  state classes only.
- ManagerClass.BehaviorManager: messages, detail texts, the flags that only suppress repeated messages, the
  cancel-playback flag and the cancelled state of the trajectory are not kept; fields are grouped into records.
- Manager: the interaction status, where the running policy reports its own progress, is taken from the catalog only.
- ManagerTheorems.LatchesExactly: speaks of faults that a step reads; a fault raised between that read and the
  transition check leads to SAFETY without being latched, and the model does the same.
- ManagerClass.BehaviorManager.StartPolicyPreparation: a launch that throws leaves the name of the attempted policy
  behind in the source, which nothing reads; retirements are assumed to be launched without an exception.
- Configuration loading, YAML and NPZ files, path resolution: the checks made there are preconditions.
- POWER_OFF and DAMP have no outputs here; they are edges of the mode graph.
- RlPipeline: sensor and command content is two readings instead of the full sample; inference is an arbitrary result
  or failure; runtime events, traces and frequency counters are left out.
- Takeover.PrepareInputs: a measured position that is not finite, and an entry time derived from one, are not modelled.
- Stance: observation assembly and the executors themselves are external.
- Planner: speeds are compared by their squares instead of with a hypotenuse; the wake-up timer is an arbitrary choice.
- PlannerMotion: root position and orientation, with their quaternions, are left out; joints only.
- LogQueue: records preserved after the writer's last drain at shutdown stay in their slots; the counter's move into
  the health report is not modelled, so the counter is the total.
- TelemetryRing: writing, synchronising and rotating the files, the request file that several processes share, and
  the checks of CSV rows before they are recorded are left out.
- Reference adapters, SONIC, MJLab, ProtoMotions and SuperMimic input layouts: field packing around playback sampling.
- Terminal and web interfaces, voice, audio, device access and the operator service: plumbing, or code of which only a
  header is present.
