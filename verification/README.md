# Chalybs: a verified model

Chalybs starts virtual machines with GPUs and other PCI devices passed through. For each VM
it checks an isolation policy, moves host devices to the vfio-pci driver, provisions
hugepages, reserves CPUs, launches QEMU and pins interrupts; on shutdown it puts the devices
back. A daemon drives any number of VMs, one step per tick, and sends their events to its
clients. This project models that behaviour in Dafny and proves what it keeps.

The host is a map from PCI address to function (class, IOMMU group, NUMA node, driver). The
kernel is an arbitrary oracle that may refuse any write; a refused write changes nothing. A
scan reports functions of the host as they are, but may miss some or fail. Every other
external call (preflight checks, process control, cgroups, hooks) either succeeds or fails
as the environment of the step says, so a statement about all runs covers every pattern of
failures.

Code that changes things in place is modelled by classes, methods and loops, each proved
equal to a specification function or predicate; the theorems are about those.

| file | subject |
|---|---|
| Prelude, Text, Sorting, BucketSort, Config | vocabulary: options, text and number parsing, sorting, the decoded configuration |
| Pci, Isolation, VfioPlan, VfioExecute, VfioVerify, VfioRestore, VfioStaging | the device pipeline: inventory, policy gate, plan, execution with its transition log, verification, restore, and staging as a whole |
| Lifecycle, VmMachine | the fifteen-state machine: its specification, and the object that runs it |
| HostLife | what the state machine does to the host, over every sequence of steps |
| Daemon, DaemonState | ticks, commands, runs, event delivery and progress; the registry of VMs |
| DaemonProgress | what a VM's place in the lifecycle says about its past; how failures are reported |
| DaemonHost | what ticks and commands do to the host, over every run and every incarnation of a VM |
| DaemonHistory | whole histories of the daemon, over any number of VMs that share the host |
| RootPort | PCIe root-port slots |
| IrqWorker | the interrupt-pinning worker |
| CpuList, CpuPlan, HostCpus, Hugepages | CPU list text, NUMA plans, derived host CPUs, hugepage pools |
| Utf8, Framing | decoding of the client's byte stream and its newline framing |

Some results are about what the code does not do:

- A staging that aborts can leave a device without a driver and without a record, so abort
  and restore do not always return to the start (`AbortStrandsDevice`; `AbortRestoreIff` says
  exactly for which devices they do), and no later staging or restore brings its driver back
  (`RetryForgetsDriver`).
- Restore binds without unbinding first. Under a kernel that refuses to bind bound devices it
  moves no device that has a driver, whatever else is on record (`BoundDevicesStayPut`), so
  after a staging that succeeded it brings nothing back (`StagedStaysStaged`), and no run ever
  takes a configured device off vfio-pci (`VfioIsForever`). What it does bring back is a
  device on record that staging left unbound, such as one whose bind to vfio-pci was refused
  (`RecordBeforeBind`, `RefusedBindComesBack`); under a kernel that accepts exactly the writes
  that fit, `HonestRestoreIff` has the exact condition for each device. Under any kernel a
  device that staging moved is back if and only if the restore reports success for it
  (`RestoreReportIff`). The other round-trip statements are about restores none of whose
  writes is refused. A device that had no driver stays on vfio-pci.
- Group viability on the host needs a complete scan (`HiddenMemberDefeatsGate`). Exactly: after
  a staging run a group mate is on vfio-pci if and only if the scan saw it or it was there
  already, so the groups are wholly on vfio-pci if and only if every mate that the scan missed
  was (`HostViableIff`).
- A VM that is wanted up but is in Shutdown, Cleanup or Idle stands still at every tick, and
  so does one in Steady that has lost its QEMU handle (`StandsStillIff`). A comment in
  daemon/src/state.rs:414-418 says that Idle is left on the next tick; the code does not do
  that, and the model follows the code. A stop whose signal fails, followed by a start,
  leads to such a VM, shown as Running (`FailedStopThenStart`); so does a bring-up step that
  fails after LaunchQemu, a failed signal and a start. Exactly: a VM from DetectThreads to
  Steady lacks its handle if and only if a stop of its current incarnation failed
  (`NoHandleIff`).
- `restart` does what `start` does (daemon/src/server.rs:481); it does not stop the VM.
- The completion flag of the interrupt worker, described as a latch in
  core/src/model.rs:87-92, is never set; the model has no such flag.
- Hugepage arithmetic wraps around from mem_mb = 2^44 - 2 on (`OverflowFreeIff`), and the
  wrapped record is too small from 2^44 - 1 on (`CoveredIff`).
- A client's chunk must be UTF-8 by itself, so only ASCII text survives every way of cutting
  the stream (`CutAnywhereIff`).

## Model

| member | source | states |
|---|---|---|
| Pci.ResolveConfigured | core/src/pci.rs:544-575 | the devices found, in configuration order; an error exactly when a required one is missing, naming it |
| Pci.GroupBy | core/src/pci.rs:521-531 | the map holds exactly the keys that occur, each with its functions in inventory order |
| Pci.IsBdfInGpuComplex | core/src/pci.rs:584-609 | true exactly when the function shares its slot with a display controller |
| Pci.AssessGpuUnbindSafety | core/src/pci.rs:611-724 | one assessment per display controller, in order: Safe iff on vfio-pci, Unsafe iff elsewhere without an IOMMU group, with the other members of its group |
| Pci.SlotReads | core/src/pci.rs:798-826 | an address "dddd:bb:dd.f" reads back as its domain, bus and device |
| Pci.ClassReads | core/src/pci.rs:123-201 | the device classes in terms of the three bytes of the class code |
| Config.AllAre | core/src/vfio/isolation.rs:188-293 | the configured devices are those of the four lists and no others |
| Isolation.EvaluateIsolation | core/src/vfio/isolation.rs:79-182 | the gate accepts exactly when the mode is Disabled, or all required devices resolve and (in Enforce) every enabled rule holds declaratively, for every iteration order of the maps |
| Isolation.EvaluateIommuExclusivity | core/src/vfio/isolation.rs:548-609 | which groups are reported as exclusive and which as violated, and that a violation exists iff some group mixes passthrough and other functions |
| Isolation.EvaluateMultifunctionConsistency | core/src/vfio/isolation.rs:615-670 | every mixed slot gets exactly one violation, naming a passthrough function of it, and no other slot gets any; a violation exists iff some slot is mixed |
| Isolation.EvaluateHostCriticalSharing | core/src/vfio/isolation.rs:672-737 | which groups with host-owned GPUs are violations and which only warnings, and that a violation exists iff a passthrough group holds a host-owned GPU |
| Isolation.EvaluateIsolationLevels | core/src/vfio/isolation.rs:299-433 | device after device exactly the finding its level and group call for: severity, code, device and group |
| Isolation.LevelReported | core/src/vfio/isolation.rs:299-433 | when a device's level is reported, under which code and severity, by level, group and group members; at most once |
| Isolation.LevelsViolate | core/src/vfio/isolation.rs:299-433 | these findings hold a violation iff some device's level is not honoured |
| Isolation.EvaluateNumaPlacement | core/src/vfio/isolation.rs:439-540 | none for a VM without a node; otherwise device after device exactly the warning or violation its node and level call for |
| Isolation.NodeReported | core/src/vfio/isolation.rs:439-540 | when a device's node is reported, under which code and severity; at most once |
| Isolation.NumaNodesViolate | core/src/vfio/isolation.rs:439-540 | these findings hold a violation iff the mode is Enforce and a Dedicated device sits on another node after the 16-bit cast |
| Isolation.CollectDevices | core/src/vfio/isolation.rs:188-293 | the passthrough addresses and the device contexts of all four lists, or the missing device |
| Isolation.GateMonotone | core/src/vfio/isolation.rs:79-182 | whatever Enforce accepts Audit accepts, and whatever Audit accepts Disabled accepts |
| Isolation.DistinctEntriesDecideLevels | core/src/vfio/isolation.rs:237-293 | with distinct addresses in a list, a device's context carries its own entry's level, both ways |
| VfioPlan.BuildPlan | core/src/vfio/plan.rs:40-80 | a plan exists exactly when every entry is acceptable, and is all unbinds before all binds for the selected functions |
| VfioPlan.BuildGpuActions | core/src/vfio/plan.rs:82-158 | the GPU list is accepted iff every entry is a display controller safe to move or belongs to a GPU's slot |
| VfioPlan.StageDeviceList | core/src/vfio/plan.rs:231-263 | accepted iff no entry is Forbidden and all required ones resolve, with Forbidden reported first; queues the actions in order |
| VfioPlan.GpuNeverUnbound | core/src/vfio/plan.rs:40-158 | no plan that builds unbinds a display controller listed under gpu, even if another list names it |
| VfioExecute.ExecutePlan | core/src/vfio/execute.rs:14-72 | host, number of writes, log and result are those of running the actions in order up to the first failure |
| VfioExecute.UnbindCurrentDriver | core/src/pci.rs:232-285 | issues the one write the function's driver calls for, or none on vfio-pci or without a driver |
| VfioExecute.BindToVfioPci | core/src/pci.rs:294-328 | issues the bind unless the function is on vfio-pci already |
| VfioExecute.RunKeepsWriteAhead | core/src/vfio/execute.rs:14-72 | after every run of every action list under every kernel: a device that reached vfio-pci has its snapshot driver on record, one that was there is never recorded or moved, drivers are the old one, none or vfio-pci, and devices outside the list are untouched |
| VfioExecute.PlanRunOk | core/src/vfio/execute.rs:14-72 | a plan that runs to the end puts exactly the selected functions on vfio-pci and records exactly those that were elsewhere |
| VfioExecute.RecordBeforeBind | core/src/vfio/execute.rs:47-66 | a bind is on record before it is tried: after it, accepted or refused, the log holds exactly the records of the functions reached so far |
| VfioExecute.RefusedBind | core/src/vfio/execute.rs:47-66 | a refused bind ends the plan with its device on record, and unbound unless an earlier bind of the plan named it |
| VfioExecute.PlanWritesReady | core/src/vfio/execute.rs:33-66 | with no off-vfio function selected twice, each write is issued to a device in the state it needs |
| VfioExecute.HonestPlanSucceedsIff | core/src/vfio/execute.rs:14-72 | under a kernel that accepts exactly the writes that fit, a plan runs to the end iff no off-vfio function is selected twice |
| VfioVerify.VerifyWithInventory | core/src/vfio/verify.rs:28-80 | accepts iff required devices resolve, all selected ones are on vfio-pci, and GPU entries are display controllers or in a GPU's slot |
| VfioVerify.GroupViability | core/src/vfio/verify.rs:82-145 | gate and verification together: in the verified inventory every member of every passthrough group is on vfio-pci |
| VfioVerify.HiddenMemberDefeatsGate | core/src/pci.rs:408-463 | a concrete host on which a group member missing from the scan stays on its host driver although gate and verification accept; HostViableIff has the exact condition |
| VfioVerify.PlanExecuteVerifyAgree | core/src/vfio/mod.rs:110-140 | a plan that builds and runs to the end is accepted by verification on every complete scan of the result |
| VfioRestore.RestoreImpl | core/src/vfio/mod.rs:178-285 | host, writes and outcomes are those of restoring the log in class order; nothing happens without a log or a scan |
| VfioRestore.RestoreGroup | core/src/vfio/mod.rs:289-426 | one class after another restores exactly its transitions, adding one outcome each |
| VfioRestore.OrderedPermutes | core/src/vfio/mod.rs:178-285 | the restore order is a permutation of the log |
| VfioRestore.OrderedByClass | core/src/vfio/mod.rs:205-275 | by what the scan found: missing devices come before all others, display controllers before all that are present, then NVMe, network and USB controllers |
| VfioRestore.OrderedStable | core/src/vfio/mod.rs:205-275 | the entries of one class keep the log's order |
| VfioRestore.OutcomesMatchLog | core/src/vfio/mod.rs:178-426 | one outcome per transition, in order: its device, its drivers and group, and which result kind is due for a missing device, a blank name, a vfio-pci one, and otherwise in each mode |
| VfioRestore.CountsSum | core/src/vfio/mod.rs:81-97 | the counts of the result kinds add up to the number of outcomes |
| VfioRestore.DryRunForesees | core/src/vfio/mod.rs:146-148 | a dry run writes nothing and matches every live run entry by entry, DryRunPlanned standing for Succeeded and Failed |
| VfioRestore.LiveRestores | core/src/vfio/mod.rs:289-426 | if no write fails, every device with a recorded driver that the scan saw is on it, and every other device is as before |
| VfioRestore.SecondRestoreIsNoop | core/src/vfio/mod.rs:178-426 | after a restore without failures, another one whose scan sees no further recorded device issues no write under any kernel |
| VfioRestore.StageRestoreRoundTrip | core/src/vfio/mod.rs:110-426 | if all writes succeed, staging then restoring returns a device that had a driver to it iff the restore's scan saw it and the name survives trimming, leaves originally unbound ones on vfio-pci and all others untouched |
| VfioRestore.AbortRestoreIff | core/src/vfio/execute.rs:39-66 | after an aborted staging and a restore without failures, a device is as before iff staging had not changed it, or it is on record with a host driver and the restore's scan saw it |
| VfioRestore.RestoreReportIff | core/src/vfio/mod.rs:289-426 | under every kernel, with no assumption on failures: after a staging that stopped anywhere, a device whose driver name survives trimming is as before iff staging had not changed it or the restore reports success for it |
| VfioRestore.AbortStrandsDevice | core/src/vfio/execute.rs:39-66 | a concrete abort that leaves a device without driver and without record |
| VfioRestore.BoundDevicesStayPut | core/src/vfio/mod.rs:380-405 | under a kernel that refuses to bind bound devices, a restore moves no device that has a driver when it starts, whatever else is on record, and reports Failed for exactly those of them that it had to move |
| VfioRestore.HonestRestoreIff | core/src/vfio/mod.rs:289-426 | under a kernel that accepts exactly the writes that fit, after a staging that stopped anywhere, a device whose driver name survives trimming is as before iff staging had not changed it, or it is on record, still unbound and seen by the restore's scan |
| VfioRestore.RefusedBindComesBack | core/src/vfio/execute.rs:47-66 | a device whose vfio-pci bind was refused, and whose driver name survives trimming, is as before after a teardown that accepts exactly the writes that fit iff the scan sees it or it had no driver, and no earlier bind of the plan named it |
| VfioRestore.StagedStaysStaged | core/src/vfio/mod.rs:178-426 | under a kernel that refuses to bind bound devices, such as one that accepts exactly the writes that fit, a restore after a staging that succeeded leaves the host as staging left it |
| VfioStaging.StagePciDevices | core/src/vfio/mod.rs:110-140 | however staging ends the write-ahead invariant holds; no write happens before gate and planner accept; on success under enforced exclusivity every passthrough group is on vfio-pci as far as the scan saw it, and exactly which other mates are |
| VfioStaging.StagingSucceedsIff | core/src/vfio/mod.rs:110-140 | staging succeeds iff gate and planner accept, every write of the plan does, and the second scan sees every required device, all it sees on vfio-pci and only GPU functions under gpu; it changes nothing if gate or planner refuse |
| VfioStaging.HostViableIff | core/src/vfio/mod.rs:110-140 | under enforced exclusivity, after a run of the plan, a group mate on the host is on vfio-pci iff the scan saw it or it was there before; all are iff every mate the scan missed was |
| VfioStaging.HonestStagingIff | core/src/vfio/mod.rs:110-140 | under a kernel that accepts exactly the writes that fit, with complete scans, staging succeeds iff gate and planner accept and no device off vfio-pci is configured twice, which distinct addresses rule out |
| VfioStaging.RetryForgetsDriver | core/src/vfio/execute.rs:39-66 | once an aborted staging left a device unbound and unrecorded, no later staging and no restore without failures returns it to a host driver |
| VmMachine.VmStateMachine.Step | core/src/state.rs:54-299 | one bring-up step, equal to the specification's step for every answer of the environment, on the live host |
| VmMachine.VmStateMachine.StepShutdown | core/src/state.rs:335-400 | one shutdown step, likewise |
| VmMachine.VmStateMachine.RunUntilSteady | core/src/state.rs:307-328 | at most eleven steps; exactly eleven minus the starting rank when it reaches Steady, and none in a wrong state |
| VmMachine.VmStateMachine.RunShutdown | core/src/state.rs:407-421 | at most three steps; Idle at the end unless a step failed |
| VmMachine.VmStateMachine.StopQemu | core/src/qemu.rs:1145-1171 | the handle is gone whether or not stopping the process fails; without a handle nothing fails |
| VmMachine.VmRuntime.PushEvent | core/src/model.rs:178-183 | appends one event and changes nothing else |
| Lifecycle.WorkOwnFieldOnly | core/src/state.rs:54-288 | each field of the runtime record is written in one state only, and (the log excepted) only if that state's work succeeds |
| Lifecycle.StepFailsIff | core/src/state.rs:54-288 | a bring-up step fails iff one of its state's own external calls fails, with the error of the first that does |
| Lifecycle.StepsInOrder | core/src/state.rs:54-288 | a step leads to the next state of the listed order if its calls succeed, and otherwise nowhere |
| Lifecycle.StepEffect | core/src/state.rs:54-288 | a successful step leaves what its calls returned in its own fields, sets its own pin flag, and changes nothing else |
| Lifecycle.StepSays | core/src/state.rs:54-288 | the milestone a step reports, if and only if its calls succeeded |
| Lifecycle.ValidateSays | core/src/state.rs:68-170 | what Validate reports, check by check, up to the first that fails |
| Lifecycle.ShutdownEffect | core/src/state.rs:335-400 | when a shutdown step fails, and what it does to handle, hugepages and host |
| Lifecycle.StopSays | core/src/state.rs:335-400 | what a stop reports, by where it finds the VM and whether it fails |
| Lifecycle.TeardownSays | core/src/state.rs:348-392 | what a teardown and the steps after it report, in order |
| Lifecycle.StepKeepsInv | core/src/state.rs:54-299 | a bring-up step keeps the lifecycle invariant (handle only in DetectThreads..Steady, hugepages only in PreparePci..Shutdown, log only from PreparePci, recorded CPU plan sound, pin flags true to the state), never goes back and only appends to the logs |
| Lifecycle.ShutdownKeepsInv | core/src/state.rs:335-400 | so does a shutdown step |
| Lifecycle.BringUpHasHandle | core/src/state.rs:54-288 | in bring-up that is never asked to stop, whatever fails and is tried again, a QEMU handle exists from DetectThreads on and only then |
| Lifecycle.StepAnnounces | core/src/state.rs:54-288 | every bring-up step logs the entered state before anything else |
| Lifecycle.StepMovesByOne | core/src/state.rs:54-299 | a successful step short of Steady advances by exactly one state, a failed one by none |
| Lifecycle.ShutdownMoves | core/src/state.rs:335-400 | where a shutdown step leads from each state, and which ones cannot fail |
| HostLife.StagingReach | core/src/vfio/mod.rs:110-140 | staging inside the lifecycle touches and records configured devices only |
| HostLife.StepContained | core/src/state.rs:54-299 | every bring-up step keeps: configured devices on their own driver, none or vfio-pci (then on record), all others untouched, records naming the found driver or none |
| HostLife.ShutdownContained | core/src/state.rs:335-400 | so does every shutdown step, whatever fails in the restore |
| HostLife.StepCleared | core/src/state.rs:189-198 | a successful PreparePci step clears the devices by the scan it has just made, which passed gate and planner; up to Steady every bring-up step keeps them cleared by that scan |
| HostLife.ShutdownCleared | core/src/state.rs:335-400 | a shutdown step that does not leave bring-up keeps that |
| HostLife.ClearedHost | core/src/vfio/mod.rs:110-140 | cleared means, on the host: the configured devices the scan saw are on vfio-pci and, under enforced exclusivity, so are their group mates that it saw |
| HostLife.CoveredHostReady | core/src/vfio/mod.rs:110-140 | with a scan that missed nothing: every configured device of the host, and every function of the host in their groups |
| HostLife.StepOnItsWay | core/src/state.rs:54-299 | if none of the step's own writes is refused, bring-up keeps the log exact: recorded devices on vfio-pci, all others as found, even when staging fails after its writes and is retried |
| HostLife.ShutdownOnItsWay | core/src/state.rs:348-377 | if the restore sees the devices it has to move and none of its writes is refused, leaving Shutdown leaves every device as found, but for unbound ones that were staged; repeating it after a failed hook changes nothing |
| Daemon.DriveAdvances | daemon/src/state.rs:386-432 | driving a VM keeps the invariant and its place in the lifecycle, failed steps included |
| Daemon.ApplyKeeps | daemon/src/state.rs:244-379 | every command and tick keeps the invariant; an incarnation's rank and log only grow unless a start replaces an Idle VM; a tick sends exactly what the log gained |
| Daemon.StartMakes | daemon/src/server.rs:481-540 | a first start, or one of an Idle VM, makes a VM wanted up in Init, host and VM layouts read from their own lists; a malformed list changes nothing; any other start only wants the VM up |
| Daemon.ExactlyOnce | daemon/src/state.rs:349-379 | over all runs of commands and ticks the events sent are the concatenation of the incarnations' logs, index by index the same message under the same kind; and after every run the lifecycle invariant holds and nothing is left unsent |
| Daemon.ShownStateIsTrue | daemon/src/state.rs:435-453 | a VM shown as Stopped holds neither handle nor hugepages, one shown as ShuttingDown no handle, one shown as Running has its threads and interrupts marked pinned; exactly Idle is shown as Stopped and exactly Steady as Running |
| Daemon.ShutdownProgress | daemon/src/state.rs:421-430 | a VM wanted down is Idle after at most four ticks plus one per failed teardown hook, whatever else fails |
| Daemon.NoTickIsWasted | daemon/src/state.rs:386-409 | without guest exits a VM still wanted up after n ticks has climbed n states or is in Steady |
| Daemon.ComesToRest | daemon/src/state.rs:386-432 | left alone, every VM is at rest within sixteen ticks plus one per failed teardown hook |
| Daemon.StandsStillIff | daemon/src/state.rs:386-418 | a VM wanted up is unchanged by every tick iff it is past Steady, or in Steady without a handle |
| Daemon.FailedStopThenStart | daemon/src/server.rs:481-577 | a stop whose signal fails and a start leave a VM shown as Running without a handle |
| Daemon.HandleLostIff | core/src/qemu.rs:1145-1171 | a tick loses the handle of a VM past LaunchQemu iff the VM is to be stopped, guest exits noticed, has a handle and the stop fails |
| Daemon.NoHandleIff | daemon/src/state.rs:244-432 | over every run a VM from DetectThreads to Steady lacks its handle iff a stop of its current incarnation failed |
| DaemonProgress.EveryStateIsEarned | daemon/src/state.rs:386-432 | over every run, a VM up to Steady is past a state iff that state's work was done in its current incarnation without an error of any of its calls; threads and interrupts are marked pinned iff the work of PinVcpus and PinIrqs was |
| DaemonProgress.FailureIsReported | daemon/src/state.rs:386-432 | a tick whose step fails sends that failure last, as an error, and leaves the VM no longer wanted up; without a failure it stays wanted up |
| DaemonProgress.ExitIsNoticed | daemon/src/state.rs:244-274 | the tick after a guest shut itself down leaves its VM in Shutdown, without handle and not wanted up |
| DaemonState.DaemonVm.DetectGuestExit | daemon/src/state.rs:244-274 | only in Steady with a handle and an exited child: the handle is dropped and the VM wanted down |
| DaemonState.DaemonVm.DriveTowardsDesired | daemon/src/state.rs:386-432 | equal to the specification's drive, on the live host |
| DaemonState.DaemonVm.TakeEvents | daemon/src/state.rs:349-379 | returns the events from the cursor on, each with its message and kind, and moves the cursor to the end |
| DaemonState.MakeVm | daemon/src/state.rs:50-81 | a fresh VM in Init, wanted down, cursor 0; none exactly when a CPU list does not parse |
| DaemonState.Registry.HandleVmCommand | daemon/src/server.rs:386-590 | start, restart and stop change exactly the VM they name, if configured; every other command changes none |
| DaemonState.CommandWords | daemon/src/server.rs:386-590 | start and restart start the VM they name, stop makes it no longer wanted up, and every other word leaves it alone |
| DaemonState.Registry.BuildSnapshot | daemon/src/state.rs:190-383 | every VM makes exactly one tick, on the host the one before it left, and the snapshot holds exactly its new events; VMs share nothing |
| DaemonState.RoundIsTicks | daemon/src/state.rs:204-383 | driving all VMs first and collecting events afterwards is, for each VM, one tick on the host it met |
| DaemonHost.RunStaysWithin | daemon/src/state.rs:190-432 | over every run and every incarnation, whatever fails, each configured device is on the driver it had before the first start, on none, or on vfio-pci |
| DaemonHost.RunsOnClearedDevices | core/src/vfio/mod.rs:110-140 | over every run, whenever the VM has a QEMU handle, its devices are cleared by the latest scan that staging made: that scan passed gate and planner, its configured functions are the host's, the devices it resolves are on vfio-pci, and so are their group mates it saw under enforced exclusivity |
| DaemonHost.RunsOnReadyHost | core/src/vfio/mod.rs:110-140 | the same read on the host, when others change drivers only; if staging scans are complete, every configured device of the host is on vfio-pci and, under enforced exclusivity, so is every function of the host in their groups |
| DaemonHost.RunReturnsHome | core/src/vfio/mod.rs:110-426 | if none of the writes a run makes is refused and its restores see the devices they have to move, then whenever the VM is in Cleanup or Idle each configured device that had a driver is back on it, and one that had none is unbound or on vfio-pci |
| DaemonHost.AcceptingRunUnrefused | core/src/vfio/mod.rs:110-426 | both hold in every run under a kernel that refuses nothing, with complete restore scans |
| DaemonHost.VfioIsForever | core/src/vfio/mod.rs:110-426 | under a kernel that refuses to bind bound devices, a configured device that is on vfio-pci after some prefix of a run stays there to its end |
| DaemonHistory.HistoryIsRuns | daemon/src/server.rs:167-181 | in any history of commands and ticks over all VMs, each VM is where its own run of actions leads, and the snapshots carried for it exactly what that run sent |
| DaemonHistory.AllDelivered | daemon/src/server.rs:167-181 | exactly-once, in-order event delivery with message and kind for every VM of the daemon |
| DaemonHistory.EveryRunUndisturbed | daemon/src/state.rs:204-347 | with no device configured for two VMs, no VM's run is disturbed by the others, so all statements on undisturbed runs hold for every VM |
| DaemonHistory.DaemonStaysWithin | daemon/src/state.rs:190-432 | after every history every configured device is on the driver it had before the first call, on none, or on vfio-pci |
| DaemonHistory.DaemonRunsOnReadyHosts | daemon/src/state.rs:190-432 | on the host after every history, the configured devices of a VM with a handle that its staging scan saw are on vfio-pci and, under enforced exclusivity, so are their group mates that it saw; with complete staging scans, all of them |
| DaemonHistory.DaemonReturnsHome | daemon/src/state.rs:190-432 | on the host after every history, RunReturnsHome's claim for every VM in Cleanup or Idle, or never started, whose own writes and restores meet RunReturnsHome's condition |
| DaemonHost.TickTouchesConfiguredOnly | daemon/src/state.rs:386-432 | in every run, whatever others do and whatever fails, a tick leaves every device outside the VM's configuration as it was |
| DaemonHost.DisjointVmsDoNotDisturb | daemon/src/state.rs:204-347 | VMs without a common device do not change each other's |
| RootPort.BuildPciRootportMap | core/src/qemu.rs:549-634 | succeeds iff every override names a listed device, parses and claims a slot of its own, and no more devices are without one than slots of 1..31 are free; exactly the devices of the four lists then have slots as AllocationInOrder says; no devices give the empty map |
| RootPort.SeedOverrides | core/src/qemu.rs:584-608 | accepts iff every override names a configured device, parses, and no two claim one slot, for every iteration order |
| RootPort.AllocationInOrder | core/src/qemu.rs:549-634 | exactly the devices of the four lists have slots, no two the same, overrides as they say; the others are in 1..31 without gaps, a device having a lower slot than another iff its first list comes earlier or, in the same list, its address is the smaller text |
| RootPort.AllocationOrderIndependent | core/src/qemu.rs:549-634 | the map depends only on which addresses each list names, neither on their order nor on repetitions |
| RootPort.SlotTextRoundTrip | core/src/qemu.rs:504-528 | the text written for a slot parses back to it |
| IrqWorker.IrqWorker | core/src/irq/pin.rs:371-525 | the worker over any schedule of passes; the DDC switch is attempted once if all items are done and never otherwise |
| IrqWorker.IsAuxGpuFunction | core/src/irq/pin.rs:315-345 | true exactly for a non-zero function of a slot that two GPU entries name, one of them function 0 |
| IrqWorker.FunctionReads | core/src/irq/pin.rs:315-345 | an address reads back as its slot and its decimal function number |
| IrqWorker.TargetCpusForDevice | core/src/irq/pin.rs:95-123 | the VM's CPUs on the device's node, an error if there are none, or all of them without a node |
| IrqWorker.ItemsAre | core/src/irq/pin.rs:380-417 | the worker handles exactly the non-auxiliary devices whose target CPUs are known |
| IrqWorker.ItemsInOrder | core/src/irq/pin.rs:380-417 | at most one item for each device, in the order of the devices |
| IrqWorker.WorkerOutcome | core/src/irq/pin.rs:425-497 | it stops only when every item was seen or QEMU is gone; completed counts the done items; each item is pinned in its first sighting and never again |
| IrqWorker.ProgressIff | core/src/irq/pin.rs:453-497 | a pass lowers the number of open items exactly when it finds interrupts for one, and reopens none |
| IrqWorker.PinsUseVmCpus | core/src/irq/pin.rs:78-123 | the text of every pin reads back as VM CPUs, and for a device with a node as the non-empty set of those on it |
| CpuList.FormatCpuList | core/src/cpuset/mod.rs:104-112 | the canonical text of the set |
| CpuList.ParseCpuList | core/src/util.rs:4-25 | the strict reading: any malformed part rejects the whole text |
| CpuList.ParseSysfsCpuList | core/src/cpu/detect/topology.rs:116-163 | the lenient reading: malformed parts are skipped |
| CpuList.PrintThenParse | core/src/util.rs:4-25 | printing and parsing any u32 list yields it sorted and without duplicates |
| CpuList.LenientRefinesStrict | core/src/cpu/detect/topology.rs:116-163 | whatever the strict parser accepts, the lenient one reads the same |
| CpuList.SpacedRange | core/src/cpu/detect/topology.rs:116-163 | a text that is a range with a space before its dash is rejected by the strict parser and read by the lenient one |
| CpuList.RangeReads | core/src/util.rs:4-25 | the text of a range is accepted by the strict parser and means its bounds and everything between them |
| CpuList.HalfRange | core/src/cpu/detect/topology.rs:116-163 | of a range with a malformed upper bound the lenient parser keeps the lower one |
| CpuList.ReversedRangeIsEmpty | core/src/util.rs:4-25 | a text that is a reversed range is accepted by both parsers and yields no CPUs |
| CpuPlan.BuildCpuPlan | core/src/cpuplan/builder.rs:72-126 | the plan's nodes, span flag and dominant node as specified |
| CpuPlan.PlanNodesAre | core/src/cpuplan/builder.rs:72-126 | one plan node per topology node, with its id, its CPUs and those of them that belong to the VM, sorted and without duplicates |
| CpuPlan.DominantIsFirstMaximum | core/src/cpuplan/builder.rs:72-126 | the dominant node is the first of maximal VM CPU count, and exists iff some node has VM CPUs |
| CpuPlan.DominantNodeIsFound | core/src/cpuplan/plan.rs:81-83 | with distinct ids, looking up the dominant node finds a node of maximal VM CPU count |
| CpuPlan.SpansMeansTwoNodes | core/src/cpuplan/builder.rs:72-126 | the span flag holds iff two different nodes hold VM CPUs |
| CpuPlan.ValidateCpuPlan | core/src/cpuplan/validate.rs:64-98 | the findings name exactly the listed CPUs outside the topology; none for an empty topology |
| CpuPlan.VmCpusPartition | core/src/cpuplan/plan.rs:86-90 | with disjoint node lists the plan's VM CPUs are, increasing and without duplicates, the VM CPUs the topology knows |
| CpuPlan.SoundPlanKeepsVmCpus | core/src/cpuplan/validate.rs:64-98 | a plan without findings over a non-empty disjoint topology loses no VM CPU |
| HostCpus.DeriveHostCpus | core/src/cpuset/mod.rs:131-186 | Ok iff there are VM CPUs, on a known node, and a host CPU remains; then increasing, non-empty, disjoint from the VM's, and exactly the complement's CPUs or the fallback's |
| HostCpus.NodesForCpus | core/src/cpuset/mod.rs:90-101 | exactly the nodes that hold one of the CPUs |
| Hugepages.Provision | core/src/hugepages.rs:338-469 | on Ok the last count read covers the recorded pages; the pool is never lowered; at most three raises; on failure the record is unchanged; a pool with enough total pages is never raised; with node, mount and a readable pool enough free pages give Ok, and with a pool that never fails it is exact when Ok is given |
| Hugepages.Cleanup | core/src/hugepages.rs:484-551 | an active record is cleared, its node's pool and then, through the global counter, every node's pool asked to empty, and none grows; an inactive record leaves every pool alone |
| Hugepages.PagesAreTight | core/src/hugepages.rs:359-360 | without overflow the bytes hold the guest with less than one page to spare |
| Hugepages.OverflowFreeIff | core/src/hugepages.rs:359-360 | no intermediate value overflows iff mem_mb <= 2^44 - 3 |
| Hugepages.CoveredIff | core/src/hugepages.rs:359-360 | the wrapped result still holds the guest iff mem_mb <= 2^44 - 2 |
| Framing.Client.Drain | daemon/src/server.rs:253-341 | commands, events and buffer depend only on the text received, and the outcome on the first read without text |
| Framing.EndingIs | daemon/src/server.rs:253-341 | a client stays iff the first read without text found nothing to read, leaves gracefully iff it was the end or a reset, and with an error otherwise |
| Framing.Client.TakeLines | daemon/src/server.rs:283-320 | takes every complete line off the buffer, decoding the non-blank trimmed ones in order |
| Text.TrimIsCore | daemon/src/server.rs:289-292 | trimming leaves a contiguous part of the text with no white end, and cuts off white characters only |
| Framing.LinesResume | daemon/src/server.rs:281-290 | reading on from the remainder gives the same lines and remainder as reading everything at once |
| Framing.LinesRebuild | daemon/src/server.rs:283-290 | lines and remainder rebuild the text; no line contains a newline |
| Framing.FeedIsChunkIndependent | daemon/src/server.rs:253-341 | for every way of cutting a text, the lines handed over and the buffer are those of the whole text |
| Framing.AsciiStream | daemon/src/server.rs:253-341 | for every way of cutting an ASCII stream into reads, a drain receives exactly the stream |
| Framing.ByteChunks | daemon/src/server.rs:272-281 | the same over bytes, for cuts whose chunks decode by themselves |
| Utf8.CutAnywhereIff | daemon/src/server.rs:272-279 | a text may be cut anywhere iff it is ASCII |
| Utf8.DecodeEncode | daemon/src/server.rs:272-279 | decoding an encoded text yields it |
| Utf8.EncodeDecode | daemon/src/server.rs:272-279 | whatever decodes is the encoding of its reading |

## Left out

- All real I/O (sysfs, procfs, cgroups, mounts, sockets, MQTT, I2C, process spawning): external calls are answers of the environment.
- Wording of log lines and event messages: events carry structured messages; findings carry codes.
- JSON and TOML: configurations and decoded client messages are given. A snapshot that fails to serialize (daemon/src/server.rs:199-208) is dropped after the cursors have moved, so exactly-once delivery is about what VMs contribute to snapshots, not about what a client reads.
- Clients that connect late or drop: every client gets the same payload, nothing is replayed.
- Splitting a shell line into words: commands are modelled from their word list on.
- The status projection of a snapshot (pinned flags, CPU samples, hugepage detail), except the shown state.
- Names of VMs are visited in some order rather than in sorted order; every statement holds for all orders.
- Choice of the hugepage NUMA node, the hugetlbfs mount and compaction: parameters of provisioning that may fail.
- Hugepages.Provision: nobody else uses the pool between two reads, because otherwise a read count covers nothing. In particular the teardown of any VM, which asks every node's pool to empty (core/src/hugepages.rs:523), can take free pages from another VM's provisioning.
- A QEMU process whose launch fails after spawning (core/src/qemu.rs:1108-1133) leaves no handle in the record; the orphan process itself is not modelled.
- The PCI bus rescan and vendor resets, which touch no driver binding of the model.
- QEMU's argument text other than root-port slots; the fixed SPICE address is outside the allocation.
- RootPort.BuildPciRootportMap: slots are numbers, because the text form is one-to-one (SlotTextRoundTrip).
- DaemonHost.RunReturnsHome: driver names are assumed to survive trimming, as sysfs names do; StageRestoreRoundTrip has the exact condition. AcceptingRunUnrefused shows that its condition on the writes can be met, and CompleteScansExist that complete scans exist. Which devices a single teardown with refused writes returns is stated by RestoreReportIff and HonestRestoreIff.
- DaemonHistory.DaemonReturnsHome: the same assumptions.
- DaemonHost.RunsOnReadyHost: a group member that the staging scan missed is covered only by its complete-scan half, as HostViableIff and HiddenMemberDefeatsGate explain.
- DaemonHost.RunStaysWithin: nobody outside the VM rebinds its configured devices between its actions, which EveryRunUndisturbed derives for the VMs of one daemon; what others do to all other devices is arbitrary. Driver names are assumed to survive trimming here too, since a restore binds the trimmed name.
- core/src/cpu/detect/validate.rs, CPU classification and QEMU's CPU model table: not in the build, or table lookups.
- The synchronous `pin_irqs` (core/src/irq/pin.rs:585-613): not used by the state machine.
- The terminal client: its framing is the same loop as the daemon's.
