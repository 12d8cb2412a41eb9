/** The VM lifecycle: fifteen states, one step of bring-up or shutdown at a time, in an
    environment where any external call may fail. */
module Lifecycle {
  import opened Prelude
  import opened Config
  import opened CpuPlan
  import opened Hugepages
  import opened VfioExecute
  import opened VfioRestore
  import opened VfioStaging
  import Isolation
  import opened VfioPlan
  import Pci

  datatype VmState =
    | Init | Validate | PrepareHugepages | PreparePci | ReserveCpus | LaunchQemu
    | DetectThreads | PinVcpus | DetectMsi | PinIrqs | PeripheralHooks | Steady
    | Shutdown | Cleanup | Idle
  {
    /** The position in the lifecycle. */
    function Rank(): nat {
      match this
      case Init => 0
      case Validate => 1
      case PrepareHugepages => 2
      case PreparePci => 3
      case ReserveCpus => 4
      case LaunchQemu => 5
      case DetectThreads => 6
      case PinVcpus => 7
      case DetectMsi => 8
      case PinIrqs => 9
      case PeripheralHooks => 10
      case Steady => 11
      case Shutdown => 12
      case Cleanup => 13
      case Idle => 14
    }

    /** A state that Step accepts. */
    predicate BringUp() {
      !Shutdown? && !Cleanup? && !Idle?
    }

    /** The state after a bring-up state's work. */
    function Next(): VmState {
      match this
      case Init => Validate
      case Validate => PrepareHugepages
      case PrepareHugepages => PreparePci
      case PreparePci => ReserveCpus
      case ReserveCpus => LaunchQemu
      case LaunchQemu => DetectThreads
      case DetectThreads => PinVcpus
      case PinVcpus => DetectMsi
      case DetectMsi => PinIrqs
      case PinIrqs => PeripheralHooks
      case PeripheralHooks => Steady
      case _ => this
    }
  }

  datatype Milestone =
    | CpusetChecked | QemuChecked | GpuPolicyChecked | CpuPlanValidated | CpuidMissing | TopologyMissing(why: string)
    | PciStaged | CpusetCreated | QemuLaunched(pid: nat) | ThreadsFound | VcpusPinned
    | IrqWorkerSpawned | IrqsDelegated | VmUpApplied | AlreadySteady | ReachedSteady
    | QemuStopped(steady: bool) | PciRestored | CpusetRemoved | HugepagesReleased | HugepagesTornDown
    | VmDownApplied | ShutdownCompleted | ShutdownRepeated

  datatype Failure = External(why: string) | PlanRejected | WrongState(state: VmState)

  /** What an event says; the wording is not modelled. */
  datatype Message =
    | Enter(state: VmState)
    | LeaveFor(state: VmState)
    | RestoringPci
    | Done(milestone: Milestone)
    | PlanFindings
    | StepFailed(error: Failure)
    | Note(text: string)

  datatype EventKind = Info | Warning | Error | System

  datatype CoreEvent = CoreEvent(kind: EventKind, message: Message)

  /** A VM's runtime record. */
  datatype Runtime = Runtime(
    cfg: VmConfig,
    cpus: VmCpuLayout,
    qemu: Option<nat>,
    pinnedThreads: bool,
    pinnedIrqs: bool,
    transitions: seq<VfioTransition>,
    events: seq<CoreEvent>,
    huge: HugeRecord,
    plan: Option<CpuPlan>)

  function FreshRuntime(cfg: VmConfig, cpus: VmCpuLayout): Runtime {
    Runtime(cfg, cpus, None, false, false, [], [], INACTIVE, None)
  }

  /** The state machine together with the host whose devices it rebinds. */
  datatype Machine = Machine(state: VmState, rt: Runtime, host: HostMap, writes: nat)
  {
    function Push(kind: EventKind, message: Message): Machine {
      this.(rt := rt.(events := rt.events + [CoreEvent(kind, message)]))
    }

    function Say(notes: seq<CoreEvent>): Machine {
      this.(rt := rt.(events := rt.events + notes))
    }
  }

  function Fresh(cfg: VmConfig, cpus: VmCpuLayout, host: HostMap, writes: nat): Machine {
    Machine(Init, FreshRuntime(cfg, cpus), host, writes)
  }

  // ---------- The environment of one step ----------

  /** The error of a failed external call. */
  type Check = Option<string>

  /** A scan reports functions of the host as they are, or nothing at all. */
  type Scanner = s: HostMap -> Option<Pci.Inventory> | forall h: HostMap :: s(h).Some? ==> SnapshotOf(s(h).value, h)
    witness (_: HostMap) => None

  type HugeOutcome = r: HugeRecord | ConsistentRecord(r) witness INACTIVE

  /** A hook may report events whether or not it fails. */
  datatype Hook = Hook(notes: seq<CoreEvent>, error: Check)

  /** How the external calls of a step go. */
  datatype Calls = Calls(
    cpuset: Check,
    qemuPaths: Check,
    gpuPolicy: Check,
    cpuid: bool,
    topology: Result<seq<HostNumaNode>, string>,
    hugepages: Result<(HugeOutcome, seq<CoreEvent>), string>,
    stagingError: string,
    createCpuset: Check,
    launch: Result<nat, string>,
    threads: Check,
    pinVcpus: Check,
    spawnWorker: Check,
    vmUp: Hook,
    terminate: Check,
    vmDown: Hook)

  datatype Env = Env(calls: Calls, scan: Scanner, rescan: Scanner, restoreScan: Scanner)

  // ---------- Bring-up ----------

  function Checked(m: Machine, check: Check, milestone: Milestone): (Machine, Option<Failure>) {
    match check
    case Some(why) => (m, Some(External(why)))
    case None => (m.Push(Info, Done(milestone)), None)
  }

  ghost function WithCpuPlan(env: Env, m: Machine): (Machine, Option<Failure>) {
    if !env.calls.cpuid then (m.Push(Warning, Done(CpuidMissing)), None)
    else
      match env.calls.topology
      case Err(why) => (m.Push(Warning, Done(TopologyMissing(why))), None)
      case Ok(topology) =>
        var plan := CpuPlanOf(topology, m.rt.cpus);
        if Sound(plan) then (m.(rt := m.rt.(plan := Some(plan))).Push(Info, Done(CpuPlanValidated)), None)
        else (m.Push(Error, PlanFindings), Some(PlanRejected))
  }

  ghost function Validated(env: Env, m: Machine): (Machine, Option<Failure>) {
    var (m1, e1) := Checked(m, env.calls.cpuset, CpusetChecked);
    if e1.Some? then (m1, e1)
    else
      var (m2, e2) := Checked(m1, env.calls.qemuPaths, QemuChecked);
      if e2.Some? then (m2, e2)
      else
        var (m3, e3) := Checked(m2, env.calls.gpuPolicy, GpuPolicyChecked);
        if e3.Some? then (m3, e3) else WithCpuPlan(env, m3)
  }

  ghost function StagedBy(k: Kernel, env: Env, m: Machine): (Exec, bool) {
    var start := Exec(m.host, m.writes, m.rt.transitions);
    var exec := StageRun(m.rt.cfg, env.scan(m.host), None, k, start).0;
    StageRun(m.rt.cfg, env.scan(m.host), env.rescan(exec.host), k, start)
  }

  ghost function PciPrepared(k: Kernel, env: Env, m: Machine): (Machine, Option<Failure>) {
    var (s, ok) := StagedBy(k, env, m);
    var m1 := m.(host := s.host, writes := s.writes, rt := m.rt.(transitions := s.log));
    if ok then (m1.Push(Info, Done(PciStaged)), None) else (m1, Some(External(env.calls.stagingError)))
  }

  /** The work of a bring-up state, after it has been announced. */
  ghost function Work(k: Kernel, env: Env, m: Machine): (Machine, Option<Failure>) {
    match m.state
    case Init => (m, None)
    case Validate => Validated(env, m)
    case PrepareHugepages =>
      (match env.calls.hugepages
       case Err(why) => (m, Some(External(why)))
       case Ok((record, notes)) => (m.(rt := m.rt.(huge := record)).Say(notes), None))
    case PreparePci => PciPrepared(k, env, m)
    case ReserveCpus => Checked(m, env.calls.createCpuset, CpusetCreated)
    case LaunchQemu =>
      (match env.calls.launch
       case Err(why) => (m, Some(External(why)))
       case Ok(pid) => (m.(rt := m.rt.(qemu := Some(pid))).Push(Info, Done(QemuLaunched(pid))), None))
    case DetectThreads => Checked(m, env.calls.threads, ThreadsFound)
    case PinVcpus =>
      Checked(if env.calls.pinVcpus.None? then m.(rt := m.rt.(pinnedThreads := true)) else m, env.calls.pinVcpus,
              VcpusPinned)
    case DetectMsi => Checked(m, env.calls.spawnWorker, IrqWorkerSpawned)
    case PinIrqs => (m.(rt := m.rt.(pinnedIrqs := true)).Push(Info, Done(IrqsDelegated)), None)
    case PeripheralHooks => Checked(m.Say(env.calls.vmUp.notes), env.calls.vmUp.error, VmUpApplied)
    case Steady => (m.Push(Info, Done(AlreadySteady)), None)
    case _ => (m, Some(WrongState(m.state)))
  }

  ghost function StepOf(k: Kernel, env: Env, m: Machine): (Machine, Option<Failure>) {
    if !m.state.BringUp() then (m, Some(WrongState(m.state)))
    else
      var (m1, error) := Work(k, env, m.Push(System, Enter(m.state)));
      if error.Some? then (m1, error) else (m1.(state := m.state.Next()), None)
  }

  // ---------- Shutdown ----------

  /** The host after a live restore from the log; nothing happens without a log or a scan. */
  function Restored(k: Kernel, scan: Scanner, m: Machine): Progress {
    var start := Progress(m.host, m.writes, []);
    if m.rt.transitions == [] || scan(m.host).None? then start
    else RestoreAll(Ordered(scan(m.host).value, m.rt.transitions), scan(m.host).value, k, Live, start)
  }

  function HugepagesCleaned(m: Machine): Machine {
    if m.rt.huge.active then m.(rt := m.rt.(huge := INACTIVE)).Push(Info, Done(HugepagesReleased)) else m
  }

  function PciRestoredBy(k: Kernel, env: Env, m: Machine): Machine {
    var q := Restored(k, env.restoreScan, m);
    m.Push(System, RestoringPci).(host := q.host, writes := q.writes).Push(Info, Done(PciRestored))
  }

  function TornDown(k: Kernel, env: Env, m: Machine): (Machine, Option<Failure>) {
    var m1 := PciRestoredBy(k, env, m).Push(System, Enter(Cleanup)).Push(Info, Done(CpusetRemoved));
    Checked(HugepagesCleaned(m1).Push(Info, Done(HugepagesTornDown)).Say(env.calls.vmDown.notes),
            env.calls.vmDown.error, VmDownApplied)
  }

  /** The handle is taken before anything can fail; without a handle there is no failure. */
  function QemuStop(env: Env, m: Machine, steady: bool): (Machine, Option<Failure>) {
    Checked(m.(rt := m.rt.(qemu := None)), if m.rt.qemu.Some? then env.calls.terminate else None, QemuStopped(steady))
  }

  /** Leave bring-up or steady state. */
  function StopStepOf(env: Env, m: Machine): (Machine, Option<Failure>) {
    var late := m.state in {Steady, PinIrqs, PeripheralHooks};
    var (m1, error) := QemuStop(env, m.Push(System, if late then Enter(Shutdown) else LeaveFor(m.state)), late);
    if error.Some? then (m1, error) else (m1.(state := Shutdown), None)
  }

  function ShutdownStepOf(k: Kernel, env: Env, m: Machine): (Machine, Option<Failure>) {
    match m.state
    case Idle => (m.Push(System, Done(ShutdownRepeated)), None)
    case Cleanup => (m.(state := Idle).Push(System, Done(ShutdownCompleted)), None)
    case Shutdown =>
      var (m1, error) := TornDown(k, env, m);
      if error.Some? then (m1, error) else (m1.(state := Cleanup), None)
    case _ => StopStepOf(env, m)
  }

  // ---------- The lifecycle invariant ----------

  /** A recorded CPU plan is the plan of the VM's layout and has no findings. */
  ghost predicate GoodPlan(plan: Option<CpuPlan>, cpus: VmCpuLayout) {
    plan.Some? ==> Sound(plan.value) && plan.value.layout == cpus && plan.value == CpuPlanOf(plan.value.topology, cpus)
  }

  ghost predicate Inv(m: Machine) {
    var rank, rt := m.state.Rank(), m.rt;
    // a QEMU handle exists only from DetectThreads to Steady
    && (rt.qemu.Some? ==> DetectThreads.Rank() <= rank <= Steady.Rank())
    // hugepages are held only from PreparePci to Shutdown
    && ConsistentRecord(rt.huge) && (rt.huge.active ==> PreparePci.Rank() <= rank <= Shutdown.Rank())
    // driver changes are on record only from PreparePci on
    && (rt.transitions != [] ==> rank >= PreparePci.Rank())
    && (rt.plan.Some? ==> rank >= PrepareHugepages.Rank()) && GoodPlan(rt.plan, rt.cpus)
    // the pin flags say, up to Steady, that their state's work is done
    && (rt.pinnedThreads ==> rank >= DetectMsi.Rank())
    && (DetectMsi.Rank() <= rank <= Steady.Rank() ==> rt.pinnedThreads)
    && (rt.pinnedIrqs ==> rank >= PeripheralHooks.Rank())
    && (PeripheralHooks.Rank() <= rank <= Steady.Rank() ==> rt.pinnedIrqs)
  }

  /** What no step of one incarnation undoes: the configuration, the event log so far, and
      the place in the lifecycle. */
  ghost predicate Advances(m: Machine, m': Machine) {
    && m'.rt.cfg == m.rt.cfg && m'.rt.cpus == m.rt.cpus
    && m.rt.events <= m'.rt.events
    && m.rt.transitions <= m'.rt.transitions
    && m.state.Rank() <= m'.state.Rank()
  }

  /** The work of a state announces and does things but does not move on. */
  ghost predicate Grows(m: Machine, m': Machine) {
    && m'.state == m.state && m'.rt.cfg == m.rt.cfg && m'.rt.cpus == m.rt.cpus
    && m.rt.events <= m'.rt.events && m.rt.transitions <= m'.rt.transitions
  }

  lemma GrowsTwice(a: Machine, b: Machine, c: Machine)
    requires Grows(a, b) && Grows(b, c)
    ensures Grows(a, c)
  {}

  /** Nothing but the event log changed. */
  ghost predicate Quiet(m: Machine, m': Machine) {
    m' == m.(rt := m.rt.(events := m'.rt.events)) && m.rt.events <= m'.rt.events
  }

  lemma CheckedIsQuiet(m: Machine, check: Check, milestone: Milestone)
    ensures Quiet(m, Checked(m, check, milestone).0)
  {}

  lemma ValidatedEffect(env: Env, m: Machine)
    ensures var (m1, error) := Validated(env, m);
      && Quiet(m.(rt := m.rt.(plan := m1.rt.plan)), m1)
      && (m1.rt.plan == m.rt.plan ||
          (error.None? && m1.rt.plan.Some? && Sound(m1.rt.plan.value) && env.calls.topology.Ok?
           && m1.rt.plan.value == CpuPlanOf(env.calls.topology.value, m.rt.cpus)))
  {
    CheckedIsQuiet(m, env.calls.cpuset, CpusetChecked);
    var m1 := Checked(m, env.calls.cpuset, CpusetChecked).0;
    CheckedIsQuiet(m1, env.calls.qemuPaths, QemuChecked);
    var m2 := Checked(m1, env.calls.qemuPaths, QemuChecked).0;
    CheckedIsQuiet(m2, env.calls.gpuPolicy, GpuPolicyChecked);
  }

  lemma WorkGrows(k: Kernel, env: Env, m: Machine)
    requires m.state.BringUp() && ValidHost(m.host)
    ensures Grows(m, Work(k, env, m).0)
  {
    if m.state == Validate {
      ValidatedEffect(env, m);
    } else if m.state == PreparePci {
      StagingGrowsLog(k, env, m);
    } else if m.state.Rank() <= LaunchQemu.Rank() {
      EarlyWorkGrows(k, env, m);
    } else {
      LateWorkGrows(k, env, m);
    }
  }

  lemma EarlyWorkGrows(k: Kernel, env: Env, m: Machine)
    requires m.state == Init || m.state == PrepareHugepages || m.state == ReserveCpus || m.state == LaunchQemu
    ensures Grows(m, Work(k, env, m).0)
  {}

  lemma LateWorkGrows(k: Kernel, env: Env, m: Machine)
    requires LaunchQemu.Rank() < m.state.Rank() <= Steady.Rank()
    ensures Grows(m, Work(k, env, m).0)
  {
    match m.state
    case DetectThreads => CheckedIsQuiet(m, env.calls.threads, ThreadsFound);
    case PinVcpus =>
    case DetectMsi => CheckedIsQuiet(m, env.calls.spawnWorker, IrqWorkerSpawned);
    case PinIrqs =>
    case PeripheralHooks => CheckedIsQuiet(m.Say(env.calls.vmUp.notes), env.calls.vmUp.error, VmUpApplied);
    case Steady =>
  }

  lemma PreparedEffect(k: Kernel, env: Env, m: Machine)
    ensures var (m1, error) := PciPrepared(k, env, m);
      && m1.rt == m.rt.(transitions := m1.rt.transitions, events := m1.rt.events)
      && m1.state == m.state
  {}

  /** Every field of the record is written by the work of one state only, and, but for the
      transition log, only when that work succeeds. */
  ghost predicate OwnFieldOnly(m: Machine, m1: Machine, error: Option<Failure>) {
    && m1.state == m.state
    && (m1.rt.qemu == m.rt.qemu || (m.state == LaunchQemu && error.None?))
    && (m1.rt.huge == m.rt.huge || (m.state == PrepareHugepages && error.None?))
    && (m1.rt.transitions == m.rt.transitions || m.state == PreparePci)
    && (m1.rt.plan == m.rt.plan || (m.state == Validate && error.None?))
    && (m1.rt.pinnedThreads == m.rt.pinnedThreads || (m.state == PinVcpus && error.None?))
    && (m1.rt.pinnedIrqs == m.rt.pinnedIrqs || (m.state == PinIrqs && error.None?))
  }

  /** What the work of a state leaves behind when it succeeds. */
  ghost predicate Delivers(m: Machine, m1: Machine) {
    && (m.state == LaunchQemu ==> m1.rt.qemu.Some?)
    && (m.state == PinVcpus ==> m1.rt.pinnedThreads)
    && (m.state == PinIrqs ==> m1.rt.pinnedIrqs)
  }

  lemma WorkDelivers(k: Kernel, env: Env, m: Machine)
    ensures Work(k, env, m).1.None? ==> Delivers(m, Work(k, env, m).0)
  {}

  lemma WorkOwnFieldOnly(k: Kernel, env: Env, m: Machine)
    ensures OwnFieldOnly(m, Work(k, env, m).0, Work(k, env, m).1)
  {
    if m.state == Validate {
      ValidatedEffect(env, m);
    } else if m.state == PreparePci {
      PreparedEffect(k, env, m);
    }
  }

  lemma WorkKeepsRecords(k: Kernel, env: Env, m: Machine)
    requires ConsistentRecord(m.rt.huge) && GoodPlan(m.rt.plan, m.rt.cpus)
    ensures ConsistentRecord(Work(k, env, m).0.rt.huge) && GoodPlan(Work(k, env, m).0.rt.plan, m.rt.cpus)
  {
    WorkOwnFieldOnly(k, env, m);
    if m.state == Validate {
      ValidatedEffect(env, m);
      PlanStaysGood(env, m.rt, Validated(env, m).0.rt);
    } else if m.state == PrepareHugepages && env.calls.hugepages.Ok? {
      assert ConsistentRecord(env.calls.hugepages.value.0);
    }
  }

  lemma PlanStaysGood(env: Env, rt: Runtime, rt1: Runtime)
    requires GoodPlan(rt.plan, rt.cpus)
    requires || rt1.plan == rt.plan
             || (rt1.plan.Some? && Sound(rt1.plan.value) && env.calls.topology.Ok?
                 && rt1.plan.value == CpuPlanOf(env.calls.topology.value, rt.cpus))
    ensures GoodPlan(rt1.plan, rt.cpus)
  {}

  lemma NextInv(m: Machine, m1: Machine, error: Option<Failure>)
    requires Inv(m) && m.state.BringUp() && OwnFieldOnly(m, m1, error) && m1.rt.cpus == m.rt.cpus
    requires ConsistentRecord(m1.rt.huge) && GoodPlan(m1.rt.plan, m1.rt.cpus)
    requires error.None? ==> Delivers(m, m1)
    ensures if error.Some? then Inv(m1) else Inv(m1.(state := m.state.Next()))
  {
    NextRank(m.state);
  }

  lemma GrowsAdvances(m: Machine, m1: Machine)
    requires Grows(m, m1) && m.state.BringUp()
    ensures Advances(m, m1) && Advances(m, m1.(state := m.state.Next()))
  {
    NextRank(m.state);
  }

  lemma NextRank(s: VmState)
    requires s.BringUp()
    ensures s.Next().Rank() == if s == Steady then s.Rank() else s.Rank() + 1
    ensures s.Next().Rank() <= Steady.Rank()
  {}

  lemma StepKeepsInv(k: Kernel, env: Env, m: Machine)
    requires Inv(m) && ValidHost(m.host)
    ensures Inv(StepOf(k, env, m).0) && Advances(m, StepOf(k, env, m).0)
  {
    if m.state.BringUp() {
      var said := m.Push(System, Enter(m.state));
      assert Grows(m, said) && Inv(said);
      WorkGrows(k, env, said);
      GrowsTwice(m, said, Work(k, env, said).0);
      GrowsAdvances(m, Work(k, env, said).0);
      WorkOwnFieldOnly(k, env, said);
      WorkKeepsRecords(k, env, said);
      WorkDelivers(k, env, said);
      NextInv(said, Work(k, env, said).0, Work(k, env, said).1);
    }
  }

  lemma TornDownGrows(k: Kernel, env: Env, m: Machine)
    ensures Grows(m, TornDown(k, env, m).0)
  {
    var a := PciRestoredBy(k, env, m);
    assert Grows(m, a);
    var b := a.Push(System, Enter(Cleanup)).Push(Info, Done(CpusetRemoved));
    assert Grows(a, b);
    GrowsTwice(m, a, b);
    var c := HugepagesCleaned(b).Push(Info, Done(HugepagesTornDown));
    assert Grows(b, c);
    GrowsTwice(m, b, c);
    var d := c.Say(env.calls.vmDown.notes);
    assert Grows(c, d);
    GrowsTwice(m, c, d);
    CheckedIsQuiet(d, env.calls.vmDown.error, VmDownApplied);
    GrowsTwice(m, d, TornDown(k, env, m).0);
  }

  lemma TornDownEffect(k: Kernel, env: Env, m: Machine)
    ensures var (m1, error) := TornDown(k, env, m);
      && m1.rt.huge == (if m.rt.huge.active then INACTIVE else m.rt.huge)
      && m1.rt == m.rt.(huge := m1.rt.huge, events := m1.rt.events)
      && m1.state == m.state
      && (error.Some? <==> env.calls.vmDown.error.Some?)
      && m1.host == Restored(k, env.restoreScan, m).host
  {}

  lemma ShutdownKeepsInv(k: Kernel, env: Env, m: Machine)
    requires Inv(m)
    ensures Inv(ShutdownStepOf(k, env, m).0) && Advances(m, ShutdownStepOf(k, env, m).0)
  {
    if m.state == Shutdown {
      TeardownKeepsInv(k, env, m);
    } else if m.state.BringUp() {
      StopEffect(env, m);
      StoppedInv(m, StopStepOf(env, m).0);
    }
  }

  lemma TeardownKeepsInv(k: Kernel, env: Env, m: Machine)
    requires Inv(m) && m.state == Shutdown
    ensures forall state :: state == Shutdown || state == Cleanup ==>
      Inv(TornDown(k, env, m).0.(state := state)) && Advances(m, TornDown(k, env, m).0.(state := state))
    ensures TornDown(k, env, m).0.state == Shutdown
  {
    TornDownGrows(k, env, m);
    TornDownEffect(k, env, m);
    TornDownInv(m, TornDown(k, env, m).0);
  }

  lemma TornDownInv(m: Machine, m1: Machine)
    requires Inv(m) && m.state == Shutdown && Grows(m, m1)
    requires m1.rt == m.rt.(huge := if m.rt.huge.active then INACTIVE else m.rt.huge, events := m1.rt.events)
    ensures forall state :: state == Shutdown || state == Cleanup ==>
      Inv(m1.(state := state)) && Advances(m, m1.(state := state))
  {}

  lemma StopEffect(env: Env, m: Machine)
    ensures var (m1, error) := StopStepOf(env, m);
      && Quiet(m.(state := m1.state, rt := m.rt.(qemu := None)), m1)
      && (error.Some? <==> m.rt.qemu.Some? && env.calls.terminate.Some?)
      && m1.state == if error.Some? then m.state else Shutdown
  {}

  lemma StoppedInv(m: Machine, m1: Machine)
    requires Inv(m) && m.state.BringUp() && m1.state in {m.state, Shutdown}
    requires Quiet(m.(state := m1.state, rt := m.rt.(qemu := None)), m1)
    ensures Inv(m1) && Advances(m, m1)
  {}

  lemma StagingGrowsLog(k: Kernel, env: Env, m: Machine)
    requires ValidHost(m.host)
    ensures m.rt.transitions <= StagedBy(k, env, m).0.log
  {
    var start := Exec(m.host, m.writes, m.rt.transitions);
    var seen := env.scan(m.host);
    if seen.Some? {
      RunKeepsWriteAhead(PlanOf(Isolation.Selected(m.rt.cfg, seen.value)), seen.value, k, m.host, |m.rt.transitions|,
                         start);
    }
  }

  // ---------- When a step fails, and what it does ----------

  function ErrorOf(check: Check): Option<Failure> {
    if check.Some? then Some(External(check.value)) else None
  }

  function FirstError(first: Option<Failure>, second: Option<Failure>): Option<Failure> {
    if first.Some? then first else second
  }

  /** The error of a bring-up state's own external calls, in the order they are made; none
      if they all succeed. */
  ghost function CallError(k: Kernel, env: Env, m: Machine): Option<Failure> {
    var calls := env.calls;
    match m.state
    case Validate =>
      FirstError(ErrorOf(calls.cpuset), FirstError(ErrorOf(calls.qemuPaths), FirstError(ErrorOf(calls.gpuPolicy),
                 if calls.cpuid && calls.topology.Ok? && !Sound(CpuPlanOf(calls.topology.value, m.rt.cpus))
                 then Some(PlanRejected) else None)))
    case PrepareHugepages => if calls.hugepages.Err? then Some(External(calls.hugepages.error)) else None
    case PreparePci => if StagedBy(k, env, m).1 then None else Some(External(calls.stagingError))
    case ReserveCpus => ErrorOf(calls.createCpuset)
    case LaunchQemu => if calls.launch.Err? then Some(External(calls.launch.error)) else None
    case DetectThreads => ErrorOf(calls.threads)
    case PinVcpus => ErrorOf(calls.pinVcpus)
    case DetectMsi => ErrorOf(calls.spawnWorker)
    case PeripheralHooks => ErrorOf(calls.vmUp.error)
    case _ => None
  }

  /** A bring-up step fails if and only if one of its state's own calls fails, and with the
      error of the first that does. */
  lemma StepFailsIff(k: Kernel, env: Env, m: Machine)
    requires m.state.BringUp()
    ensures StepOf(k, env, m).1 == CallError(k, env, m)
  {
    var said := m.Push(System, Enter(m.state));
    if m.state == PreparePci {
      assert StagedBy(k, env, said) == StagedBy(k, env, m);
    }
  }

  /** The states of bring-up, in order. */
  const BRING_UP: seq<VmState> :=
    [Init, Validate, PrepareHugepages, PreparePci, ReserveCpus, LaunchQemu, DetectThreads, PinVcpus, DetectMsi,
     PinIrqs, PeripheralHooks, Steady]

  /** Each step leads from one state to the next of the list, or, if it fails, nowhere. */
  lemma StepsInOrder(k: Kernel, env: Env, m: Machine, i: nat)
    requires i < 11 && m.state == BRING_UP[i]
    ensures StepOf(k, env, m).0.state == if CallError(k, env, m).None? then BRING_UP[i + 1] else BRING_UP[i]
  {
    StepFailsIff(k, env, m);
    WorkOwnFieldOnly(k, env, m.Push(System, Enter(m.state)));
  }

  /** The CPU plan that Validate records, if CPUID and topology can be read. */
  function PlanRead(env: Env, m: Machine): Option<CpuPlan> {
    if env.calls.cpuid && env.calls.topology.Ok? then Some(CpuPlanOf(env.calls.topology.value, m.rt.cpus))
    else m.rt.plan
  }

  /** Everything but the events that a successful step changes: each state's work leaves
      what its calls returned in the fields of that state, and nothing else. */
  lemma StepEffect(k: Kernel, env: Env, m: Machine)
    requires m.state.BringUp() && CallError(k, env, m).None?
    ensures var m1, s := StepOf(k, env, m).0, StagedBy(k, env, m).0;
      && m1.rt.plan == (if m.state == Validate then PlanRead(env, m) else m.rt.plan)
      && m1.rt.huge == (if m.state == PrepareHugepages then env.calls.hugepages.value.0 else m.rt.huge)
      && m1.rt.transitions == (if m.state == PreparePci then s.log else m.rt.transitions)
      && m1.host == (if m.state == PreparePci then s.host else m.host)
      && m1.writes == (if m.state == PreparePci then s.writes else m.writes)
      && m1.rt.qemu == (if m.state == LaunchQemu then Some(env.calls.launch.value) else m.rt.qemu)
      && m1.rt.pinnedThreads == (m.state == PinVcpus || m.rt.pinnedThreads)
      && m1.rt.pinnedIrqs == (m.state == PinIrqs || m.rt.pinnedIrqs)
  {
    StepFailsIff(k, env, m);
    var said := m.Push(System, Enter(m.state));
    WorkOwnFieldOnly(k, env, said);
    if m.state == Validate {
      ValidatedEffect(env, said);
    } else if m.state == PreparePci {
      assert StagedBy(k, env, said) == StagedBy(k, env, m);
    }
  }

  /** The milestone that ends a state's work, if it has a fixed one. */
  function MilestoneOf(state: VmState): Option<Milestone> {
    match state
    case PreparePci => Some(PciStaged)
    case ReserveCpus => Some(CpusetCreated)
    case DetectThreads => Some(ThreadsFound)
    case PinVcpus => Some(VcpusPinned)
    case DetectMsi => Some(IrqWorkerSpawned)
    case PinIrqs => Some(IrqsDelegated)
    case PeripheralHooks => Some(VmUpApplied)
    case Steady => Some(AlreadySteady)
    case _ => None
  }

  /** A step that succeeds says so last; one whose call failed says nothing after it. */
  lemma StepSays(k: Kernel, env: Env, m: Machine)
    requires m.state.BringUp()
    ensures var said := m.rt.events + [CoreEvent(System, Enter(m.state))];
      var notes := if m.state == PeripheralHooks then env.calls.vmUp.notes else [];
      MilestoneOf(m.state).Some? ==>
        StepOf(k, env, m).0.rt.events
        == said + notes + if CallError(k, env, m).None? then [CoreEvent(Info, Done(MilestoneOf(m.state).value))] else []
    ensures m.state == LaunchQemu ==>
      StepOf(k, env, m).0.rt.events
      == m.rt.events + [CoreEvent(System, Enter(LaunchQemu))]
         + if env.calls.launch.Ok? then [CoreEvent(Info, Done(QemuLaunched(env.calls.launch.value)))] else []
  {
    StepFailsIff(k, env, m);
    var said := m.rt.events + [CoreEvent(System, Enter(m.state))];
    assert said + [] == said;
    assert said + env.calls.vmUp.notes + [] == said + env.calls.vmUp.notes;
  }

  function Reported(milestone: Milestone): CoreEvent {
    CoreEvent(Info, Done(milestone))
  }

  /** What Validate says, check after check, up to the first that fails. */
  lemma ValidateSays(k: Kernel, env: Env, m: Machine)
    requires m.state == Validate
    ensures var said := m.rt.events + [CoreEvent(System, Enter(Validate))];
      var c := env.calls;
      StepOf(k, env, m).0.rt.events ==
        if c.cpuset.Some? then said
        else if c.qemuPaths.Some? then said + [Reported(CpusetChecked)]
        else if c.gpuPolicy.Some? then said + [Reported(CpusetChecked), Reported(QemuChecked)]
        else
          said + [Reported(CpusetChecked), Reported(QemuChecked), Reported(GpuPolicyChecked)]
          + [if !c.cpuid then CoreEvent(Warning, Done(CpuidMissing))
             else if c.topology.Err? then CoreEvent(Warning, Done(TopologyMissing(c.topology.error)))
             else if Sound(CpuPlanOf(c.topology.value, m.rt.cpus)) then Reported(CpuPlanValidated)
             else CoreEvent(Error, PlanFindings)]
  {}

  /** What a stop says. */
  lemma StopSays(k: Kernel, env: Env, m: Machine)
    requires m.state.BringUp()
    ensures var late := m.state == Steady || m.state == PinIrqs || m.state == PeripheralHooks;
      var (m1, error) := ShutdownStepOf(k, env, m);
      m1.rt.events == m.rt.events + [CoreEvent(System, if late then Enter(Shutdown) else LeaveFor(m.state))]
                      + if error.Some? then [] else [Reported(QemuStopped(late))]
  {
    var late := m.state == Steady || m.state == PinIrqs || m.state == PeripheralHooks;
    var said := m.rt.events + [CoreEvent(System, if late then Enter(Shutdown) else LeaveFor(m.state))];
    assert said + [] == said;
    assert ShutdownStepOf(k, env, m) == StopStepOf(env, m);
  }

  /** What the last part of a teardown says. */
  lemma HooksSay(env: Env, m: Machine)
    ensures var m1 := HugepagesCleaned(m).Push(Info, Done(HugepagesTornDown)).Say(env.calls.vmDown.notes);
      m1.rt.events == m.rt.events + (if m.rt.huge.active then [Reported(HugepagesReleased)] else [])
                      + [Reported(HugepagesTornDown)] + env.calls.vmDown.notes
  {
    assert m.rt.events + [] == m.rt.events;
  }

  /** What a teardown says, and the steps after it. */
  lemma TeardownSays(k: Kernel, env: Env, m: Machine)
    ensures var events, failed := ShutdownStepOf(k, env, m).0.rt.events, ShutdownStepOf(k, env, m).1.Some?;
      && (m.state == Shutdown ==>
            events == m.rt.events + [CoreEvent(System, RestoringPci)] + [Reported(PciRestored)]
                      + [CoreEvent(System, Enter(Cleanup))] + [Reported(CpusetRemoved)]
                      + (if m.rt.huge.active then [Reported(HugepagesReleased)] else [])
                      + [Reported(HugepagesTornDown)] + env.calls.vmDown.notes
                      + if failed then [] else [Reported(VmDownApplied)])
      && (m.state == Cleanup ==> events == m.rt.events + [CoreEvent(System, Done(ShutdownCompleted))])
      && (m.state == Idle ==> events == m.rt.events + [CoreEvent(System, Done(ShutdownRepeated))])
  {
    if m.state == Shutdown {
      var m1 := PciRestoredBy(k, env, m).Push(System, Enter(Cleanup)).Push(Info, Done(CpusetRemoved));
      HooksSay(env, m1);
      assert m1.rt.huge == m.rt.huge;
      assert m1.rt.events == m.rt.events + [CoreEvent(System, RestoringPci)] + [Reported(PciRestored)]
                             + [CoreEvent(System, Enter(Cleanup))] + [Reported(CpusetRemoved)];
      var m2 := HugepagesCleaned(m1).Push(Info, Done(HugepagesTornDown)).Say(env.calls.vmDown.notes);
      assert m2.rt.events + [] == m2.rt.events;
    }
  }

  /** When a shutdown step fails, and what it does: a stop takes the handle and fails if the
      process cannot be stopped; a teardown restores the devices and gives the hugepages
      back, and fails if its hook does; the last steps cannot fail. */
  lemma ShutdownEffect(k: Kernel, env: Env, m: Machine)
    ensures var (m1, error) := ShutdownStepOf(k, env, m);
      && error == (if m.state == Shutdown then ErrorOf(env.calls.vmDown.error)
                   else if m.state.BringUp() && m.rt.qemu.Some? then ErrorOf(env.calls.terminate) else None)
      && m1.rt == m.rt.(qemu := if m.state.BringUp() then None else m.rt.qemu,
                        huge := if m.state == Shutdown && m.rt.huge.active then INACTIVE else m.rt.huge,
                        events := m1.rt.events)
      && m1.host == (if m.state == Shutdown then Restored(k, env.restoreScan, m).host else m.host)
      && m1.writes == (if m.state == Shutdown then Restored(k, env.restoreScan, m).writes else m.writes)
  {
    if m.state == Shutdown {
      TornDownEffect(k, env, m);
    } else if m.state.BringUp() {
      StopEffect(env, m);
    }
  }

  // ---------- Whole segments ----------

  /** A failed step stays where it was; a successful one short of Steady moves on by one. */
  lemma StepMovesByOne(k: Kernel, env: Env, m: Machine)
    ensures var (m1, error) := StepOf(k, env, m);
      m1.state.Rank() == m.state.Rank() + if error.None? && m.state != Steady then 1 else 0
  {
    if m.state.BringUp() {
      WorkOwnFieldOnly(k, env, m.Push(System, Enter(m.state)));
    }
  }

  /** A shutdown step fails, stays in Idle, or moves on: into Shutdown, or by one. */
  lemma ShutdownMoves(k: Kernel, env: Env, m: Machine)
    ensures var (m1, error) := ShutdownStepOf(k, env, m);
      && (error.Some? ==> m1.state == m.state)
      && (error.None? && m.state.BringUp() ==> m1.state == Shutdown)
      && (error.None? && m.state == Shutdown ==> m1.state == Cleanup)
      && (m.state == Cleanup || m.state == Idle ==> m1.state == Idle && error.None?)
  {
    if m.state == Shutdown {
      TornDownEffect(k, env, m);
    } else if m.state.BringUp() {
      StopEffect(env, m);
    }
  }

  /** Bring-up steps in turn until one fails. */
  ghost function Up(k: Kernel, envs: seq<Env>, m: Machine): (Machine, Option<Failure>) {
    if envs == [] then (m, None)
    else
      var (m1, error) := Up(k, envs[..|envs| - 1], m);
      if error.Some? then (m1, error) else StepOf(k, envs[|envs| - 1], m1)
  }

  /** Shutdown steps in turn until one fails. */
  ghost function Down(k: Kernel, envs: seq<Env>, m: Machine): (Machine, Option<Failure>) {
    if envs == [] then (m, None)
    else
      var (m1, error) := Down(k, envs[..|envs| - 1], m);
      if error.Some? then (m1, error) else ShutdownStepOf(k, envs[|envs| - 1], m1)
  }

  // ---------- Bring-up without interruption ----------

  /** A VM past LaunchQemu has its QEMU handle. */
  predicate HasHandle(m: Machine) {
    DetectThreads.Rank() <= m.state.Rank() <= Steady.Rank() ==> m.rt.qemu.Some?
  }

  lemma StepKeepsHandle(k: Kernel, env: Env, m: Machine)
    requires HasHandle(m)
    ensures HasHandle(StepOf(k, env, m).0)
  {
    if m.state.BringUp() {
      var said := m.Push(System, Enter(m.state));
      WorkOwnFieldOnly(k, env, said);
      WorkDelivers(k, env, said);
      HandleOfNext(said, Work(k, env, said).0, Work(k, env, said).1);
    }
  }

  lemma HandleOfNext(m: Machine, m1: Machine, error: Option<Failure>)
    requires HasHandle(m) && m.state.BringUp() && OwnFieldOnly(m, m1, error) && (error.None? ==> Delivers(m, m1))
    ensures if error.Some? then HasHandle(m1) else HasHandle(m1.(state := m.state.Next()))
  {
    NextRank(m.state);
  }

  /** Bring-up from scratch that is never asked to stop: whatever fails and however often it
      is tried again, from DetectThreads on there is a QEMU handle, and only then. */
  lemma {:induction false} BringUpHasHandle(k: Kernel, envs: seq<Env>, m: Machine)
    requires m.state == Init && m.rt.qemu.None?
    ensures HasHandle(Tries(k, envs, m))
    ensures (Tries(k, envs, m).rt.qemu.Some? ==> Tries(k, envs, m).state.Rank() >= DetectThreads.Rank())
    ensures Tries(k, envs, m).state.BringUp()
  {
    if envs != [] {
      var front := envs[..|envs| - 1];
      BringUpHasHandle(k, front, m);
      var before := Tries(k, front, m);
      StepKeepsHandle(k, envs[|envs| - 1], before);
      StepMovesByOne(k, envs[|envs| - 1], before);
      HandleNotEarly(k, envs[|envs| - 1], before);
    }
  }

  lemma HandleNotEarly(k: Kernel, env: Env, m: Machine)
    requires m.state.BringUp() && (m.rt.qemu.Some? ==> m.state.Rank() >= DetectThreads.Rank())
    ensures var m1 := StepOf(k, env, m).0;
      m1.state.BringUp() && (m1.rt.qemu.Some? ==> m1.state.Rank() >= DetectThreads.Rank())
  {
    var said := m.Push(System, Enter(m.state));
    WorkOwnFieldOnly(k, env, said);
    NextRank(m.state);
  }

  /** Bring-up steps in turn, going on after failures. */
  ghost function Tries(k: Kernel, envs: seq<Env>, m: Machine): Machine {
    if envs == [] then m else StepOf(k, envs[|envs| - 1], Tries(k, envs[..|envs| - 1], m)).0
  }

  /** Every step of bring-up announces its state first. */
  lemma StepAnnounces(k: Kernel, env: Env, m: Machine)
    requires m.state.BringUp() && ValidHost(m.host)
    ensures m.rt.events + [CoreEvent(System, Enter(m.state))] <= StepOf(k, env, m).0.rt.events
  {
    WorkGrows(k, env, m.Push(System, Enter(m.state)));
  }
}
