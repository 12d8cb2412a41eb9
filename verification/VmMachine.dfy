/** The state machine object: one VM's runtime record, advanced step by step. */
module VmMachine {
  import opened Prelude
  import opened Config
  import opened CpuPlan
  import opened Hugepages
  import opened VfioExecute
  import opened VfioRestore
  import opened VfioStaging
  import opened Lifecycle
  import Pci

  class VmRuntime {
    const cfg: VmConfig
    const cpus: VmCpuLayout
    var qemu: Option<nat>
    var pinnedThreads: bool
    var pinnedIrqs: bool
    var transitions: seq<VfioTransition>
    var events: seq<CoreEvent>
    var huge: HugeRecord
    var plan: Option<CpuPlan>

    constructor (cfg: VmConfig, cpus: VmCpuLayout)
      ensures Value() == FreshRuntime(cfg, cpus)
    {
      this.cfg, this.cpus := cfg, cpus;
      qemu, plan := None, None;
      pinnedThreads, pinnedIrqs := false, false;
      transitions, events := [], [];
      huge := INACTIVE;
    }

    function Value(): Runtime
      reads this
    {
      Runtime(cfg, cpus, qemu, pinnedThreads, pinnedIrqs, transitions, events, huge, plan)
    }

    method PushEvent(kind: EventKind, message: Message)
      modifies this
      ensures Value() == old(Value()).(events := old(events) + [CoreEvent(kind, message)])
    {
      events := events + [CoreEvent(kind, message)];
    }
  }

  /** Two environments that differ in what the scans return only. */
  predicate SameCalls(a: Env, b: Env) {
    a.calls == b.calls
  }

  /** The calls of the i-th step went as the i-th environment says. */
  ghost predicate CallsAnswered(envs: nat -> Env, used: seq<Env>) {
    forall i :: 0 <= i < |used| ==> SameCalls(envs(i), used[i])
  }

  lemma CallsAnsweredSnoc(envs: nat -> Env, used: seq<Env>, env: Env)
    requires CallsAnswered(envs, used) && SameCalls(envs(|used|), env)
    ensures CallsAnswered(envs, used + [env])
  {}

  /** The scanner that returns this scan of h. */
  ghost function ScanOnce(h: HostMap, seen: Option<Pci.Inventory>): Scanner
    requires seen.Some? ==> SnapshotOf(seen.value, h)
  {
    (g: HostMap) => if g == h then seen else None
  }

  /** Shutdown steps left. */
  function ToIdle(state: VmState): nat {
    if state.BringUp() then 3 else if state == Shutdown then 2 else if state == Cleanup then 1 else 0
  }

  /** The two closing events of a bring-up that reached Steady. */
  function Announced(m: Machine, steady: bool): Machine {
    if steady then m.Push(System, Enter(Steady)).Push(Info, Done(ReachedSteady)) else m
  }

  class VmStateMachine {
    var state: VmState
    const rt: VmRuntime

    constructor (rt: VmRuntime)
      ensures state == Init && this.rt == rt
    {
      this.rt := rt;
      state := Init;
    }

    function View(host: Host): Machine
      reads this, rt, host
    {
      Machine(state, rt.Value(), host.functions, host.writes)
    }

    /** Report a milestone unless the call before it failed. */
    method Report(check: Check, milestone: Milestone, ghost host: Host) returns (error: Option<Failure>)
      modifies rt
      ensures (View(host), error) == Checked(old(View(host)), check, milestone)
    {
      if check.Some? {
        return Some(External(check.value));
      }
      rt.PushEvent(Info, Done(milestone));
      return None;
    }

    method DoValidate(env: Env, host: Host) returns (error: Option<Failure>)
      modifies rt
      ensures (View(host), error) == Validated(env, old(View(host)))
    {
      error := Report(env.calls.cpuset, CpusetChecked, host);
      if error.Some? { return; }
      error := Report(env.calls.qemuPaths, QemuChecked, host);
      if error.Some? { return; }
      error := Report(env.calls.gpuPolicy, GpuPolicyChecked, host);
      if error.Some? { return; }
      error := DoCpuPlan(env, host);
    }

    method DoCpuPlan(env: Env, host: Host) returns (error: Option<Failure>)
      modifies rt
      ensures (View(host), error) == WithCpuPlan(env, old(View(host)))
    {
      if !env.calls.cpuid {
        rt.PushEvent(Warning, Done(CpuidMissing));
        return None;
      }
      if env.calls.topology.Err? {
        rt.PushEvent(Warning, Done(TopologyMissing(env.calls.topology.error)));
        return None;
      }
      var plan := BuildCpuPlan(env.calls.topology.value, rt.cpus);
      var findings := ValidateCpuPlan(plan);
      if findings != [] {
        rt.PushEvent(Error, PlanFindings);
        return Some(PlanRejected);
      }
      rt.plan := Some(plan);
      rt.PushEvent(Info, Done(CpuPlanValidated));
      return None;
    }

    method DoPreparePci(env: Env, host: Host) returns (error: Option<Failure>, ghost used: Env)
      requires ValidHost(host.functions)
      modifies rt, host
      ensures SameCalls(env, used) && ValidHost(host.functions)
      ensures (View(host), error) == PciPrepared(host.kernel, used, old(View(host)))
    {
      ghost var h0 := host.functions;
      var r, log, seen, reseen := StagePciDevices(rt.cfg, host, rt.transitions);
      rt.transitions := log;
      used := env.(scan := ScanOnce(h0, seen), rescan := ScanOnce(host.functions, reseen));
      if r.Err? {
        return Some(External(env.calls.stagingError)), used;
      }
      rt.PushEvent(Info, Done(PciStaged));
      return None, used;
    }

    /** One step of bring-up. What the scans of the step returned is reported in `used`. */
    method Step(env: Env, host: Host) returns (error: Option<Failure>, ghost used: Env)
      requires ValidHost(host.functions)
      modifies this, rt, host
      ensures SameCalls(env, used) && ValidHost(host.functions)
      ensures (View(host), error) == StepOf(host.kernel, used, old(View(host)))
    {
      used := env;
      if !state.BringUp() {
        return Some(WrongState(state)), used;
      }
      rt.PushEvent(System, Enter(state));
      error, used := DoWork(env, host);
      if error.None? {
        state := state.Next();
      }
    }

    method DoWork(env: Env, host: Host) returns (error: Option<Failure>, ghost used: Env)
      requires ValidHost(host.functions) && state.BringUp()
      modifies rt, host
      ensures SameCalls(env, used) && ValidHost(host.functions)
      ensures (View(host), error) == Work(host.kernel, used, old(View(host)))
    {
      used, error := env, None;
      if state == Validate {
        error := DoValidate(env, host);
      } else if state == PreparePci {
        error, used := DoPreparePci(env, host);
      } else if state != Init {
        error := DoPlainWork(env, host);
      }
    }

    method DoPlainWork(env: Env, host: Host) returns (error: Option<Failure>)
      requires state.BringUp() && !state.Init? && !state.Validate? && !state.PreparePci?
      modifies rt
      ensures (View(host), error) == Work(host.kernel, env, old(View(host)))
    {
      error := None;
      match state {
        case PrepareHugepages =>
          if env.calls.hugepages.Err? {
            return Some(External(env.calls.hugepages.error));
          }
          rt.huge := env.calls.hugepages.value.0;
          rt.events := rt.events + env.calls.hugepages.value.1;
        case ReserveCpus =>
          error := Report(env.calls.createCpuset, CpusetCreated, host);
        case LaunchQemu =>
          if env.calls.launch.Err? {
            return Some(External(env.calls.launch.error));
          }
          rt.qemu := Some(env.calls.launch.value);
          rt.PushEvent(Info, Done(QemuLaunched(env.calls.launch.value)));
        case DetectThreads =>
          error := Report(env.calls.threads, ThreadsFound, host);
        case PinVcpus =>
          if env.calls.pinVcpus.None? {
            rt.pinnedThreads := true;
          }
          error := Report(env.calls.pinVcpus, VcpusPinned, host);
        case DetectMsi =>
          error := Report(env.calls.spawnWorker, IrqWorkerSpawned, host);
        case PinIrqs =>
          rt.pinnedIrqs := true;
          rt.PushEvent(Info, Done(IrqsDelegated));
        case PeripheralHooks =>
          rt.events := rt.events + env.calls.vmUp.notes;
          error := Report(env.calls.vmUp.error, VmUpApplied, host);
        case Steady =>
          rt.PushEvent(Info, Done(AlreadySteady));
      }
    }

    /** One step of shutdown. */
    method StepShutdown(env: Env, host: Host) returns (error: Option<Failure>, ghost used: Env)
      requires ValidHost(host.functions)
      modifies this, rt, host
      ensures SameCalls(env, used) && ValidHost(host.functions)
      ensures (View(host), error) == ShutdownStepOf(host.kernel, used, old(View(host)))
    {
      used, error := env, None;
      if state == Shutdown {
        error, used := DoTeardown(env, host);
        if error.None? {
          state := Cleanup;
        }
      } else if state.BringUp() {
        error := Stop(env, host);
      } else {
        Finish(env, host);
      }
    }

    /** The last transition, and the no-op after it. */
    method Finish(ghost env: Env, ghost host: Host)
      requires state in {Cleanup, Idle}
      modifies this, rt
      ensures (View(host), None) == ShutdownStepOf(host.kernel, env, old(View(host)))
    {
      if state == Idle {
        rt.PushEvent(System, Done(ShutdownRepeated));
      } else {
        state := Idle;
        rt.PushEvent(System, Done(ShutdownCompleted));
      }
    }

    method Stop(env: Env, ghost host: Host) returns (error: Option<Failure>)
      requires state.BringUp()
      modifies this, rt
      ensures (View(host), error) == StopStepOf(env, old(View(host)))
    {
      var late := state in {Steady, PinIrqs, PeripheralHooks};
      rt.PushEvent(System, if late then Enter(Shutdown) else LeaveFor(state));
      error := StopQemu(env, host, late);
      if error.None? {
        state := Shutdown;
      }
    }

    /** Take the handle, then try to stop the process. */
    method StopQemu(env: Env, ghost host: Host, late: bool) returns (error: Option<Failure>)
      modifies rt
      ensures (View(host), error) == QemuStop(env, old(View(host)), late)
    {
      var stopped := if rt.qemu.Some? then env.calls.terminate else None;
      rt.qemu := None;
      error := Report(stopped, QemuStopped(late), host);
    }

    method DoTeardown(env: Env, host: Host) returns (error: Option<Failure>, ghost used: Env)
      requires ValidHost(host.functions)
      modifies rt, host
      ensures SameCalls(env, used) && ValidHost(host.functions)
      ensures (View(host), error) == TornDown(host.kernel, used, old(View(host)))
    {
      used := DoRestore(env, host);
      rt.PushEvent(System, Enter(Cleanup));
      rt.PushEvent(Info, Done(CpusetRemoved));
      ResetHugepages(host);
      rt.PushEvent(Info, Done(HugepagesTornDown));
      rt.events := rt.events + env.calls.vmDown.notes;
      error := Report(env.calls.vmDown.error, VmDownApplied, host);
    }

    method DoRestore(env: Env, host: Host) returns (ghost used: Env)
      requires ValidHost(host.functions)
      modifies rt, host
      ensures SameCalls(env, used) && ValidHost(host.functions)
      ensures View(host) == PciRestoredBy(host.kernel, used, old(View(host)))
    {
      ghost var h0 := host.functions;
      rt.PushEvent(System, RestoringPci);
      var outcomes, seen := RestoreImpl(rt.transitions, host, Live);
      used := env.(restoreScan := ScanOnce(h0, seen));
      if rt.transitions != [] && seen.Some? {
        DevicesKept(Ordered(seen.value, rt.transitions), seen.value, host.kernel, Live,
                    Progress(h0, old(host.writes), []));
      }
      rt.PushEvent(Info, Done(PciRestored));
    }

    method ResetHugepages(ghost host: Host)
      modifies rt
      ensures View(host) == HugepagesCleaned(old(View(host)))
    {
      if rt.huge.active {
        rt.huge := INACTIVE;
        rt.PushEvent(Info, Done(HugepagesReleased));
      }
    }
  
    /** Blocking bring-up: each state's work is done once, in order, until Steady or the
        first failure. */
    method RunUntilSteady(envs: nat -> Env, host: Host) returns (error: Option<Failure>, ghost used: seq<Env>)
      requires ValidHost(host.functions)
      modifies this, rt, host
      ensures CallsAnswered(envs, used)
      ensures |used| <= 11
      ensures error.None? ==> old(state).BringUp() && state == Steady && |used| == 11 - old(state).Rank()
      ensures old(state).BringUp() ==> Up(host.kernel, used, old(View(host))).1 == error
      ensures old(state).BringUp() ==> View(host) == Announced(Up(host.kernel, used, old(View(host))).0, error.None?)
      ensures !old(state).BringUp() ==> error == Some(WrongState(old(state))) && View(host) == old(View(host))
    {
      if !state.BringUp() {
        return Some(WrongState(state)), [];
      }
      error, used := Climb(envs, host);
      if error.None? {
        rt.PushEvent(System, Enter(Steady));
        rt.PushEvent(Info, Done(ReachedSteady));
      }
    }

    method Climb(envs: nat -> Env, host: Host) returns (error: Option<Failure>, ghost used: seq<Env>)
      requires ValidHost(host.functions) && state.BringUp()
      modifies this, rt, host
      ensures CallsAnswered(envs, used)
      ensures (View(host), error) == Up(host.kernel, used, old(View(host)))
      ensures |used| <= 11 - old(state).Rank()
      ensures error.None? ==> state == Steady && |used| == 11 - old(state).Rank()
    {
      used, error := [], None;
      var n := 0;
      ghost var start, rank := View(host), state.Rank();
      while state != Steady
        invariant n == |used| && error.None?
        invariant ValidHost(host.functions)
        invariant state.Rank() == rank + n <= 11
        invariant (View(host), None) == Up(host.kernel, used, start)
        invariant CallsAnswered(envs, used)
        decreases 11 - rank - n
      {
        ghost var env;
        error, env := StepAfter(envs(n), host, start, used);
        CallsAnsweredSnoc(envs, used, env);
        used, n := used + [env], n + 1;
        if error.Some? {
          return;
        }
      }
    }

    /** A step taken after the steps in `done`. */
    method StepAfter(env: Env, host: Host, ghost start: Machine, ghost done: seq<Env>)
        returns (error: Option<Failure>, ghost used: Env)
      requires ValidHost(host.functions) && state.Rank() < 11
      requires (View(host), None) == Up(host.kernel, done, start)
      modifies this, rt, host
      ensures SameCalls(env, used) && ValidHost(host.functions)
      ensures (View(host), error) == Up(host.kernel, done + [used], start)
      ensures error.None? ==> state.Rank() == old(state).Rank() + 1
    {
      ghost var before := View(host);
      error, used := Step(env, host);
      StepMovesByOne(host.kernel, used, before);
      assert (done + [used])[..|done|] == done;
    }

    /** Blocking shutdown: at most three steps, and fewer only by failing or starting late. */
    method RunShutdown(envs: nat -> Env, host: Host) returns (error: Option<Failure>, ghost used: seq<Env>)
      requires ValidHost(host.functions)
      modifies this, rt, host
      ensures CallsAnswered(envs, used)
      ensures |used| <= 3
      ensures (View(host), error) == Down(host.kernel, used, old(View(host)))
      ensures error.None? ==> state == Idle
    {
      used, error := [], None;
      var n := 0;
      ghost var start := View(host);
      while state != Idle
        invariant error.None? && n == |used| && n <= 3 - ToIdle(state)
        invariant ValidHost(host.functions)
        invariant (View(host), None) == Down(host.kernel, used, start)
        invariant CallsAnswered(envs, used)
        decreases ToIdle(state)
      {
        ghost var env;
        error, env := ShutdownAfter(envs(n), host, start, used);
        CallsAnsweredSnoc(envs, used, env);
        used, n := used + [env], n + 1;
        if error.Some? {
          return;
        }
      }
    }

    /** A shutdown step taken after the steps in `done`. */
    method ShutdownAfter(env: Env, host: Host, ghost start: Machine, ghost done: seq<Env>)
        returns (error: Option<Failure>, ghost used: Env)
      requires ValidHost(host.functions) && state != Idle
      requires (View(host), None) == Down(host.kernel, done, start)
      modifies this, rt, host
      ensures SameCalls(env, used) && ValidHost(host.functions)
      ensures (View(host), error) == Down(host.kernel, done + [used], start)
      ensures error.None? ==> ToIdle(state) == ToIdle(old(state)) - 1
      ensures error.Some? ==> state == old(state)
    {
      ghost var before := View(host);
      error, used := StepShutdown(env, host);
      ShutdownMoves(host.kernel, used, before);
      assert (done + [used])[..|done|] == done;
    }
  }
}
