/** The daemon's side of a VM: what it wants, what it does each tick, which events it has
    sent, and what an operator's commands change. */
module Daemon {
  import opened Prelude
  import opened Config
  import opened CpuList
  import opened CpuPlan
  import opened Hugepages
  import opened VfioExecute
  import opened Lifecycle

  /** A VM's configuration entry as the daemon uses it. */
  datatype VmEntry = VmEntry(cfg: VmConfig, hostCpus: string, vmCpus: string)

  datatype IpcState = Stopped | Starting | Running | ShuttingDown

  function ToIpcState(state: VmState): IpcState {
    match state
    case Steady => Running
    case Shutdown => ShuttingDown
    case Cleanup => ShuttingDown
    case Idle => Stopped
    case _ => Starting
  }

  datatype IpcKind = IpcInfo | IpcWarning | IpcError | IpcSystem | IpcShell

  datatype IpcEvent = IpcEvent(kind: IpcKind, message: Message)

  function ToIpcEvent(e: CoreEvent): IpcEvent {
    IpcEvent(match e.kind
             case Info => IpcInfo
             case Warning => IpcWarning
             case Error => IpcError
             case System => IpcSystem, e.message)
  }

  function ToIpcEvents(es: seq<CoreEvent>): seq<IpcEvent> {
    seq(|es|, i requires 0 <= i < |es| => ToIpcEvent(es[i]))
  }

  /** What was sent is the log, event by event: the same message under the same kind. */
  predicate Carries(sent: seq<IpcEvent>, log: seq<CoreEvent>) {
    && |sent| == |log|
    && forall i :: 0 <= i < |log| ==>
         && sent[i].message == log[i].message
         && (sent[i].kind == IpcInfo <==> log[i].kind == Info)
         && (sent[i].kind == IpcWarning <==> log[i].kind == Warning)
         && (sent[i].kind == IpcError <==> log[i].kind == Error)
         && (sent[i].kind == IpcSystem <==> log[i].kind == System)
  }

  lemma EventsCarried(es: seq<CoreEvent>)
    ensures Carries(ToIpcEvents(es), es)
  {}

  datatype Vm = Vm(m: Machine, desired: IpcState, cursor: nat)

  /** A VM for a configuration entry, unless a CPU list does not parse. */
  function NewVm(entry: VmEntry, host: HostMap, writes: nat): Option<Vm> {
    match (StrictReading(entry.hostCpus), StrictReading(entry.vmCpus))
    case (Some(h), Some(v)) => Some(Vm(Fresh(entry.cfg, VmCpuLayout(h, v), host, writes), Stopped, 0))
    case _ => None
  }

  // ---------- One tick ----------

  /** Notice a guest that shut itself down. */
  function DetectExit(exited: bool, vm: Vm): Vm {
    if vm.m.state == Steady && vm.m.rt.qemu.Some? && exited
    then vm.(m := vm.m.(rt := vm.m.rt.(qemu := None)), desired := Stopped)
    else vm
  }

  /** A failed step is reported in the VM's own log. */
  function Logged(m: Machine, error: Option<Failure>): Machine {
    if error.Some? then m.Push(Error, StepFailed(error.value)) else m
  }

  predicate WantedUp(vm: Vm) {
    vm.desired in {Running, Starting}
  }

  /** One step towards the desired state. */
  ghost function Drive(k: Kernel, env: Env, vm: Vm): Vm {
    if WantedUp(vm) then
      if vm.m.state == Steady then vm.(desired := Running)
      else if !vm.m.state.BringUp() then vm
      else
        var (m, error) := StepOf(k, env, vm.m);
        vm.(m := Logged(m, error), desired := if error.Some? then Stopped else vm.desired)
    else if vm.m.state == Idle then vm
    else
      var (m, error) := ShutdownStepOf(k, env, vm.m);
      vm.(m := Logged(m, error))
  }

  /** The events not sent yet, and the cursor moved past them. */
  function Flush(vm: Vm): (Vm, seq<IpcEvent>) {
    if |vm.m.rt.events| <= vm.cursor then (vm, [])
    else (vm.(cursor := |vm.m.rt.events|), ToIpcEvents(vm.m.rt.events[vm.cursor..]))
  }

  ghost function Driven(k: Kernel, env: Env, exited: bool, vm: Vm): Vm {
    Drive(k, env, DetectExit(exited, vm))
  }

  ghost function TickOf(k: Kernel, env: Env, exited: bool, vm: Vm): (Vm, seq<IpcEvent>) {
    Flush(Driven(k, env, exited, vm))
  }

  // ---------- Commands ----------

  /** `start` and `restart`: a missing or Idle VM is made anew; either way it is wanted up. */
  function StartOf(entry: VmEntry, vm: Option<Vm>, host: HostMap, writes: nat): Option<Vm> {
    if vm.Some? && vm.value.m.state != Idle then Some(vm.value.(desired := Starting))
    else
      match NewVm(entry, host, writes)
      case None => vm
      case Some(made) => Some(made.(desired := Starting))
  }

  function StopOf(vm: Option<Vm>): Option<Vm> {
    if vm.None? then None else Some(vm.value.(desired := ShuttingDown))
  }

  /** A first start, or one of an Idle VM, makes a VM with nothing done yet: wanted up, in
      Init, with the host layout read from the host list and the VM layout from the VM list;
      if either list is malformed, nothing happens. Any other start only wants the VM up. */
  lemma StartMakes(entry: VmEntry, vm: Option<Vm>, at: World)
    ensures var next := StartOf(entry, vm, at.host, at.writes);
      var hostCpus, vmCpus := StrictReading(entry.hostCpus), StrictReading(entry.vmCpus);
      if vm.Some? && vm.value.m.state != Idle then
        next.Some? && WantedUp(next.value) && next.value.m == vm.value.m && next.value.cursor == vm.value.cursor
      else if hostCpus.None? || vmCpus.None? then next == vm
      else
        && next.Some? && WantedUp(next.value) && next.value.cursor == 0
        && next.value.m.state == Init && next.value.m.host == at.host && next.value.m.writes == at.writes
        && next.value.m.rt.cfg == entry.cfg
        && next.value.m.rt.cpus.host == hostCpus.value && next.value.m.rt.cpus.vm == vmCpus.value
        && next.value.m.rt.qemu.None? && !next.value.m.rt.pinnedThreads && !next.value.m.rt.pinnedIrqs
        && next.value.m.rt.transitions == [] && next.value.m.rt.events == []
        && !next.value.m.rt.huge.active && next.value.m.rt.plan.None?
  {}

  // ---------- Runs ----------

  datatype World = World(host: HostMap, writes: nat)

  datatype What = StartCommand | StopCommand | Tick(env: Env, exited: bool)

  /** An action, and the host as it is when the action is taken: other VMs and programs may
      have changed it since the last one. */
  datatype Action = Action(at: World, what: What)

  function Relocate(vm: Vm, at: World): Vm {
    vm.(m := vm.m.(host := at.host, writes := at.writes))
  }

  function Met(vm: Option<Vm>, at: World): Option<Vm> {
    if vm.None? then None else Some(Relocate(vm.value, at))
  }

  ghost function Apply(k: Kernel, entry: VmEntry, vm: Option<Vm>, a: Action): (Option<Vm>, seq<IpcEvent>) {
    var met := Met(vm, a.at);
    match a.what
    case StartCommand => (StartOf(entry, met, a.at.host, a.at.writes), [])
    case StopCommand => (StopOf(met), [])
    case Tick(env, exited) =>
      if met.None? then (None, [])
      else
        var (next, batch) := TickOf(k, env, exited, met.value);
        (Some(next), batch)
  }

  /** The VM after a run; there is none before the first start. */
  ghost function After(k: Kernel, entry: VmEntry, acts: seq<Action>): Option<Vm> {
    if acts == [] then None
    else Apply(k, entry, After(k, entry, acts[..|acts| - 1]), acts[|acts| - 1]).0
  }

  /** Everything the VM contributed to snapshots in a run. */
  ghost function Sent(k: Kernel, entry: VmEntry, acts: seq<Action>): seq<IpcEvent> {
    if acts == [] then []
    else
      var front := acts[..|acts| - 1];
      Sent(k, entry, front) + Apply(k, entry, After(k, entry, front), acts[|acts| - 1]).1
  }

  /** A start that makes the VM anew in place of an Idle one. */
  predicate Replaces(entry: VmEntry, vm: Option<Vm>, a: Action) {
    a.what.StartCommand? && vm.Some? && vm.value.m.state == Idle && NewVm(entry, a.at.host, a.at.writes).Some?
  }

  /** The event logs of the incarnations that a run replaced, in order. */
  ghost function Retired(k: Kernel, entry: VmEntry, acts: seq<Action>): seq<CoreEvent> {
    if acts == [] then []
    else
      var front := acts[..|acts| - 1];
      var vm := After(k, entry, front);
      Retired(k, entry, front) + if Replaces(entry, vm, acts[|acts| - 1]) then vm.value.m.rt.events else []
  }

  ghost predicate ValidHosts(acts: seq<Action>) {
    forall a :: a in acts ==> ValidHost(a.at.host)
  }

  // ---------- Exactly-once delivery ----------

  ghost function Log(vm: Option<Vm>): seq<CoreEvent> {
    if vm.None? then [] else vm.value.m.rt.events
  }

  lemma ToIpcEventsAppend(a: seq<CoreEvent>, b: seq<CoreEvent>)
    ensures ToIpcEvents(a + b) == ToIpcEvents(a) + ToIpcEvents(b)
  {}

  lemma LoggedAdvances(m: Machine, m1: Machine, error: Option<Failure>)
    requires Inv(m1) && Advances(m, m1)
    ensures Inv(Logged(m1, error)) && Advances(m, Logged(m1, error))
  {}

  lemma AdvancesTwice(a: Machine, b: Machine, c: Machine)
    requires Advances(a, b) && Advances(b, c)
    ensures Advances(a, c)
  {}

  lemma DriveAdvances(k: Kernel, env: Env, vm: Vm)
    requires Inv(vm.m) && ValidHost(vm.m.host)
    ensures Inv(Drive(k, env, vm).m) && Advances(vm.m, Drive(k, env, vm).m) && Drive(k, env, vm).cursor == vm.cursor
  {
    if WantedUp(vm) {
      StepKeepsInv(k, env, vm.m);
      LoggedAdvances(vm.m, StepOf(k, env, vm.m).0, StepOf(k, env, vm.m).1);
    } else {
      ShutdownKeepsInv(k, env, vm.m);
      LoggedAdvances(vm.m, ShutdownStepOf(k, env, vm.m).0, ShutdownStepOf(k, env, vm.m).1);
    }
  }

  lemma DrivenAdvances(k: Kernel, env: Env, exited: bool, vm: Vm)
    requires Inv(vm.m) && ValidHost(vm.m.host)
    ensures var r := Driven(k, env, exited, vm);
      Inv(r.m) && Advances(vm.m, r.m) && r.cursor == vm.cursor
  {
    var v := DetectExit(exited, vm);
    assert Inv(v.m) && Advances(vm.m, v.m);
    DriveAdvances(k, env, v);
    AdvancesTwice(vm.m, v.m, Drive(k, env, v).m);
  }

  /** Between actions the lifecycle invariant holds and every event has been sent. */
  ghost predicate Settled(vm: Option<Vm>) {
    vm.Some? ==> Inv(vm.value.m) && vm.value.cursor == |vm.value.m.rt.events|
  }

  lemma FlushSendsTheRest(vm: Vm, log: seq<CoreEvent>)
    requires log <= vm.m.rt.events && vm.cursor == |log|
    ensures var (next, batch) := Flush(vm);
      && next == vm.(cursor := |vm.m.rt.events|)
      && ToIpcEvents(vm.m.rt.events) == ToIpcEvents(log) + batch
  {
    ToIpcEventsAppend(log, vm.m.rt.events[|log|..]);
    assert vm.m.rt.events == log + vm.m.rt.events[|log|..];
  }

  lemma TickKeeps(k: Kernel, env: Env, exited: bool, vm: Vm)
    requires Inv(vm.m) && ValidHost(vm.m.host) && vm.cursor == |vm.m.rt.events|
    ensures var (next, batch) := TickOf(k, env, exited, vm);
      && Inv(next.m) && Advances(vm.m, next.m) && next.cursor == |next.m.rt.events|
      && ToIpcEvents(next.m.rt.events) == ToIpcEvents(vm.m.rt.events) + batch
  {
    DrivenAdvances(k, env, exited, vm);
    FlushSendsTheRest(Driven(k, env, exited, vm), vm.m.rt.events);
  }

  /** What one action does to the VM and what it sends. */
  ghost predicate Kept(entry: VmEntry, vm: Option<Vm>, a: Action, next: Option<Vm>, batch: seq<IpcEvent>) {
    && Settled(next)
    && (Replaces(entry, vm, a) ==> batch == [] && Log(next) == [])
    && (!Replaces(entry, vm, a) ==> ToIpcEvents(Log(next)) == ToIpcEvents(Log(vm)) + batch)
    && (!Replaces(entry, vm, a) && vm.Some? ==> next.Some? && Advances(vm.value.m, next.value.m))
  }

  lemma StartKeeps(entry: VmEntry, vm: Option<Vm>, a: Action)
    requires Settled(vm) && a.what.StartCommand?
    ensures Kept(entry, vm, a, StartOf(entry, Met(vm, a.at), a.at.host, a.at.writes), [])
  {
    assert ToIpcEvents(Log(vm)) + [] == ToIpcEvents(Log(vm));
  }

  lemma StopKeeps(entry: VmEntry, vm: Option<Vm>, a: Action)
    requires Settled(vm) && a.what.StopCommand?
    ensures Kept(entry, vm, a, StopOf(Met(vm, a.at)), [])
  {
    assert ToIpcEvents(Log(vm)) + [] == ToIpcEvents(Log(vm));
  }

  /** One action: the batch sent is exactly what the log gained; unless the action replaces
      an Idle VM, the incarnation's place in the lifecycle only advances. */
  lemma ApplyKeeps(k: Kernel, entry: VmEntry, vm: Option<Vm>, a: Action)
    requires ValidHost(a.at.host) && Settled(vm)
    ensures Kept(entry, vm, a, Apply(k, entry, vm, a).0, Apply(k, entry, vm, a).1)
  {
    if a.what.StartCommand? {
      StartKeeps(entry, vm, a);
    } else if a.what.StopCommand? {
      StopKeeps(entry, vm, a);
    } else if vm.Some? {
      var met := Relocate(vm.value, a.at);
      TickKeeps(k, a.what.env, a.what.exited, met);
      AdvancesTwice(vm.value.m, met.m, TickOf(k, a.what.env, a.what.exited, met).0.m);
    }
  }

  /** Exactly-once, in-order delivery: after every run of commands and ticks, whatever
      fails, what the VM has contributed to snapshots is the concatenation of its
      incarnations' event logs, kind and message preserved. */
  lemma {:induction false} ExactlyOnce(k: Kernel, entry: VmEntry, acts: seq<Action>)
    requires ValidHosts(acts)
    ensures Settled(After(k, entry, acts))
    ensures Sent(k, entry, acts) == ToIpcEvents(Retired(k, entry, acts) + Log(After(k, entry, acts)))
    ensures Carries(Sent(k, entry, acts), Retired(k, entry, acts) + Log(After(k, entry, acts)))
  {
    EventsCarried(Retired(k, entry, acts) + Log(After(k, entry, acts)));
    if acts != [] {
      var front, last := acts[..|acts| - 1], acts[|acts| - 1];
      assert last in acts && forall a :: a in front ==> a in acts;
      ExactlyOnce(k, entry, front);
      var vm := After(k, entry, front);
      ApplyKeeps(k, entry, vm, last);
      SentStep(Retired(k, entry, front), Log(vm), Log(After(k, entry, acts)), Apply(k, entry, vm, last).1,
               Replaces(entry, vm, last));
    }
  }

  lemma SentStep(retired: seq<CoreEvent>, log: seq<CoreEvent>, log': seq<CoreEvent>, batch: seq<IpcEvent>, anew: bool)
    requires if anew then log' == [] && batch == [] else ToIpcEvents(log') == ToIpcEvents(log) + batch
    ensures ToIpcEvents(retired + log) + batch == ToIpcEvents(retired + (if anew then log else []) + log')
  {
    ToIpcEventsAppend(retired, log);
    ToIpcEventsAppend(retired, log');
    if anew {
      assert retired + log + [] == retired + log;
    } else {
      assert retired + [] == retired;
    }
  }

  /** What clients are shown is true: a VM shown as Stopped holds nothing, one shown as
      ShuttingDown has no QEMU handle left, and one shown as Running has its pin flags set.
      Only an Idle VM is shown as Stopped, and only a Steady one as Running. */
  lemma ShownStateIsTrue(vm: Vm)
    requires Settled(Some(vm))
    ensures ToIpcState(vm.m.state) == Stopped ==> vm.m.rt.qemu.None? && vm.m.rt.huge == INACTIVE
    ensures ToIpcState(vm.m.state) == ShuttingDown ==> vm.m.rt.qemu.None?
    ensures ToIpcState(vm.m.state) == Running ==> vm.m.rt.pinnedThreads && vm.m.rt.pinnedIrqs
    ensures ToIpcState(vm.m.state) == Stopped <==> vm.m.state == Idle
    ensures ToIpcState(vm.m.state) == ShuttingDown <==> vm.m.state == Shutdown || vm.m.state == Cleanup
    ensures ToIpcState(vm.m.state) == Running <==> vm.m.state == Steady
  {}

  // ---------- Shutdown makes progress ----------

  /** Ticks still needed to reach Idle if no teardown hook fails. */
  function Distance(m: Machine): nat {
    match m.state
    case Idle => 0
    case Cleanup => 1
    case Shutdown => 2
    case _ => if m.rt.qemu.None? then 3 else 4
  }

  /** This tick's teardown hook fails. */
  predicate HookFails(m: Machine, env: Env) {
    m.state == Shutdown && env.calls.vmDown.error.Some?
  }

  /** From m to m1 the VM came closer to Idle, unless the hook failed. */
  predicate Closer(m: Machine, env: Env, m1: Machine) {
    if HookFails(m, env) then m1.state == Shutdown
    else if Distance(m) == 0 then Distance(m1) == 0
    else Distance(m1) < Distance(m)
  }

  lemma ShutdownIsCloser(k: Kernel, env: Env, m: Machine)
    ensures Closer(m, env, ShutdownStepOf(k, env, m).0)
  {
    ShutdownMoves(k, env, m);
    if m.state == Shutdown {
      TornDownEffect(k, env, m);
    } else if m.state.BringUp() {
      StopEffect(env, m);
    }
  }

  lemma ShutdownTick(k: Kernel, env: Env, exited: bool, vm: Vm)
    requires !WantedUp(vm)
    ensures var next := TickOf(k, env, exited, vm).0; !WantedUp(next) && Closer(vm.m, env, next.m)
  {
    var v := DetectExit(exited, vm);
    assert Distance(v.m) <= Distance(vm.m) && v.m.state == vm.m.state && !WantedUp(v);
    ShutdownIsCloser(k, env, v.m);
    var m1, error := ShutdownStepOf(k, env, v.m).0, ShutdownStepOf(k, env, v.m).1;
    assert Logged(m1, error).state == m1.state && Logged(m1, error).rt.qemu == m1.rt.qemu;
  }

  datatype Beat = Beat(at: World, env: Env, exited: bool)

  /** The VM after ticks alone. */
  ghost function Ticked(k: Kernel, beats: seq<Beat>, vm: Vm): Vm {
    if beats == [] then vm
    else Ticked(k, beats[1..], TickOf(k, beats[0].env, beats[0].exited, Relocate(vm, beats[0].at)).0)
  }

  /** How many of the ticks meet a failing teardown hook. */
  ghost function FailedTeardowns(k: Kernel, beats: seq<Beat>, vm: Vm): nat {
    if beats == [] then 0
    else
      (if HookFails(vm.m, beats[0].env) then 1 else 0)
      + FailedTeardowns(k, beats[1..], TickOf(k, beats[0].env, beats[0].exited, Relocate(vm, beats[0].at)).0)
  }

  lemma {:induction false} StaysIdle(k: Kernel, beats: seq<Beat>, vm: Vm)
    requires !WantedUp(vm) && vm.m.state == Idle
    ensures Ticked(k, beats, vm).m.state == Idle
  {
    if beats != [] {
      var met := Relocate(vm, beats[0].at);
      ShutdownTick(k, beats[0].env, beats[0].exited, met);
      StaysIdle(k, beats[1..], TickOf(k, beats[0].env, beats[0].exited, met).0);
    }
  }

  /** From any state at all, a VM wanted down is Idle after four ticks plus one for every
      failed teardown hook: no other failure delays it. */
  lemma {:induction false} ShutdownProgress(k: Kernel, beats: seq<Beat>, vm: Vm)
    requires !WantedUp(vm)
    ensures |beats| >= Distance(vm.m) + FailedTeardowns(k, beats, vm) ==> Ticked(k, beats, vm).m.state == Idle
  {
    if vm.m.state == Idle {
      StaysIdle(k, beats, vm);
    } else if beats != [] {
      var met := Relocate(vm, beats[0].at);
      var next := TickOf(k, beats[0].env, beats[0].exited, met).0;
      ShutdownTick(k, beats[0].env, beats[0].exited, met);
      ShutdownProgress(k, beats[1..], next);
    }
  }

  // ---------- Bring-up, and coming to rest ----------

  /** A tick of a VM on its way up: one state further, or no longer wanted up. */
  lemma BringUpTick(k: Kernel, env: Env, exited: bool, vm: Vm)
    requires WantedUp(vm) && vm.m.state.BringUp() && vm.m.state != Steady
    ensures var next := TickOf(k, env, exited, vm).0;
      if WantedUp(next) then next.m.state.Rank() == vm.m.state.Rank() + 1 && next.m.state.BringUp()
      else next.m.state == vm.m.state
  {
    StepMovesByOne(k, env, vm.m);
    var m1, error := StepOf(k, env, vm.m).0, StepOf(k, env, vm.m).1;
    assert Logged(m1, error).state == m1.state;
    RankDecides(m1.state, vm.m.state);
  }

  lemma RankDecides(a: VmState, b: VmState)
    ensures a.Rank() == b.Rank() <==> a == b
    ensures a.BringUp() <==> a.Rank() <= 11
  {}

  /** Without guest exits, a VM still wanted up after n ticks has climbed n states, or is
      in Steady. */
  lemma {:induction false} NoTickIsWasted(k: Kernel, beats: seq<Beat>, vm: Vm)
    requires WantedUp(vm) && vm.m.state.BringUp() && forall b :: b in beats ==> !b.exited
    requires WantedUp(Ticked(k, beats, vm))
    ensures var rank := vm.m.state.Rank() + |beats|;
      Ticked(k, beats, vm).m.state.Rank() == if rank < 11 then rank else 11
  {
    if beats != [] {
      var met := Relocate(vm, beats[0].at);
      var next := TickOf(k, beats[0].env, beats[0].exited, met).0;
      assert beats[0] in beats && forall b :: b in beats[1..] ==> b in beats;
      if vm.m.state != Steady {
        BringUpTick(k, beats[0].env, beats[0].exited, met);
      }
      if !WantedUp(next) {
        StaysDown(k, beats[1..], next);
      }
      NoTickIsWasted(k, beats[1..], next);
    }
  }

  lemma {:induction false} StaysDown(k: Kernel, beats: seq<Beat>, vm: Vm)
    requires !WantedUp(vm)
    ensures !WantedUp(Ticked(k, beats, vm))
  {
    if beats != [] {
      var met := Relocate(vm, beats[0].at);
      ShutdownTick(k, beats[0].env, beats[0].exited, met);
      StaysDown(k, beats[1..], TickOf(k, beats[0].env, beats[0].exited, met).0);
    }
  }

  /** Nothing more to do for what is wanted. */
  predicate AtRest(vm: Vm) {
    if WantedUp(vm) then vm.m.state == Steady || !vm.m.state.BringUp() else vm.m.state == Idle
  }

  function Effort(vm: Vm): nat {
    if AtRest(vm) then 0
    else if WantedUp(vm) then 16 - vm.m.state.Rank()
    else Distance(vm.m)
  }

  lemma EffortFalls(k: Kernel, env: Env, exited: bool, vm: Vm)
    requires !exited && !AtRest(vm)
    ensures var next := TickOf(k, env, exited, vm).0;
      if HookFails(vm.m, env) then Effort(next) <= Effort(vm) else Effort(next) < Effort(vm)
  {
    if WantedUp(vm) {
      BringUpTick(k, env, exited, vm);
    } else {
      ShutdownTick(k, env, exited, vm);
    }
  }

  lemma {:induction false} StaysAtRest(k: Kernel, beats: seq<Beat>, vm: Vm)
    requires AtRest(vm) && forall b :: b in beats ==> !b.exited
    ensures AtRest(Ticked(k, beats, vm))
  {
    if beats != [] {
      var met := Relocate(vm, beats[0].at);
      assert beats[0] in beats && forall b :: b in beats[1..] ==> b in beats;
      assert AtRest(TickOf(k, beats[0].env, beats[0].exited, met).0);
      StaysAtRest(k, beats[1..], TickOf(k, beats[0].env, beats[0].exited, met).0);
    }
  }

  /** Left alone, every VM comes to rest within sixteen ticks plus one for every failed
      teardown hook, whatever else fails. */
  lemma {:induction false} ComesToRest(k: Kernel, beats: seq<Beat>, vm: Vm)
    requires forall b :: b in beats ==> !b.exited
    requires |beats| >= Effort(vm) + FailedTeardowns(k, beats, vm)
    ensures Effort(vm) <= 16 && AtRest(Ticked(k, beats, vm))
  {
    if AtRest(vm) {
      StaysAtRest(k, beats, vm);
    } else if beats != [] {
      var met := Relocate(vm, beats[0].at);
      assert beats[0] in beats && forall b :: b in beats[1..] ==> b in beats;
      assert Effort(met) == Effort(vm);
      EffortFalls(k, beats[0].env, beats[0].exited, met);
      ComesToRest(k, beats[1..], TickOf(k, beats[0].env, beats[0].exited, met).0);
    }
  }

  // ---------- Where a wanted VM stands still ----------

  const CALM: Env := Env(
    Calls(None, None, None, false, Result.Err(""), Result.Err(""), "", None, Result.Err(""), None, None, None,
          Hook([], None), None, Hook([], None)),
    (_: HostMap) => None, (_: HostMap) => None, (_: HostMap) => None)

  predicate Stuck(m: Machine) {
    m.state in {Shutdown, Cleanup, Idle} || (m.state == Steady && m.rt.qemu.None?)
  }

  /** A VM that is wanted up stands still whatever happens if and only if it is past Steady,
      or in Steady without a QEMU handle. */
  lemma StandsStillIff(k: Kernel, vm: Vm)
    requires WantedUp(vm) && ValidHost(vm.m.host)
    ensures (forall env, exited :: TickOf(k, env, exited, vm).0.m == vm.m) <==> Stuck(vm.m)
  {
    if !Stuck(vm.m) {
      if vm.m.state == Steady {
        ExitedLeaves(k, vm);
      } else {
        StepLogs(k, CALM, vm);
      }
    }
  }

  lemma ExitedLeaves(k: Kernel, vm: Vm)
    requires vm.m.state == Steady && vm.m.rt.qemu.Some?
    ensures TickOf(k, CALM, true, vm).0.m != vm.m
  {
    var v := DetectExit(true, vm);
    ShutdownIsCloser(k, CALM, v.m);
    var m1, error := ShutdownStepOf(k, CALM, v.m).0, ShutdownStepOf(k, CALM, v.m).1;
    assert Logged(m1, error).state == m1.state;
  }

  lemma StepLogs(k: Kernel, env: Env, vm: Vm)
    requires WantedUp(vm) && ValidHost(vm.m.host) && vm.m.state.BringUp() && vm.m.state != Steady
    ensures |TickOf(k, env, false, vm).0.m.rt.events| > |vm.m.rt.events|
  {
    var said := vm.m.Push(System, Enter(vm.m.state));
    WorkGrows(k, env, said);
  }

  /** A stop whose signal fails, followed by a start, leaves a VM that is shown as Running
      without a QEMU handle, so that no tick ever notices it is gone. */
  lemma FailedStopThenStart(k: Kernel, entry: VmEntry, vm: Vm, at: World, env: Env) returns (after: Option<Vm>)
    requires vm.m.state == Steady && vm.m.rt.qemu.Some? && env.calls.terminate.Some?
    ensures after == StartOf(entry, Some(TickOf(k, env, false, StopOf(Some(vm)).value).0), at.host, at.writes)
    ensures after.Some? && WantedUp(after.value) && Stuck(after.value.m) && ToIpcState(after.value.m.state) == Running
  {
    var stopping := StopOf(Some(vm)).value;
    StopEffect(env, stopping.m);
    var m1, error := ShutdownStepOf(k, env, stopping.m).0, ShutdownStepOf(k, env, stopping.m).1;
    assert m1.state == Steady && m1.rt.qemu == None;
    assert Logged(m1, error).state == m1.state && Logged(m1, error).rt.qemu == m1.rt.qemu;
    after := StartOf(entry, Some(TickOf(k, env, false, stopping).0), at.host, at.writes);
  }

  // ---------- When the handle is lost ----------

  /** The stop fails. */
  predicate Fails(m: Machine, env: Env) {
    m.rt.qemu.Some? && env.calls.terminate.Some?
  }

  /** A tick that tries to stop QEMU and fails to. The handle is gone all the same. */
  predicate StopFails(env: Env, exited: bool, vm: Vm) {
    var v := DetectExit(exited, vm);
    !WantedUp(v) && Fails(v.m, env)
  }

  lemma LoggedHandle(m: Machine, error: Option<Failure>)
    ensures Logged(m, error).state == m.state && Logged(m, error).rt.qemu == m.rt.qemu
  {}

  lemma StopStepHandle(k: Kernel, env: Env, m: Machine)
    requires m.state.BringUp()
    ensures var m1, fails := ShutdownStepOf(k, env, m).0, m.rt.qemu.Some? && env.calls.terminate.Some?;
      m1.rt.qemu.None? && m1.state == if fails then m.state else Shutdown
  {
    StopEffect(env, m);
    assert ShutdownStepOf(k, env, m) == StopStepOf(env, m);
  }

  lemma LateStepHandle(k: Kernel, env: Env, m: Machine)
    requires !m.state.BringUp()
    ensures !ShutdownStepOf(k, env, m).0.state.BringUp()
  {
    ShutdownMoves(k, env, m);
  }

  lemma StoppedHandle(m: Machine, m1: Machine, fails: bool)
    requires Inv(m) && (fails ==> m.rt.qemu.Some?)
    requires if fails then m1.rt.qemu.None? && m1.state == m.state else !m1.state.BringUp()
    ensures HasHandle(m1) <==> !fails
  {}

  lemma StopStepEnds(k: Kernel, env: Env, m: Machine)
    requires Inv(m)
    ensures var m1 := ShutdownStepOf(k, env, m).0;
      if Fails(m, env) then m1.rt.qemu.None? && m1.state == m.state else !m1.state.BringUp()
  {
    if m.state.BringUp() {
      StopStepHandle(k, env, m);
    } else {
      LateStepHandle(k, env, m);
    }
  }

  lemma StoppedMachine(k: Kernel, env: Env, m: Machine)
    requires Inv(m)
    ensures var m1 := Logged(ShutdownStepOf(k, env, m).0, ShutdownStepOf(k, env, m).1);
      if Fails(m, env) then m1.rt.qemu.None? && m1.state == m.state else !m1.state.BringUp()
  {
    StopStepEnds(k, env, m);
    LoggedHandle(ShutdownStepOf(k, env, m).0, ShutdownStepOf(k, env, m).1);
  }

  /** Stopping ends in Shutdown, or, if it fails, where it began and without a handle. */
  lemma StopHandle(k: Kernel, env: Env, vm: Vm)
    requires Inv(vm.m) && !WantedUp(vm)
    ensures HasHandle(Drive(k, env, vm).m) <==> !Fails(vm.m, env)
    ensures Fails(vm.m, env) ==> Drive(k, env, vm).m.rt.qemu.None? && Drive(k, env, vm).m.state == vm.m.state
  {
    if vm.m.state != Idle {
      StoppedMachine(k, env, vm.m);
    }
    StoppedHandle(vm.m, Drive(k, env, vm).m, Fails(vm.m, env));
  }

  lemma ClimbHandle(k: Kernel, env: Env, vm: Vm)
    requires HasHandle(vm.m) && WantedUp(vm)
    ensures HasHandle(Drive(k, env, vm).m)
  {
    StepKeepsHandle(k, env, vm.m);
    LoggedHandle(StepOf(k, env, vm.m).0, StepOf(k, env, vm.m).1);
  }

  /** A VM past LaunchQemu loses its handle without leaving bring-up if and only if it is to
      be stopped, after guest exits were noticed, still has the handle, and the stop fails. */
  lemma HandleLostIff(k: Kernel, env: Env, exited: bool, vm: Vm)
    requires Inv(vm.m) && HasHandle(vm.m)
    ensures HasHandle(TickOf(k, env, exited, vm).0.m) <==> !StopFails(env, exited, vm)
  {
    var v := DetectExit(exited, vm);
    assert TickOf(k, env, exited, vm).0.m == Drive(k, env, v).m;
    if WantedUp(v) {
      ClimbHandle(k, env, v);
    } else {
      StopHandle(k, env, v);
    }
  }

  /** It has a QEMU handle. */
  predicate RunsQemu(vm: Option<Vm>) {
    vm.Some? && vm.value.m.rt.qemu.Some?
  }

  predicate PastLaunch(vm: Option<Vm>) {
    vm.Some? && DetectThreads.Rank() <= vm.value.m.state.Rank() <= Steady.Rank()
  }

  /** A stop of the current incarnation has failed. */
  ghost predicate StopHasFailed(k: Kernel, entry: VmEntry, acts: seq<Action>) {
    acts != [] &&
    var front, last := acts[..|acts| - 1], acts[|acts| - 1];
    var vm := After(k, entry, front);
    && !Replaces(entry, vm, last)
    && (|| StopHasFailed(k, entry, front)
        || (last.what.Tick? && vm.Some? && StopFails(last.what.env, last.what.exited, Relocate(vm.value, last.at))))
  }

  /** Without a failed stop there is a handle where there should be; after one there is none,
      and no way back to where it comes from. */
  ghost predicate HandleAccounted(m: Machine, failed: bool) {
    if failed then m.rt.qemu.None? && DetectThreads.Rank() <= m.state.Rank() else HasHandle(m)
  }

  lemma TickHandle(k: Kernel, env: Env, exited: bool, vm: Vm, failed: bool)
    requires Inv(vm.m) && ValidHost(vm.m.host) && HandleAccounted(vm.m, failed)
    ensures HandleAccounted(TickOf(k, env, exited, vm).0.m, failed || StopFails(env, exited, vm))
  {
    var next := TickOf(k, env, exited, vm).0;
    DrivenAdvances(k, env, exited, vm);
    if failed {
      NoLateHandle(k, env, exited, vm);
    } else {
      HandleLostIff(k, env, exited, vm);
      if StopFails(env, exited, vm) {
        StopHandle(k, env, DetectExit(exited, vm));
      }
    }
  }

  lemma ClimbWithoutHandle(k: Kernel, env: Env, m: Machine)
    requires m.rt.qemu.None? && DetectThreads.Rank() <= m.state.Rank()
    ensures StepOf(k, env, m).0.rt.qemu.None?
  {
    WorkOwnFieldOnly(k, env, m.Push(System, Enter(m.state)));
  }

  lemma StopWithoutHandle(k: Kernel, env: Env, m: Machine)
    requires m.rt.qemu.None?
    ensures ShutdownStepOf(k, env, m).0.rt.qemu.None?
  {
    if m.state == Shutdown {
      TornDownEffect(k, env, m);
    } else if m.state.BringUp() {
      StopEffect(env, m);
    }
  }

  lemma NoLateHandle(k: Kernel, env: Env, exited: bool, vm: Vm)
    requires vm.m.rt.qemu.None? && DetectThreads.Rank() <= vm.m.state.Rank()
    ensures TickOf(k, env, exited, vm).0.m.rt.qemu.None?
  {
    assert DetectExit(exited, vm) == vm;
    if WantedUp(vm) {
      ClimbWithoutHandle(k, env, vm.m);
      LoggedHandle(StepOf(k, env, vm.m).0, StepOf(k, env, vm.m).1);
    } else {
      StopWithoutHandle(k, env, vm.m);
      LoggedHandle(ShutdownStepOf(k, env, vm.m).0, ShutdownStepOf(k, env, vm.m).1);
    }
  }

  lemma ApplyHandle(k: Kernel, entry: VmEntry, vm: Vm, a: Action, failed: bool)
    requires Inv(vm.m) && ValidHost(a.at.host) && HandleAccounted(vm.m, failed)
    ensures var next := Apply(k, entry, Some(vm), a).0;
      && next.Some?
      && HandleAccounted(next.value.m, !Replaces(entry, Some(vm), a) &&
           (failed || (a.what.Tick? && StopFails(a.what.env, a.what.exited, Relocate(vm, a.at)))))
  {
    if a.what.Tick? {
      TickHandle(k, a.what.env, a.what.exited, Relocate(vm, a.at), failed);
    }
  }

  lemma {:induction false} HandlesAccounted(k: Kernel, entry: VmEntry, acts: seq<Action>)
    requires ValidHosts(acts)
    ensures var vm, failed := After(k, entry, acts), StopHasFailed(k, entry, acts);
      if vm.Some? then HandleAccounted(vm.value.m, failed) else !failed
  {
    if acts != [] {
      var front, last := acts[..|acts| - 1], acts[|acts| - 1];
      assert last in acts && forall a :: a in front ==> a in acts;
      HandlesAccounted(k, entry, front);
      ExactlyOnce(k, entry, front);
      var vm := After(k, entry, front);
      if vm.Some? {
        ApplyHandle(k, entry, vm.value, last, StopHasFailed(k, entry, front));
      }
    }
  }

  /** Over every run: a VM between DetectThreads and Steady, and so one that is shown as
      Running, lacks its QEMU handle if and only if a stop of its current incarnation failed. */
  lemma NoHandleIff(k: Kernel, entry: VmEntry, acts: seq<Action>)
    requires ValidHosts(acts) && PastLaunch(After(k, entry, acts))
    ensures !RunsQemu(After(k, entry, acts)) <==> StopHasFailed(k, entry, acts)
  {
    HandlesAccounted(k, entry, acts);
  }
}
