/** The host under the daemon: what a VM's commands and ticks do to devices, over every run
    and every incarnation, while others use the rest of the host. */
module DaemonHost {
  import opened Prelude
  import opened Config
  import opened Pci
  import opened VfioExecute
  import opened VfioRestore
  import opened VfioStaging
  import opened Lifecycle
  import opened HostLife
  import opened Daemon
  import Isolation

  /** Others may touch every device but the configured ones. */
  ghost predicate SameConfigured(cfg: VmConfig, h: HostMap, h': HostMap) {
    h'.Keys == h.Keys && forall b :: b in h && Configured(cfg, b) ==> h'[b] == h[b]
  }

  ghost function HostOf(h0: HostMap, vm: Option<Vm>): HostMap {
    if vm.None? then h0 else vm.value.m.host
  }

  /** It has been torn down, or was never started. */
  predicate IsOver(vm: Option<Vm>) {
    vm.Some? ==> vm.value.m.state == Cleanup || vm.value.m.state == Idle
  }

  /** Between the actions of a run that began on h0, nobody else rebinds the VM's devices. */
  ghost predicate Undisturbed(k: Kernel, entry: VmEntry, h0: HostMap, acts: seq<Action>) {
    acts == [] ||
    var front, last := acts[..|acts| - 1], acts[|acts| - 1];
    && Undisturbed(k, entry, h0, front)
    && ValidHost(last.at.host)
    && SameConfigured(entry.cfg, HostOf(h0, After(k, entry, front)), last.at.host)
  }

  /** The kernel reports driver names that restoring keeps. */
  ghost predicate CleanHosts(acts: seq<Action>) {
    forall a :: a in acts ==> CleanHost(a.at.host)
  }

  // ---------- Containment over runs ----------

  /** Each configured device is on the driver it had in h, on none, or on vfio-pci. */
  ghost predicate Within(cfg: VmConfig, h: HostMap, h': HostMap) {
    && h'.Keys == h.Keys
    && forall b :: b in h && Configured(cfg, b) ==>
         h'[b].SameDevice(h[b]) && h'[b].driver in {h[b].driver, None, Some(VFIO)}
  }

  /** The VM is contained from a host that is itself within h0: the one its incarnation found. */
  ghost predicate Held(entry: VmEntry, h0: HostMap, vm: Vm) {
    vm.m.rt.cfg == entry.cfg && exists base: HostMap :: HeldFrom(entry, h0, base, vm)
  }

  ghost predicate HeldFrom(entry: VmEntry, h0: HostMap, base: HostMap, vm: Vm) {
    CleanHost(base) && Within(entry.cfg, h0, base) && Contained(base, vm.m)
  }

  /** The base seen by a VM after others changed the host to h: theirs is as they left it. */
  ghost function Rebase(cfg: VmConfig, base: HostMap, h: HostMap): HostMap
    requires h.Keys == base.Keys
  {
    map b | b in base :: if Configured(cfg, b) then base[b] else h[b]
  }

  lemma RebaseContained(cfg: VmConfig, base: HostMap, m: Machine, at: World)
    requires CleanHost(base) && CleanHost(at.host) && Contained(base, m) && m.rt.cfg == cfg
    requires SameConfigured(cfg, m.host, at.host)
    ensures CleanHost(Rebase(cfg, base, at.host))
    ensures Contained(Rebase(cfg, base, at.host), m.(host := at.host, writes := at.writes))
  {
    var base' := Rebase(cfg, base, at.host);
    forall b | b in base' ensures DeviceContained(cfg, base'[b], at.host[b]) {
      assert DeviceContained(cfg, base[b], m.host[b]);
    }
    forall t | t in m.rt.transitions ensures t.bdf in base' && RecordContained(cfg, base'[t.bdf], t) {
      assert RecordContained(cfg, base[t.bdf], t);
    }
  }

  lemma MetHeld(entry: VmEntry, h0: HostMap, vm: Vm, at: World)
    requires Held(entry, h0, vm) && CleanHost(at.host) && SameConfigured(entry.cfg, vm.m.host, at.host)
    ensures Held(entry, h0, Relocate(vm, at))
  {
    var base: HostMap :| HeldFrom(entry, h0, base, vm);
    RebaseContained(entry.cfg, base, vm.m, at);
    assert HeldFrom(entry, h0, Rebase(entry.cfg, base, at.host), Relocate(vm, at));
  }

  lemma HeldIsWithin(entry: VmEntry, h0: HostMap, vm: Vm)
    requires Held(entry, h0, vm)
    ensures Within(entry.cfg, h0, vm.m.host)
  {
    var base: HostMap :| HeldFrom(entry, h0, base, vm);
    forall b | b in h0 && Configured(entry.cfg, b)
      ensures vm.m.host[b].SameDevice(h0[b]) && vm.m.host[b].driver in {h0[b].driver, None, Some(VFIO)}
    {
      assert DeviceContained(entry.cfg, base[b], vm.m.host[b]);
    }
  }

  /** What a machine-level invariant about the host may depend on. */
  ghost predicate SameReach(m: Machine, m': Machine) {
    m'.host == m.host && m'.rt.cfg == m.rt.cfg && m'.rt.transitions == m.rt.transitions && m'.state == m.state
  }

  lemma LoggedReach(m: Machine, error: Option<Failure>)
    ensures SameReach(m, Logged(m, error))
  {}

  ghost predicate OneStep(k: Kernel, env: Env, m: Machine, m1: Machine) {
    SameReach(m, m1) || SameReach(StepOf(k, env, m).0, m1) || SameReach(ShutdownStepOf(k, env, m).0, m1)
  }

  lemma DriveSteps(k: Kernel, env: Env, vm: Vm)
    ensures OneStep(k, env, vm.m, Drive(k, env, vm).m)
  {
    LoggedReach(StepOf(k, env, vm.m).0, StepOf(k, env, vm.m).1);
    LoggedReach(ShutdownStepOf(k, env, vm.m).0, ShutdownStepOf(k, env, vm.m).1);
  }

  /** A tick takes the machine through at most one step, and events and the handle aside
      changes nothing else. */
  lemma TickSteps(k: Kernel, env: Env, exited: bool, vm: Vm) returns (m: Machine)
    ensures SameReach(vm.m, m)
    ensures OneStep(k, env, m, TickOf(k, env, exited, vm).0.m)
  {
    m := DetectExit(exited, vm).m;
    DriveSteps(k, env, DetectExit(exited, vm));
    assert TickOf(k, env, exited, vm).0.m == Drive(k, env, DetectExit(exited, vm)).m;
  }

  lemma ReachContained(base: HostMap, m: Machine, m': Machine)
    requires SameReach(m, m') && Contained(base, m)
    ensures Contained(base, m')
  {
    ContainedDepends(base, m, m');
  }

  lemma TickContained(base: HostMap, k: Kernel, env: Env, exited: bool, vm: Vm)
    requires CleanHost(base) && Contained(base, vm.m)
    ensures Contained(base, TickOf(k, env, exited, vm).0.m) && TickOf(k, env, exited, vm).0.m.rt.cfg == vm.m.rt.cfg
  {
    var m := TickSteps(k, env, exited, vm);
    var m1 := TickOf(k, env, exited, vm).0.m;
    ReachContained(base, vm.m, m);
    StepContained(base, k, env, m);
    ShutdownContained(base, k, env, m);
    StepHost(k, env, m);
    ShutdownHost(k, env, m);
    if SameReach(m, m1) {
      ReachContained(base, m, m1);
    } else if SameReach(StepOf(k, env, m).0, m1) {
      ReachContained(base, StepOf(k, env, m).0, m1);
    } else {
      ReachContained(base, ShutdownStepOf(k, env, m).0, m1);
    }
  }

  lemma TickHeld(k: Kernel, entry: VmEntry, h0: HostMap, env: Env, exited: bool, vm: Vm)
    requires Held(entry, h0, vm)
    ensures Held(entry, h0, TickOf(k, env, exited, vm).0)
  {
    var base: HostMap :| HeldFrom(entry, h0, base, vm);
    TickContained(base, k, env, exited, vm);
    assert HeldFrom(entry, h0, base, TickOf(k, env, exited, vm).0);
  }

  lemma StartHeld(entry: VmEntry, h0: HostMap, at: World)
    requires CleanHost(at.host) && Within(entry.cfg, h0, at.host) && NewVm(entry, at.host, at.writes).Some?
    ensures Held(entry, h0, NewVm(entry, at.host, at.writes).value.(desired := Starting))
  {
    var vm := NewVm(entry, at.host, at.writes).value.(desired := Starting);
    assert HeldFrom(entry, h0, at.host, vm);
  }

  lemma ApplyHeld(k: Kernel, entry: VmEntry, h0: HostMap, vm: Option<Vm>, a: Action)
    requires CleanHost(a.at.host) && SameConfigured(entry.cfg, HostOf(h0, vm), a.at.host)
    requires vm.Some? ==> Held(entry, h0, vm.value)
    ensures Apply(k, entry, vm, a).0.Some? ==> Held(entry, h0, Apply(k, entry, vm, a).0.value)
  {
    var next := Apply(k, entry, vm, a).0;
    if vm.None? {
      if next.Some? {
        StartHeld(entry, h0, a.at);
      }
    } else {
      var met := Relocate(vm.value, a.at);
      MetHeld(entry, h0, vm.value, a.at);
      if a.what.Tick? {
        TickHeld(k, entry, h0, a.what.env, a.what.exited, met);
      } else if Replaces(entry, vm, a) {
        HeldIsWithin(entry, h0, met);
        StartHeld(entry, h0, a.at);
      } else {
        SameMachineHeld(entry, h0, met, next.value);
      }
    }
  }

  lemma SameMachineHeld(entry: VmEntry, h0: HostMap, vm: Vm, vm': Vm)
    requires Held(entry, h0, vm) && vm'.m == vm.m
    ensures Held(entry, h0, vm')
  {
    var base: HostMap :| HeldFrom(entry, h0, base, vm);
    assert HeldFrom(entry, h0, base, vm');
  }

  /** Over every run, whatever fails and however often the VM is made anew: a configured
      device is on the driver it had before the first start, on none, or on vfio-pci. */
  lemma {:induction false} RunStaysWithin(k: Kernel, entry: VmEntry, h0: HostMap, acts: seq<Action>)
    requires Undisturbed(k, entry, h0, acts) && CleanHosts(acts)
    ensures After(k, entry, acts).Some? ==> Held(entry, h0, After(k, entry, acts).value)
    ensures Within(entry.cfg, h0, HostOf(h0, After(k, entry, acts)))
  {
    if acts != [] {
      var front, last := acts[..|acts| - 1], acts[|acts| - 1];
      assert acts == front + [last];
      RunStaysWithin(k, entry, h0, front);
      ApplyHeld(k, entry, h0, After(k, entry, front), last);
    }
    if After(k, entry, acts).Some? {
      HeldIsWithin(entry, h0, After(k, entry, acts).value);
    }
  }

  lemma ReachOthers(m: Machine, m': Machine)
    requires SameReach(m, m') && LogConfigured(m)
    ensures LogConfigured(m')
  {}

  /** A tick touches configured devices only, and records no others. */
  lemma TickOthers(k: Kernel, env: Env, exited: bool, vm: Vm)
    requires ValidHost(vm.m.host) && LogConfigured(vm.m)
    ensures var next := TickOf(k, env, exited, vm).0;
      LogConfigured(next.m) && next.m.rt.cfg == vm.m.rt.cfg && OthersKept(vm.m.rt.cfg, vm.m.host, next.m.host)
  {
    var m := TickSteps(k, env, exited, vm);
    var m1 := TickOf(k, env, exited, vm).0.m;
    ReachOthers(vm.m, m);
    StepOthers(k, env, m);
    ShutdownOthers(k, env, m);
    StepHost(k, env, m);
    ShutdownHost(k, env, m);
    if SameReach(m, m1) {
      ReachOthers(m, m1);
    } else if SameReach(StepOf(k, env, m).0, m1) {
      ReachOthers(StepOf(k, env, m).0, m1);
    } else {
      ReachOthers(ShutdownStepOf(k, env, m).0, m1);
    }
  }

  /** In every run, undisturbed or not, a VM records configured devices only. */
  lemma {:induction false} RunLogConfigured(k: Kernel, entry: VmEntry, acts: seq<Action>)
    requires ValidHosts(acts)
    ensures var vm := After(k, entry, acts); vm.Some? ==> vm.value.m.rt.cfg == entry.cfg && LogConfigured(vm.value.m)
  {
    if acts != [] {
      var front, last := acts[..|acts| - 1], acts[|acts| - 1];
      assert last in acts && forall a :: a in front ==> a in acts;
      RunLogConfigured(k, entry, front);
      var vm := After(k, entry, front);
      if last.what.Tick? && vm.Some? {
        TickOthers(k, last.what.env, last.what.exited, Relocate(vm.value, last.at));
      }
    }
  }

  /** In every run, whatever others do and whatever fails, a tick touches configured devices
      only. */
  lemma TickTouchesConfiguredOnly(k: Kernel, entry: VmEntry, acts: seq<Action>, at: World, env: Env, exited: bool)
    requires ValidHosts(acts) && ValidHost(at.host) && After(k, entry, acts).Some?
    ensures var vm := Relocate(After(k, entry, acts).value, at);
      OthersKept(entry.cfg, at.host, TickOf(k, env, exited, vm).0.m.host)
  {
    RunLogConfigured(k, entry, acts);
    TickOthers(k, env, exited, Relocate(After(k, entry, acts).value, at));
  }

  /** So VMs with no configured device in common do not disturb each other. */
  lemma DisjointVmsDoNotDisturb(k: Kernel, entry: VmEntry, acts: seq<Action>, at: World, env: Env, exited: bool,
                                other: VmConfig)
    requires ValidHosts(acts) && ValidHost(at.host) && After(k, entry, acts).Some?
    requires forall b :: !(Configured(entry.cfg, b) && Configured(other, b))
    ensures var vm := Relocate(After(k, entry, acts).value, at);
      SameConfigured(other, at.host, TickOf(k, env, exited, vm).0.m.host)
  {
    TickTouchesConfiguredOnly(k, entry, acts, at, env, exited);
  }

  // ---------- A VM runs on cleared devices only, over runs ----------

  /** Clearance is about configured devices: what others do elsewhere does not matter. */
  lemma MetClearedBy(cfg: VmConfig, seen: Inventory, h: HostMap, h': HostMap)
    requires ClearedBy(cfg, seen, h) && SameConfigured(cfg, h, h')
    ensures ClearedBy(cfg, seen, h')
  {
    forall b | b in Isolation.Passthrough(cfg, seen) ensures Configured(cfg, b) {
      var f :| f in Isolation.Selected(cfg, seen) && f.bdf == b;
      PresentMember(seen, cfg.devices.All(), f);
    }
    if EnforcesExclusivity(cfg) {
      assert Isolation.GroupsExclusive(seen, Isolation.Passthrough(cfg, seen));
      forall f, g | f in seen && g in seen && SameGroup(f, g) && f.bdf in Isolation.Passthrough(cfg, seen)
        ensures g.bdf in h' && h'[g.bdf].OnVfio()
      {
        assert g.bdf in Isolation.Passthrough(cfg, seen);
      }
    }
  }

  lemma MetCleared(vm: Vm, at: World, seen: Option<Inventory>)
    requires Cleared(vm.m, seen) && SameConfigured(vm.m.rt.cfg, vm.m.host, at.host)
    ensures Cleared(Relocate(vm, at).m, seen)
  {
    if ReserveCpus.Rank() <= vm.m.state.Rank() <= Steady.Rank() {
      MetClearedBy(vm.m.rt.cfg, seen.value, vm.m.host, at.host);
    }
  }

  lemma ReachCleared(m: Machine, m': Machine, seen: Option<Inventory>)
    requires SameReach(m, m') && Cleared(m, seen)
    ensures Cleared(m', seen)
  {}

  /** The latest staging scan after a tick of a VM that met its host. */
  ghost function ScanOfTick(env: Env, vm: Vm, seen: Option<Inventory>): Option<Inventory> {
    if WantedUp(vm) then ScanAfter(env, vm.m, seen) else seen
  }

  lemma DriveCleared(k: Kernel, env: Env, vm: Vm, seen: Option<Inventory>)
    requires ValidHost(vm.m.host) && Cleared(vm.m, seen)
    ensures Cleared(Drive(k, env, vm).m, ScanOfTick(env, vm, seen))
    ensures Drive(k, env, vm).m.rt.cfg == vm.m.rt.cfg && SameDevices(vm.m.host, Drive(k, env, vm).m.host)
  {
    var m, next := vm.m, Drive(k, env, vm).m;
    if WantedUp(vm) {
      if m.state == Steady || !m.state.BringUp() {
        ReachCleared(m, next, seen);
      } else {
        StepCleared(k, env, m, seen);
        StepHost(k, env, m);
        StepKeepsDevices(k, env, m);
        LoggedReach(StepOf(k, env, m).0, StepOf(k, env, m).1);
        ReachCleared(StepOf(k, env, m).0, next, ScanAfter(env, m, seen));
      }
    } else if m.state != Idle {
      ShutdownCleared(k, env, m, seen);
      ShutdownHost(k, env, m);
      ShutdownKeepsDevices(k, env, m);
      LoggedReach(ShutdownStepOf(k, env, m).0, ShutdownStepOf(k, env, m).1);
      ReachCleared(ShutdownStepOf(k, env, m).0, next, seen);
    }
  }

  lemma TickCleared(k: Kernel, env: Env, exited: bool, vm: Vm, seen: Option<Inventory>)
    requires ValidHost(vm.m.host) && Cleared(vm.m, seen)
    ensures var next := TickOf(k, env, exited, vm).0;
      Cleared(next.m, ScanOfTick(env, vm, seen)) && next.m.rt.cfg == vm.m.rt.cfg && SameDevices(vm.m.host, next.m.host)
  {
    var v := DetectExit(exited, vm);
    ReachCleared(vm.m, v.m, seen);
    DriveCleared(k, env, v, seen);
    assert TickOf(k, env, exited, vm).0.m == Drive(k, env, v).m;
    assert ScanOfTick(env, v, seen) == ScanOfTick(env, vm, seen);
  }

  /** The latest scan that a run made to stage the VM's devices. */
  ghost function StagingScan(k: Kernel, entry: VmEntry, acts: seq<Action>): Option<Inventory> {
    if acts == [] then None
    else
      var front, last := acts[..|acts| - 1], acts[|acts| - 1];
      var vm, seen := After(k, entry, front), StagingScan(k, entry, front);
      if last.what.Tick? && vm.Some? then ScanOfTick(last.what.env, Relocate(vm.value, last.at), seen) else seen
  }

  ghost predicate ClearedVm(entry: VmEntry, vm: Option<Vm>, seen: Option<Inventory>) {
    vm.Some? ==> vm.value.m.rt.cfg == entry.cfg && Cleared(vm.value.m, seen)
  }

  lemma ApplyCleared(k: Kernel, entry: VmEntry, h0: HostMap, vm: Option<Vm>, seen: Option<Inventory>, a: Action)
    requires ValidHost(a.at.host) && SameConfigured(entry.cfg, HostOf(h0, vm), a.at.host) && ClearedVm(entry, vm, seen)
    ensures var seen' :=
        if a.what.Tick? && vm.Some? then ScanOfTick(a.what.env, Relocate(vm.value, a.at), seen) else seen;
      ClearedVm(entry, Apply(k, entry, vm, a).0, seen')
  {
    if vm.Some? {
      MetCleared(vm.value, a.at, seen);
      if a.what.Tick? {
        TickCleared(k, a.what.env, a.what.exited, Relocate(vm.value, a.at), seen);
      }
    }
  }

  lemma {:induction false} RunCleared(k: Kernel, entry: VmEntry, h0: HostMap, acts: seq<Action>)
    requires Undisturbed(k, entry, h0, acts)
    ensures ClearedVm(entry, After(k, entry, acts), StagingScan(k, entry, acts)) && ValidHosts(acts)
  {
    if acts != [] {
      var front, last := acts[..|acts| - 1], acts[|acts| - 1];
      assert acts == front + [last];
      RunCleared(k, entry, h0, front);
      ApplyCleared(k, entry, h0, After(k, entry, front), StagingScan(k, entry, front), last);
    }
  }

  /** Over every run: whenever the VM has a QEMU handle, its devices are cleared by the latest
      scan that staging made. */
  lemma RunsOnClearedDevices(k: Kernel, entry: VmEntry, h0: HostMap, acts: seq<Action>)
    requires Undisturbed(k, entry, h0, acts)
    ensures var vm, seen := After(k, entry, acts), StagingScan(k, entry, acts);
      RunsQemu(vm) ==> seen.Some? && ClearedBy(entry.cfg, seen.value, vm.value.m.host)
  {
    RunCleared(k, entry, h0, acts);
    ExactlyOnce(k, entry, acts);
    var vm := After(k, entry, acts);
    if RunsQemu(vm) {
      HandleMeansCleared(vm.value.m, StagingScan(k, entry, acts));
    }
  }

  lemma HandleMeansCleared(m: Machine, seen: Option<Inventory>)
    requires Inv(m) && Cleared(m, seen) && m.rt.qemu.Some?
    ensures seen.Some? && ClearedBy(m.rt.cfg, seen.value, m.host)
  {}

  // ---------- Clearance on the host itself ----------

  /** Others may rebind devices, but none appears, disappears or changes its identity, class
      or group. */
  ghost predicate TopologyKept(k: Kernel, entry: VmEntry, h0: HostMap, acts: seq<Action>) {
    acts == [] ||
    var front, last := acts[..|acts| - 1], acts[|acts| - 1];
    && TopologyKept(k, entry, h0, front)
    && SameDevices(HostOf(h0, After(k, entry, front)), last.at.host)
  }

  ghost predicate CompleteStagings(acts: seq<Action>) {
    forall a :: a in acts && a.what.Tick? ==> CompleteScans(a.what.env.scan)
  }

  lemma TickKeepsDevices(k: Kernel, env: Env, exited: bool, vm: Vm)
    requires ValidHost(vm.m.host)
    ensures SameDevices(vm.m.host, TickOf(k, env, exited, vm).0.m.host)
  {
    var m := TickSteps(k, env, exited, vm);
    StepKeepsDevices(k, env, m);
    ShutdownKeepsDevices(k, env, m);
  }

  /** A scan stays true to the host while only drivers change. */
  lemma AnchoredLater(seen: Inventory, h: HostMap, h': HostMap)
    requires Anchored(seen, h) && SameDevices(h, h')
    ensures Anchored(seen, h') && (Covers(seen, h) ==> Covers(seen, h'))
  {}

  lemma SnapshotAnchored(seen: Inventory, h: HostMap)
    requires SnapshotOf(seen, h)
    ensures Anchored(seen, h) && (ValidHost(h) && CompleteSnapshotOf(seen, h) ==> Covers(seen, h))
  {
    if ValidHost(h) && CompleteSnapshotOf(seen, h) {
      forall b | b in h ensures FindByBdf(seen, b).Some? {
        SnapshotFinds(seen, h, b);
      }
    }
  }

  /** The latest scan, if there was one, is true to the host, and complete if scans are. */
  ghost predicate Grounded(seen: Option<Inventory>, h: HostMap, complete: bool) {
    seen.Some? ==> Anchored(seen.value, h) && (complete ==> Covers(seen.value, h))
  }

  lemma TickGrounded(k: Kernel, env: Env, exited: bool, vm: Vm, seen: Option<Inventory>, complete: bool)
    requires ValidHost(vm.m.host) && Grounded(seen, vm.m.host, complete)
    requires complete ==> CompleteScans(env.scan)
    ensures Grounded(ScanOfTick(env, vm, seen), TickOf(k, env, exited, vm).0.m.host, complete)
  {
    var seen' := ScanOfTick(env, vm, seen);
    if seen'.Some? {
      if seen' != seen {
        SnapshotAnchored(seen'.value, vm.m.host);
      }
      TickKeepsDevices(k, env, exited, vm);
      AnchoredLater(seen'.value, vm.m.host, TickOf(k, env, exited, vm).0.m.host);
    }
  }

  lemma GroundedLater(seen: Option<Inventory>, h: HostMap, h': HostMap, complete: bool)
    requires Grounded(seen, h, complete) && SameDevices(h, h')
    ensures Grounded(seen, h', complete)
  {
    if seen.Some? {
      AnchoredLater(seen.value, h, h');
    }
  }

  lemma CommandHost(k: Kernel, entry: VmEntry, vm: Vm, a: Action)
    requires !a.what.Tick?
    ensures var next := Apply(k, entry, Some(vm), a).0; next.Some? && next.value.m.host == a.at.host
  {}

  lemma ApplyGrounded(k: Kernel, entry: VmEntry, vm: Vm, seen: Option<Inventory>, a: Action, complete: bool)
    requires ValidHost(a.at.host) && SameDevices(vm.m.host, a.at.host) && Grounded(seen, vm.m.host, complete)
    requires complete && a.what.Tick? ==> CompleteScans(a.what.env.scan)
    ensures var next := Apply(k, entry, Some(vm), a).0;
      var seen' := if a.what.Tick? then ScanOfTick(a.what.env, Relocate(vm, a.at), seen) else seen;
      next.Some? && Grounded(seen', next.value.m.host, complete)
  {
    GroundedLater(seen, vm.m.host, a.at.host, complete);
    if a.what.Tick? {
      TickGrounded(k, a.what.env, a.what.exited, Relocate(vm, a.at), seen, complete);
    } else {
      CommandHost(k, entry, vm, a);
    }
  }

  /** The latest staging scan stays true to the host, and complete if it was. */
  lemma {:induction false} RunGrounded(k: Kernel, entry: VmEntry, h0: HostMap, acts: seq<Action>, complete: bool)
    requires Undisturbed(k, entry, h0, acts) && TopologyKept(k, entry, h0, acts)
    requires complete ==> CompleteStagings(acts)
    ensures var vm, seen := After(k, entry, acts), StagingScan(k, entry, acts);
      if vm.Some? then Grounded(seen, vm.value.m.host, complete) else seen.None?
  {
    if acts != [] {
      var front, last := acts[..|acts| - 1], acts[|acts| - 1];
      assert acts == front + [last] && last in acts && forall a :: a in front ==> a in acts;
      RunGrounded(k, entry, h0, front, complete);
      if After(k, entry, front).Some? {
        ApplyGrounded(k, entry, After(k, entry, front).value, StagingScan(k, entry, front), last, complete);
      }
    }
  }

  /** Over every run: while a VM has a QEMU handle, the configured devices that its staging
      scan saw are on vfio-pci and, under enforced exclusivity, so are all functions of the
      host that share a group with one of them and that the scan saw. If staging scans are
      complete, every configured device of the host is on vfio-pci and, under enforced
      exclusivity, so is every function of the host in a configured device's group. */
  lemma RunsOnReadyHost(k: Kernel, entry: VmEntry, h0: HostMap, acts: seq<Action>)
    requires Undisturbed(k, entry, h0, acts) && TopologyKept(k, entry, h0, acts)
    requires RunsQemu(After(k, entry, acts))
    ensures var h, seen := HostOf(h0, After(k, entry, acts)), StagingScan(k, entry, acts);
      && seen.Some? && Anchored(seen.value, h)
      && (forall b :: b in h && Configured(entry.cfg, b) && FindByBdf(seen.value, b).Some? ==> h[b].OnVfio())
      && (EnforcesExclusivity(entry.cfg) ==> SeenMatesReady(entry.cfg, seen.value, h))
    ensures var h := HostOf(h0, After(k, entry, acts));
      && (CompleteStagings(acts) ==> DevicesReady(entry.cfg, h))
      && (CompleteStagings(acts) && EnforcesExclusivity(entry.cfg) ==> GroupsReady(entry.cfg, h))
  {
    RunsOnClearedDevices(k, entry, h0, acts);
    RunGrounded(k, entry, h0, acts, CompleteStagings(acts));
    var h, seen := HostOf(h0, After(k, entry, acts)), StagingScan(k, entry, acts).value;
    RunValidHost(k, entry, h0, acts);
    ClearedHost(entry.cfg, seen, h);
    if CompleteStagings(acts) {
      CoveredHostReady(entry.cfg, seen, h);
    }
  }

  lemma RunValidHost(k: Kernel, entry: VmEntry, h0: HostMap, acts: seq<Action>)
    requires Undisturbed(k, entry, h0, acts) && After(k, entry, acts).Some?
    ensures ValidHost(After(k, entry, acts).value.m.host)
  {
    var front, last := acts[..|acts| - 1], acts[|acts| - 1];
    var vm := After(k, entry, front);
    if last.what.Tick? && vm.Some? {
      TickKeepsDevices(k, last.what.env, last.what.exited, Relocate(vm.value, last.at));
    }
  }

  // ---------- Everything returns home ----------

  /** As in h0, except that a configured device without a driver may be on vfio-pci. */
  ghost predicate AtHome(cfg: VmConfig, h0: HostMap, h: HostMap) {
    h.Keys == h0.Keys && forall b :: b in h0 && Configured(cfg, b) ==> DeviceAtHome(h0[b], h[b])
  }

  predicate DeviceAtHome(f0: PciFunction, f: PciFunction) {
    f == f0 || (f0.driver.None? && f == f0.(driver := Some(VFIO)))
  }

  ghost predicate Traced(entry: VmEntry, h0: HostMap, vm: Vm) {
    vm.m.rt.cfg == entry.cfg && exists base: HostMap :: TracedFrom(entry, h0, base, vm)
  }

  /** The incarnation found `base`, which was home, and is on its way back to it. */
  ghost predicate TracedFrom(entry: VmEntry, h0: HostMap, base: HostMap, vm: Vm) {
    CleanHost(base) && AtHome(entry.cfg, h0, base) && Contained(base, vm.m) && OnItsWay(base, vm.m)
  }

  /** No write of the tick is refused, and if it restores, it sees what it has to move. */
  ghost predicate TickUnrefused(k: Kernel, env: Env, exited: bool, vm: Vm) {
    var v := DetectExit(exited, vm);
    if WantedUp(v) then StepUnrefused(k, env, v.m) else ShutdownUnrefused(k, env, v.m)
  }

  ghost predicate RunUnrefused(k: Kernel, entry: VmEntry, acts: seq<Action>) {
    acts == [] ||
    var front, last := acts[..|acts| - 1], acts[|acts| - 1];
    var vm := After(k, entry, front);
    && RunUnrefused(k, entry, front)
    && (last.what.Tick? && vm.Some? ==>
          TickUnrefused(k, last.what.env, last.what.exited, Relocate(vm.value, last.at)))
  }

  lemma RebaseOnItsWay(cfg: VmConfig, base: HostMap, m: Machine, at: World)
    requires CleanHost(base) && CleanHost(at.host) && Contained(base, m) && OnItsWay(base, m)
    requires m.rt.cfg == cfg && SameConfigured(cfg, m.host, at.host)
    ensures OnItsWay(Rebase(cfg, base, at.host), m.(host := at.host, writes := at.writes))
  {
    var base' := Rebase(cfg, base, at.host);
    var m' := m.(host := at.host, writes := at.writes);
    assert forall b :: Named(m.rt.transitions, b) ==> Configured(cfg, b);
    if Tracked(base, m) {
      RebaseTracked(cfg, base, m, at);
    }
    if BackHome(base, m) {
      RebaseBackHome(cfg, base, m, at);
    }
  }

  lemma RebaseTracked(cfg: VmConfig, base: HostMap, m: Machine, at: World)
    requires CleanHost(base) && Contained(base, m) && Tracked(base, m) && m.rt.cfg == cfg
    requires SameConfigured(cfg, m.host, at.host)
    ensures Tracked(Rebase(cfg, base, at.host), m.(host := at.host, writes := at.writes))
  {
    assert forall t :: t in m.rt.transitions ==> Configured(cfg, t.bdf);
  }

  lemma RebaseBackHome(cfg: VmConfig, base: HostMap, m: Machine, at: World)
    requires CleanHost(base) && Contained(base, m) && BackHome(base, m) && m.rt.cfg == cfg
    requires SameConfigured(cfg, m.host, at.host)
    ensures BackHome(Rebase(cfg, base, at.host), m.(host := at.host, writes := at.writes))
  {
    assert forall t :: t in m.rt.transitions ==> Configured(cfg, t.bdf);
  }

  lemma MetTraced(entry: VmEntry, h0: HostMap, vm: Vm, at: World)
    requires Traced(entry, h0, vm) && CleanHost(at.host) && SameConfigured(entry.cfg, vm.m.host, at.host)
    ensures Traced(entry, h0, Relocate(vm, at))
  {
    var base: HostMap :| TracedFrom(entry, h0, base, vm);
    RebaseContained(entry.cfg, base, vm.m, at);
    RebaseOnItsWay(entry.cfg, base, vm.m, at);
    assert TracedFrom(entry, h0, Rebase(entry.cfg, base, at.host), Relocate(vm, at));
  }

  lemma ReachOnItsWay(base: HostMap, m: Machine, m': Machine)
    requires SameReach(m, m') && OnItsWay(base, m)
    ensures OnItsWay(base, m')
  {
    HomeDepends(base, m, m');
  }

  lemma LoggedOnItsWay(base: HostMap, m: Machine, error: Option<Failure>)
    requires OnItsWay(base, m)
    ensures OnItsWay(base, Logged(m, error))
  {
    LoggedReach(m, error);
    ReachOnItsWay(base, m, Logged(m, error));
  }

  lemma DriveOnItsWay(base: HostMap, k: Kernel, env: Env, vm: Vm)
    requires CleanHost(base) && OnItsWay(base, vm.m)
    requires if WantedUp(vm) then StepUnrefused(k, env, vm.m) else ShutdownUnrefused(k, env, vm.m)
    ensures OnItsWay(base, Drive(k, env, vm).m)
  {
    var m := vm.m;
    if WantedUp(vm) {
      StepOnItsWay(base, k, env, m);
      LoggedOnItsWay(base, StepOf(k, env, m).0, StepOf(k, env, m).1);
    } else {
      ShutdownOnItsWay(base, k, env, m);
      LoggedOnItsWay(base, ShutdownStepOf(k, env, m).0, ShutdownStepOf(k, env, m).1);
    }
  }

  lemma TickTraced(k: Kernel, entry: VmEntry, h0: HostMap, env: Env, exited: bool, vm: Vm)
    requires TickUnrefused(k, env, exited, vm) && Traced(entry, h0, vm)
    ensures Traced(entry, h0, TickOf(k, env, exited, vm).0)
  {
    var base: HostMap :| TracedFrom(entry, h0, base, vm);
    TickContained(base, k, env, exited, vm);
    var v := DetectExit(exited, vm);
    ReachOnItsWay(base, vm.m, v.m);
    DriveOnItsWay(base, k, env, v);
    assert TickOf(k, env, exited, vm).0.m == Drive(k, env, v).m;
    assert TracedFrom(entry, h0, base, TickOf(k, env, exited, vm).0);
  }

  lemma HomeTwice(cfg: VmConfig, h0: HostMap, base: HostMap, m: Machine)
    requires AtHome(cfg, h0, base) && BackHome(base, m)
    ensures AtHome(cfg, h0, m.host)
  {
    forall b | b in h0 && Configured(cfg, b) ensures DeviceAtHome(h0[b], m.host[b]) {
      assert DeviceAtHome(h0[b], base[b]) && b in base;
    }
  }

  lemma TracedAtEnd(entry: VmEntry, h0: HostMap, vm: Vm)
    requires Traced(entry, h0, vm) && (vm.m.state == Cleanup || vm.m.state == Idle)
    ensures AtHome(entry.cfg, h0, vm.m.host)
  {
    var base: HostMap :| TracedFrom(entry, h0, base, vm);
    EndIsHome(base, vm.m);
    HomeTwice(entry.cfg, h0, base, vm.m);
  }

  lemma EndIsHome(base: HostMap, m: Machine)
    requires OnItsWay(base, m) && (m.state == Cleanup || m.state == Idle)
    ensures BackHome(base, m)
  {}

  lemma StartTraced(entry: VmEntry, h0: HostMap, at: World)
    requires CleanHost(at.host) && AtHome(entry.cfg, h0, at.host) && NewVm(entry, at.host, at.writes).Some?
    ensures Traced(entry, h0, NewVm(entry, at.host, at.writes).value.(desired := Starting))
  {
    var vm := NewVm(entry, at.host, at.writes).value.(desired := Starting);
    assert TracedFrom(entry, h0, at.host, vm);
  }

  lemma SameMachineTraced(entry: VmEntry, h0: HostMap, vm: Vm, vm': Vm)
    requires Traced(entry, h0, vm) && vm'.m == vm.m
    ensures Traced(entry, h0, vm')
  {
    var base: HostMap :| TracedFrom(entry, h0, base, vm);
    assert TracedFrom(entry, h0, base, vm');
  }

  lemma ApplyTraced(k: Kernel, entry: VmEntry, h0: HostMap, vm: Option<Vm>, a: Action)
    requires CleanHost(a.at.host) && SameConfigured(entry.cfg, HostOf(h0, vm), a.at.host)
    requires a.what.Tick? && vm.Some? ==> TickUnrefused(k, a.what.env, a.what.exited, Relocate(vm.value, a.at))
    requires vm.Some? ==> Traced(entry, h0, vm.value)
    ensures Apply(k, entry, vm, a).0.Some? ==> Traced(entry, h0, Apply(k, entry, vm, a).0.value)
  {
    var next := Apply(k, entry, vm, a).0;
    if vm.None? {
      if next.Some? {
        StartTraced(entry, h0, a.at);
      }
    } else {
      var met := Relocate(vm.value, a.at);
      MetTraced(entry, h0, vm.value, a.at);
      if a.what.Tick? {
        TickTraced(k, entry, h0, a.what.env, a.what.exited, met);
      } else if Replaces(entry, vm, a) {
        TracedAtEnd(entry, h0, met);
        StartTraced(entry, h0, a.at);
      } else {
        SameMachineTraced(entry, h0, met, next.value);
      }
    }
  }

  /** The round trip over every run. If none of the writes that the run makes is refused and
      its restores see the devices they have to move, then whenever the VM is in Cleanup or
      Idle, whatever else failed on the way and however often it was started, every configured
      device that had a driver before the first start is back on it, and one that had none is
      unbound or on vfio-pci. */
  lemma {:induction false} RunReturnsHome(k: Kernel, entry: VmEntry, h0: HostMap, acts: seq<Action>)
    requires RunUnrefused(k, entry, acts) && Undisturbed(k, entry, h0, acts) && CleanHosts(acts)
    ensures var vm := After(k, entry, acts);
      && (vm.Some? ==> Traced(entry, h0, vm.value))
      && (IsOver(vm) ==> AtHome(entry.cfg, h0, HostOf(h0, vm)))
  {
    if acts != [] {
      var front, last := acts[..|acts| - 1], acts[|acts| - 1];
      assert last in acts && forall a :: a in front ==> a in acts;
      RunReturnsHome(k, entry, h0, front);
      ApplyTraced(k, entry, h0, After(k, entry, front), last);
    }
    var vm := After(k, entry, acts);
    if vm.Some? && IsOver(vm) {
      TracedAtEnd(entry, h0, vm.value);
    }
  }

  ghost predicate CompleteRestores(acts: seq<Action>) {
    forall a :: a in acts && a.what.Tick? ==> CompleteScans(a.what.env.restoreScan)
  }

  lemma AcceptedTick(k: Kernel, entry: VmEntry, h0: HostMap, env: Env, exited: bool, vm: Vm)
    requires Accepting(k) && CompleteScans(env.restoreScan) && Held(entry, h0, vm) && ValidHost(vm.m.host)
    ensures TickUnrefused(k, env, exited, vm)
  {
    HeldLog(entry, h0, vm);
    var v := DetectExit(exited, vm);
    AcceptedStaging(k, env, v.m);
    AcceptedTeardown(k, env.restoreScan, v.m);
  }

  /** Under a kernel that refuses nothing, with complete restore scans, nothing is refused. */
  lemma {:induction false} AcceptingRunUnrefused(k: Kernel, entry: VmEntry, h0: HostMap, acts: seq<Action>)
    requires Accepting(k) && CompleteRestores(acts) && Undisturbed(k, entry, h0, acts) && CleanHosts(acts)
    ensures RunUnrefused(k, entry, acts)
  {
    if acts != [] {
      var front, last := acts[..|acts| - 1], acts[|acts| - 1];
      assert last in acts && forall a :: a in front ==> a in acts;
      AcceptingRunUnrefused(k, entry, h0, front);
      var vm := After(k, entry, front);
      if last.what.Tick? && vm.Some? {
        RunStaysWithin(k, entry, h0, front);
        MetHeld(entry, h0, vm.value, last.at);
        AcceptedTick(k, entry, h0, last.what.env, last.what.exited, Relocate(vm.value, last.at));
      }
    }
  }

  lemma HeldLog(entry: VmEntry, h0: HostMap, vm: Vm)
    requires Held(entry, h0, vm)
    ensures forall t :: t in vm.m.rt.transitions ==> t.bdf in vm.m.host
  {
    var base: HostMap :| HeldFrom(entry, h0, base, vm);
  }

  // ---------- When bound devices cannot be bound ----------

  predicate OnVfioIn(h: HostMap, b: string) {
    b in h && h[b].OnVfio()
  }

  lemma TickKeepsVfio(k: Kernel, env: Env, exited: bool, vm: Vm)
    requires RefusesBound(k) && ValidHost(vm.m.host)
    ensures VfioKept(vm.m.host, TickOf(k, env, exited, vm).0.m.host)
  {
    var m := TickSteps(k, env, exited, vm);
    StepKeepsVfio(k, env, m);
    ShutdownKeepsVfio(k, env, m);
  }

  lemma ApplyKeepsVfio(k: Kernel, entry: VmEntry, h0: HostMap, vm: Option<Vm>, a: Action, b: string)
    requires RefusesBound(k) && ValidHost(a.at.host) && SameConfigured(entry.cfg, HostOf(h0, vm), a.at.host)
    requires Configured(entry.cfg, b) && OnVfioIn(HostOf(h0, vm), b)
    ensures var h := HostOf(h0, Apply(k, entry, vm, a).0); b in h && h[b] == HostOf(h0, vm)[b]
  {
    if a.what.Tick? && vm.Some? {
      TickKeepsVfio(k, a.what.env, a.what.exited, Relocate(vm.value, a.at));
    }
  }

  /** Under a kernel that refuses to bind bound devices, such as one that accepts exactly the
      writes that fit, no run ever takes a configured device off vfio-pci again: teardown does
      not undo a staging that succeeded, in any incarnation. */
  lemma {:induction false} VfioIsForever(k: Kernel, entry: VmEntry, h0: HostMap, front: seq<Action>, rest: seq<Action>,
                                         b: string)
    requires RefusesBound(k) && Undisturbed(k, entry, h0, front + rest) && Configured(entry.cfg, b)
    requires OnVfioIn(HostOf(h0, After(k, entry, front)), b)
    ensures var h, h' := HostOf(h0, After(k, entry, front)), HostOf(h0, After(k, entry, front + rest));
      b in h' && h'[b] == h[b]
  {
    if rest == [] {
      assert front + rest == front;
    } else {
      var before, last := front + rest[..|rest| - 1], rest[|rest| - 1];
      assert front + rest == before + [last] && (before + [last])[..|before|] == before;
      VfioIsForever(k, entry, h0, front, rest[..|rest| - 1], b);
      ApplyKeepsVfio(k, entry, h0, After(k, entry, before), last, b);
    }
  }
}
