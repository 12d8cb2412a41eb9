/** What the lifecycle does to the host's devices, over every sequence of steps. */
module HostLife {
  import opened Prelude
  import opened Config
  import opened Pci
  import opened VfioPlan
  import opened VfioExecute
  import opened VfioRestore
  import opened VfioStaging
  import opened Lifecycle
  import Isolation

  ghost predicate Configured(cfg: VmConfig, b: string) {
    exists c :: c in cfg.devices.All() && c.address == b
  }

  /** Driver names as the kernel reports them: what restoring normalizes, it keeps. */
  ghost predicate CleanHost(h: HostMap) {
    ValidHost(h) && forall b :: b in h && h[b].driver.Some? ==> CleanName(h[b].driver.value)
  }

  // ---------- Containment, whatever fails ----------

  /** From the host h0 the machine found: a configured device is on its own driver, on none,
      or on vfio-pci, and in the last case is on record; every other device is untouched. */
  ghost predicate Contained(h0: HostMap, m: Machine) {
    && m.host.Keys == h0.Keys
    && (forall b :: b in h0 ==> DeviceContained(m.rt.cfg, h0[b], m.host[b]))
    && (forall b :: b in h0 && m.host[b].OnVfio() && !h0[b].OnVfio() ==> Named(m.rt.transitions, b))
    && (forall t :: t in m.rt.transitions ==> t.bdf in h0 && RecordContained(m.rt.cfg, h0[t.bdf], t))
  }

  ghost predicate DeviceContained(cfg: VmConfig, f0: PciFunction, f: PciFunction) {
    && f.SameDevice(f0)
    && f.driver in {f0.driver, None, Some(VFIO)}
    && (f0.OnVfio() || !Configured(cfg, f0.bdf) ==> f == f0)
  }

  ghost predicate RecordContained(cfg: VmConfig, f0: PciFunction, t: VfioTransition) {
    Configured(cfg, t.bdf) && !f0.OnVfio() && t.fromDriver in {f0.driver, None}
  }

  lemma PlanIsConfigured(cfg: VmConfig, inv: Inventory, a: VfioAction)
    requires a in PlanOf(Isolation.Selected(cfg, inv))
    ensures Configured(cfg, a.bdf)
  {
    var fs := Isolation.Selected(cfg, inv);
    if a in Unbinds(fs) {
      UnbindMember(fs, a);
    }
    var f :| f in fs && f.bdf == a.bdf;
    PresentMember(inv, cfg.devices.All(), f);
  }

  lemma {:induction false} RunLogs(actions: seq<VfioAction>, inv: Inventory, k: Kernel, s: Exec, t: VfioTransition)
    requires t in RunActions(actions, inv, k, s).0.log
    ensures t in s.log || exists a :: a in actions && a.bdf == t.bdf
  {
    if actions != [] {
      var (s1, ok) := RunAction(actions[0], inv, k, s);
      assert actions == [actions[0]] + actions[1..];
      if ok {
        RunLogs(actions[1..], inv, k, s1, t);
      }
    }
  }

  /** Staging, however it ends, keeps the write-ahead invariant from the host it started on
      and leaves the devices outside the configuration alone. */
  lemma StagingReach(k: Kernel, env: Env, m: Machine)
    requires ValidHost(m.host)
    ensures var s := StagedBy(k, env, m).0;
      && m.rt.transitions <= s.log && WriteAhead(m.host, |m.rt.transitions|, s)
      && (forall b :: b in m.host && !Configured(m.rt.cfg, b) ==> s.host[b] == m.host[b])
      && (forall t :: t in s.log ==> t in m.rt.transitions || Configured(m.rt.cfg, t.bdf))
  {
    var start := Exec(m.host, m.writes, m.rt.transitions);
    var seen := env.scan(m.host);
    assert start.log[|start.log|..] == [];
    if seen.Some? {
      var actions := PlanOf(Isolation.Selected(m.rt.cfg, seen.value));
      RunKeepsWriteAhead(actions, seen.value, k, m.host, |m.rt.transitions|, start);
      forall b | b in m.host && !Configured(m.rt.cfg, b)
        ensures forall a :: a in actions ==> a.bdf != b
      {
        forall a | a in actions ensures a.bdf != b {
          PlanIsConfigured(m.rt.cfg, seen.value, a);
        }
      }
      forall t | t in RunActions(actions, seen.value, k, start).0.log
        ensures t in m.rt.transitions || Configured(m.rt.cfg, t.bdf)
      {
        RunLogs(actions, seen.value, k, start, t);
        if a :| a in actions && a.bdf == t.bdf {
          PlanIsConfigured(m.rt.cfg, seen.value, a);
        }
      }
    }
  }

  lemma StagingContained(h0: HostMap, m: Machine, s: Exec)
    requires ValidHost(h0) && Contained(h0, m)
    requires m.rt.transitions <= s.log && WriteAhead(m.host, |m.rt.transitions|, s)
    requires forall b :: b in m.host && !Configured(m.rt.cfg, b) ==> s.host[b] == m.host[b]
    requires forall t :: t in s.log ==> t in m.rt.transitions || Configured(m.rt.cfg, t.bdf)
    ensures Contained(h0, m.(host := s.host, writes := s.writes, rt := m.rt.(transitions := s.log)))
  {
    var added := s.log[|m.rt.transitions|..];
    assert s.log == m.rt.transitions + added;
    forall b | b in h0 ensures DeviceContained(m.rt.cfg, h0[b], s.host[b]) {
      assert DeviceContained(m.rt.cfg, h0[b], m.host[b]);
    }
    forall b | b in h0 && s.host[b].OnVfio() && !h0[b].OnVfio() ensures Named(s.log, b) {
      if m.host[b].OnVfio() {
        var t :| t in m.rt.transitions && t.bdf == b;
        assert t in s.log;
      } else {
        assert Recorded(added, m.host[b]);
        assert DeviceContained(m.rt.cfg, h0[b], m.host[b]);
        assert RecordOf(m.host[b]) in s.log && RecordOf(m.host[b]).bdf == b;
      }
    }
    forall t | t in s.log ensures t.bdf in h0 && RecordContained(m.rt.cfg, h0[t.bdf], t) {
      if t in added {
        assert DeviceContained(m.rt.cfg, h0[t.bdf], m.host[t.bdf]);
      }
    }
  }

  /** A live restore, whatever fails, moves a device only to a driver on record for it. */
  lemma {:induction false} RestoreReach(ts: seq<VfioTransition>, inv: Inventory, k: Kernel, p: Progress, b: string)
    requires b in p.host
    ensures var q := RestoreAll(ts, inv, k, Live, p);
      && b in q.host
      && (q.host[b] == p.host[b] ||
          exists t :: t in ts && t.bdf == b && Target(t).Some? && q.host[b] == p.host[b].(driver := Target(t)))
  {
    if ts != [] {
      var p1 := RestoreOne(ts[0], inv, k, Live, p);
      RestoreReach(ts[1..], inv, k, p1, b);
      assert ts == [ts[0]] + ts[1..];
      assert p1.host[b] != p.host[b] ==>
        ts[0].bdf == b && Target(ts[0]).Some? && p1.host[b] == p.host[b].(driver := Target(ts[0]));
      assert forall t :: t in ts[1..] ==> t in ts;
      assert ts[0] in ts;
    }
  }

  lemma RestoredReach(k: Kernel, scan: Scanner, m: Machine, b: string)
    requires b in m.host
    ensures var q := Restored(k, scan, m);
      && q.host.Keys == m.host.Keys
      && (q.host[b] == m.host[b] ||
          exists t :: t in m.rt.transitions && t.bdf == b && Target(t).Some?
                      && q.host[b] == m.host[b].(driver := Target(t)))
  {
    if m.rt.transitions != [] && scan(m.host).Some? {
      var inv := scan(m.host).value;
      var ts := Ordered(inv, m.rt.transitions);
      SameElements(inv, m.rt.transitions);
      DevicesKept(ts, inv, k, Live, Progress(m.host, m.writes, []));
      RestoreReach(ts, inv, k, Progress(m.host, m.writes, []), b);
    }
  }

  lemma RestoringContained(h0: HostMap, k: Kernel, scan: Scanner, m: Machine)
    requires CleanHost(h0) && Contained(h0, m)
    ensures Contained(h0, m.(host := Restored(k, scan, m).host))
  {
    var q := Restored(k, scan, m);
    forall b | b in h0
      ensures b in q.host && DeviceContained(m.rt.cfg, h0[b], q.host[b])
      ensures q.host[b].OnVfio() && !h0[b].OnVfio() ==> Named(m.rt.transitions, b)
    {
      assert DeviceContained(m.rt.cfg, h0[b], m.host[b]);
      RestoredReach(k, scan, m, b);
      if q.host[b] != m.host[b] {
        var t :| t in m.rt.transitions && t.bdf == b && Target(t).Some? && q.host[b] == m.host[b].(driver := Target(t));
        assert RecordContained(m.rt.cfg, h0[b], t);
      }
    }
    if q.host.Keys != h0.Keys {
      RestoredKeys(k, scan, m);
    }
  }

  lemma RestoredKeys(k: Kernel, scan: Scanner, m: Machine)
    ensures Restored(k, scan, m).host.Keys == m.host.Keys
  {
    if m.rt.transitions != [] && scan(m.host).Some? {
      DevicesKept(Ordered(scan(m.host).value, m.rt.transitions), scan(m.host).value, k, Live,
                  Progress(m.host, m.writes, []));
    }
  }

  lemma ContainedDepends(h0: HostMap, m: Machine, m': Machine)
    requires Contained(h0, m) && m'.host == m.host && m'.rt.cfg == m.rt.cfg && m'.rt.transitions == m.rt.transitions
    ensures Contained(h0, m')
  {}

  /** A step of bring-up reaches the host in PreparePci only. */
  lemma StepHost(k: Kernel, env: Env, m: Machine)
    ensures var m1 := StepOf(k, env, m).0;
      && m1.rt.cfg == m.rt.cfg
      && if m.state == PreparePci then
           (m1.host, m1.rt.transitions) == (StagedBy(k, env, m).0.host, StagedBy(k, env, m).0.log)
         else (m1.host, m1.rt.transitions) == (m.host, m.rt.transitions)
  {
    if m.state == PreparePci {
      PrepareHost(k, env, m);
    } else if m.state == Validate {
      ValidatedEffect(env, m.Push(System, Enter(m.state)));
    }
  }

  lemma PrepareHost(k: Kernel, env: Env, m: Machine)
    requires m.state == PreparePci
    ensures var m1, s := StepOf(k, env, m).0, StagedBy(k, env, m).0;
      m1.rt.cfg == m.rt.cfg && m1.host == s.host && m1.rt.transitions == s.log
    ensures StepOf(k, env, m).1.None? ==> StagedBy(k, env, m).1
  {
    var said := m.Push(System, Enter(m.state));
    PreparedEffect(k, env, said);
    assert StagedBy(k, env, said) == StagedBy(k, env, m);
  }

  /** A step of shutdown reaches the host in Shutdown only, and never the log. */
  lemma ShutdownHost(k: Kernel, env: Env, m: Machine)
    ensures var m1 := ShutdownStepOf(k, env, m).0;
      && m1.rt.cfg == m.rt.cfg && m1.rt.transitions == m.rt.transitions
      && m1.host == if m.state == Shutdown then Restored(k, env.restoreScan, m).host else m.host
  {
    if m.state == Shutdown {
      TornDownEffect(k, env, m);
    } else if m.state.BringUp() {
      StopEffect(env, m);
    }
  }

  lemma StepContained(h0: HostMap, k: Kernel, env: Env, m: Machine)
    requires ValidHost(h0) && Contained(h0, m)
    ensures Contained(h0, StepOf(k, env, m).0)
  {
    StepHost(k, env, m);
    if m.state == PreparePci {
      var s := StagedBy(k, env, m).0;
      StagingReach(k, env, m);
      StagingContained(h0, m, s);
      ContainedDepends(h0, m.(host := s.host, writes := s.writes, rt := m.rt.(transitions := s.log)),
                       StepOf(k, env, m).0);
    } else {
      ContainedDepends(h0, m, StepOf(k, env, m).0);
    }
  }

  lemma ShutdownContained(h0: HostMap, k: Kernel, env: Env, m: Machine)
    requires CleanHost(h0) && Contained(h0, m)
    ensures Contained(h0, ShutdownStepOf(k, env, m).0)
  {
    ShutdownHost(k, env, m);
    if m.state == Shutdown {
      RestoringContained(h0, k, env.restoreScan, m);
      ContainedDepends(h0, m.(host := Restored(k, env.restoreScan, m).host), ShutdownStepOf(k, env, m).0);
    } else {
      ContainedDepends(h0, m, ShutdownStepOf(k, env, m).0);
    }
  }

  // ---------- Configured devices only ----------

  ghost predicate LogConfigured(m: Machine) {
    forall t :: t in m.rt.transitions ==> Configured(m.rt.cfg, t.bdf)
  }

  /** Only configured devices differ. */
  ghost predicate OthersKept(cfg: VmConfig, h: HostMap, h': HostMap) {
    h'.Keys == h.Keys && forall b :: b in h && !Configured(cfg, b) ==> h'[b] == h[b]
  }

  lemma StepOthers(k: Kernel, env: Env, m: Machine)
    requires ValidHost(m.host) && LogConfigured(m)
    ensures LogConfigured(StepOf(k, env, m).0) && OthersKept(m.rt.cfg, m.host, StepOf(k, env, m).0.host)
  {
    StepHost(k, env, m);
    if m.state == PreparePci {
      StagingReach(k, env, m);
    }
  }

  lemma ShutdownOthers(k: Kernel, env: Env, m: Machine)
    requires LogConfigured(m)
    ensures LogConfigured(ShutdownStepOf(k, env, m).0)
    ensures OthersKept(m.rt.cfg, m.host, ShutdownStepOf(k, env, m).0.host)
  {
    ShutdownHost(k, env, m);
    if m.state == Shutdown {
      RestoredKeys(k, env.restoreScan, m);
      forall b | b in m.host && !Configured(m.rt.cfg, b) ensures Restored(k, env.restoreScan, m).host[b] == m.host[b] {
        RestoredReach(k, env.restoreScan, m, b);
      }
    }
  }

  // ---------- A VM runs on cleared devices only ----------

  /** The scan lists functions of h, whatever their drivers have become since. */
  ghost predicate Anchored(seen: Inventory, h: HostMap) {
    UniqueBdfs(seen) && forall f :: f in seen ==> f.bdf in h && h[f.bdf].SameDevice(f)
  }

  ghost predicate SameDevices(h: HostMap, h': HostMap) {
    h'.Keys == h.Keys && forall b :: b in h ==> h'[b].SameDevice(h[b])
  }

  /** The scan `seen`, whose configured functions are those of h, passed the gate and the
      planner; every device it resolves for the VM is on vfio-pci in h; and if exclusivity
      is enforced, so is the rest of their IOMMU groups, as far as it saw them. */
  ghost predicate ClearedBy(cfg: VmConfig, seen: Inventory, h: HostMap) {
    && UniqueBdfs(seen) && Isolation.GateAccepts(cfg, seen) && PlanAccepts(cfg, seen)
    && (forall f :: f in seen && Configured(cfg, f.bdf) ==> f.bdf in h && h[f.bdf].SameDevice(f))
    && (forall b :: b in Isolation.Passthrough(cfg, seen) ==> b in h && h[b].OnVfio())
    && (EnforcesExclusivity(cfg) ==> Viable(cfg, seen, h))
  }

  /** From ReserveCpus to Steady the machine's devices are cleared by the scan `seen`. */
  ghost predicate Cleared(m: Machine, seen: Option<Inventory>) {
    ReserveCpus.Rank() <= m.state.Rank() <= Steady.Rank() ==> seen.Some? && ClearedBy(m.rt.cfg, seen.value, m.host)
  }

  /** The latest staging scan, after a bring-up step: the one that PreparePci makes first. */
  ghost function ScanAfter(env: Env, m: Machine, seen: Option<Inventory>): Option<Inventory> {
    if m.state == PreparePci then env.scan(m.host) else seen
  }

  lemma StagedClears(cfg: VmConfig, seen: Inventory, h0: HostMap)
    requires SnapshotOf(seen, h0) && Isolation.GateAccepts(cfg, seen) && PlanAccepts(cfg, seen)
    ensures var h := Staged(h0, Isolation.Passthrough(cfg, seen)); ClearedBy(cfg, seen, h) && SameDevices(h0, h)
  {
    Isolation.PresentInInventory(seen, cfg.devices.All());
    if EnforcesExclusivity(cfg) {
      StagedIsViable(cfg, seen, h0);
    }
  }

  lemma StagingClears(k: Kernel, env: Env, m: Machine)
    requires ValidHost(m.host) && StagedBy(k, env, m).1
    ensures var seen, h := env.scan(m.host), StagedBy(k, env, m).0.host;
      && seen.Some? && SnapshotOf(seen.value, m.host)
      && ClearedBy(m.rt.cfg, seen.value, h) && SameDevices(m.host, h)
  {
    var cfg, seen := m.rt.cfg, env.scan(m.host).value;
    Isolation.PresentInInventory(seen, cfg.devices.All());
    PlanRunOk(Isolation.Selected(cfg, seen), seen, k, Exec(m.host, m.writes, m.rt.transitions));
    StagedClears(cfg, seen, m.host);
  }

  lemma ClearedDepends(m: Machine, m1: Machine, seen: Option<Inventory>)
    requires Cleared(m, seen) && m1.host == m.host && m1.rt.cfg == m.rt.cfg
    requires || m1.state == m.state || m1.state.Rank() >= Shutdown.Rank() || m1.state.Rank() <= PreparePci.Rank()
             || ReserveCpus.Rank() <= m.state.Rank() <= Steady.Rank()
    ensures Cleared(m1, seen)
  {}

  /** A successful PreparePci step clears the devices by the scan it has just made; every
      other bring-up step keeps them cleared by the same scan. */
  lemma StepCleared(k: Kernel, env: Env, m: Machine, seen: Option<Inventory>)
    requires ValidHost(m.host) && Cleared(m, seen)
    ensures Cleared(StepOf(k, env, m).0, ScanAfter(env, m, seen))
  {
    StepHost(k, env, m);
    StepMovesByOne(k, env, m);
    if m.state == PreparePci {
      PrepareHost(k, env, m);
      if StepOf(k, env, m).1.None? {
        StagingClears(k, env, m);
      }
    } else {
      ClearedDepends(m, StepOf(k, env, m).0, seen);
    }
  }

  lemma LaterCleared(m: Machine, m1: Machine, seen: Option<Inventory>)
    requires Cleared(m, seen)
    requires || m1.state in {Shutdown, Cleanup, Idle}
             || (m1.state == m.state && m1.host == m.host && m1.rt.cfg == m.rt.cfg)
    ensures Cleared(m1, seen)
  {}

  lemma ShutdownCleared(k: Kernel, env: Env, m: Machine, seen: Option<Inventory>)
    requires Cleared(m, seen)
    ensures Cleared(ShutdownStepOf(k, env, m).0, seen)
  {
    ShutdownHost(k, env, m);
    ShutdownMoves(k, env, m);
    LaterCleared(m, ShutdownStepOf(k, env, m).0, seen);
  }

  /** No step makes a device appear, disappear or change anything but its driver. */
  lemma StepKeepsDevices(k: Kernel, env: Env, m: Machine)
    requires ValidHost(m.host)
    ensures SameDevices(m.host, StepOf(k, env, m).0.host)
  {
    StepHost(k, env, m);
    if m.state == PreparePci {
      StagingReach(k, env, m);
    }
  }

  lemma ShutdownKeepsDevices(k: Kernel, env: Env, m: Machine)
    ensures SameDevices(m.host, ShutdownStepOf(k, env, m).0.host)
  {
    ShutdownHost(k, env, m);
    if m.state == Shutdown && m.rt.transitions != [] && env.restoreScan(m.host).Some? {
      var inv := env.restoreScan(m.host).value;
      DevicesKept(Ordered(inv, m.rt.transitions), inv, k, Live, Progress(m.host, m.writes, []));
    }
  }

  // ---------- What clearance means on the host ----------

  /** Every function of the host is in the scan. */
  ghost predicate Covers(seen: Inventory, h: HostMap) {
    forall b :: b in h ==> FindByBdf(seen, b).Some?
  }

  ghost predicate DevicesReady(cfg: VmConfig, h: HostMap) {
    forall b :: b in h && Configured(cfg, b) ==> h[b].OnVfio()
  }

  /** Every function that shares a group with a configured device is on vfio-pci. */
  ghost predicate GroupsReady(cfg: VmConfig, h: HostMap) {
    forall b, c :: b in h && c in h && Configured(cfg, b) && SameGroup(h[b], h[c]) ==> h[c].OnVfio()
  }

  /** Group mates on the host that the scan saw. */
  ghost predicate SeenMatesReady(cfg: VmConfig, seen: Inventory, h: HostMap) {
    forall b, c :: b in h && c in h && b in Isolation.Passthrough(cfg, seen) && SameGroup(h[b], h[c]) ==>
      FindByBdf(seen, c).Some? ==> h[c].OnVfio()
  }

  /** Clearance, read on the host: the configured devices that the scan saw are on vfio-pci,
      and under enforced exclusivity so are their group mates that it saw. */
  lemma ClearedHost(cfg: VmConfig, seen: Inventory, h: HostMap)
    requires ValidHost(h) && ClearedBy(cfg, seen, h)
    ensures forall b :: b in h && Configured(cfg, b) && FindByBdf(seen, b).Some? ==> h[b].OnVfio()
    ensures Anchored(seen, h) && EnforcesExclusivity(cfg) ==> SeenMatesReady(cfg, seen, h)
  {
    forall b | b in h && Configured(cfg, b) && FindByBdf(seen, b).Some? ensures b in Isolation.Passthrough(cfg, seen) {
      var c :| c in cfg.devices.All() && c.address == b;
      PresentMember(seen, cfg.devices.All(), FindByBdf(seen, b).value);
    }
    if Anchored(seen, h) && EnforcesExclusivity(cfg) {
      forall b, c | b in h && c in h && b in Isolation.Passthrough(cfg, seen) && FindByBdf(seen, c).Some?
                    && SameGroup(h[b], h[c])
        ensures h[c].OnVfio()
      {
        Isolation.PresentInInventory(seen, cfg.devices.All());
        var f :| f in Isolation.Selected(cfg, seen) && f.bdf == b;
        assert SameGroup(f, FindByBdf(seen, c).value);
      }
    }
  }

  /** With a scan that missed nothing, that is every configured device of the host and, under
      enforced exclusivity, every function of the host in their groups. */
  lemma CoveredHostReady(cfg: VmConfig, seen: Inventory, h: HostMap)
    requires ValidHost(h) && ClearedBy(cfg, seen, h) && Anchored(seen, h) && Covers(seen, h)
    ensures DevicesReady(cfg, h) && (EnforcesExclusivity(cfg) ==> GroupsReady(cfg, h))
  {
    ClearedHost(cfg, seen, h);
    forall b | b in h && Configured(cfg, b) ensures b in Isolation.Passthrough(cfg, seen) {
      var c :| c in cfg.devices.All() && c.address == b;
      PresentMember(seen, cfg.devices.All(), FindByBdf(seen, b).value);
    }
  }

  // ---------- When every write succeeds ----------

  /** No write of a staging that this step makes is refused. */
  ghost predicate StagingUnrefused(k: Kernel, env: Env, m: Machine) {
    var seen := env.scan(m.host);
    seen.Some? && Isolation.GateAccepts(m.rt.cfg, seen.value) && PlanAccepts(m.rt.cfg, seen.value) ==>
      RunActions(PlanOf(Isolation.Selected(m.rt.cfg, seen.value)), seen.value, k,
                 Exec(m.host, m.writes, m.rt.transitions)).1
  }

  /** The restore sees every device that it has to move, and no write of it is refused. */
  ghost predicate RestoreReaches(k: Kernel, scan: Scanner, m: Machine) {
    && (forall t :: t in m.rt.transitions && Target(t).Some? ==>
          scan(m.host).Some? && FindByBdf(scan(m.host).value, t.bdf).Some?)
    && NoneFailed(Restored(k, scan, m).outcomes)
  }

  ghost predicate StepUnrefused(k: Kernel, env: Env, m: Machine) {
    m.state == PreparePci ==> StagingUnrefused(k, env, m)
  }

  ghost predicate ShutdownUnrefused(k: Kernel, env: Env, m: Machine) {
    m.state == Shutdown ==> RestoreReaches(k, env.restoreScan, m)
  }

  /** A kernel that refuses nothing. */
  ghost predicate Accepting(k: Kernel) {
    forall n, h, w :: k(n, h, w)
  }

  /** The scans never fail and miss nothing. */
  ghost predicate CompleteScans(scan: Scanner) {
    forall h: HostMap :: ValidHost(h) ==> scan(h).Some? && CompleteSnapshotOf(scan(h).value, h)
  }

  lemma {:induction false} CompleteScanOf(h: HostMap) returns (inv: Inventory)
    requires ValidHost(h)
    ensures CompleteSnapshotOf(inv, h)
    decreases |h|
  {
    if h == map[] {
      inv := [];
    } else {
      var b :| b in h;
      var rest := h - {b};
      assert h.Keys == rest.Keys + {b} && |rest.Keys| < |h.Keys|;
      var seen := CompleteScanOf(rest);
      inv := seen + [h[b]];
    }
  }

  lemma CompleteScanExists(h: HostMap)
    requires ValidHost(h)
    ensures exists inv :: CompleteSnapshotOf(inv, h)
  {
    var inv := CompleteScanOf(h);
  }

  ghost function FullScan(h: HostMap): (inv: Inventory)
    requires ValidHost(h)
    ensures CompleteSnapshotOf(inv, h)
  {
    CompleteScanExists(h);
    var inv :| CompleteSnapshotOf(inv, h);
    inv
  }

  /** Scanners that never fail and miss nothing exist. */
  lemma CompleteScansExist() returns (scan: Scanner)
    ensures CompleteScans(scan)
  {
    scan := (h: HostMap) => if ValidHost(h) then Some(FullScan(h)) else None;
  }

  /** The log is exact: one device, one record, of the driver it had in h0. */
  ghost predicate ExactLog(h0: HostMap, ts: seq<VfioTransition>) {
    forall t :: t in ts ==> t.bdf in h0 && t == RecordOf(h0[t.bdf]) && !h0[t.bdf].OnVfio()
  }

  /** The recorded devices are on vfio-pci, the others as in h0. */
  ghost predicate Tracked(h0: HostMap, m: Machine) {
    && ExactLog(h0, m.rt.transitions) && m.host.Keys == h0.Keys
    && forall b :: b in h0 ==> m.host[b] == if Named(m.rt.transitions, b) then h0[b].(driver := Some(VFIO)) else h0[b]
  }

  /** Every device is as in h0, but for those that had no driver and were staged. */
  ghost predicate BackHome(h0: HostMap, m: Machine) {
    && ExactLog(h0, m.rt.transitions) && m.host.Keys == h0.Keys
    && forall b :: b in h0 ==>
         m.host[b] == if Named(m.rt.transitions, b) && h0[b].driver.None? then h0[b].(driver := Some(VFIO)) else h0[b]
  }

  /** The host at each place of the lifecycle. A shutdown that failed after restoring is
      still in Shutdown. */
  ghost predicate OnItsWay(h0: HostMap, m: Machine) {
    if m.state == Shutdown then Tracked(h0, m) || BackHome(h0, m)
    else if m.state == Cleanup || m.state == Idle then BackHome(h0, m)
    else Tracked(h0, m)
  }

  lemma {:induction false} AcceptedRun(actions: seq<VfioAction>, inv: Inventory, k: Kernel, s: Exec)
    requires Accepting(k) && forall a :: a in actions ==> FindByBdf(inv, a.bdf).Some?
    ensures RunActions(actions, inv, k, s).1
  {
    if actions != [] {
      assert actions[0] in actions && forall a :: a in actions[1..] ==> a in actions;
      AcceptedRun(actions[1..], inv, k, RunAction(actions[0], inv, k, s).0);
    }
  }

  /** Under an accepting kernel no write of a staging is refused ... */
  lemma AcceptedStaging(k: Kernel, env: Env, m: Machine)
    requires Accepting(k)
    ensures StagingUnrefused(k, env, m)
  {
    var seen := env.scan(m.host);
    if seen.Some? {
      var inv, fs := seen.value, Isolation.Selected(m.rt.cfg, seen.value);
      Isolation.PresentInInventory(inv, m.rt.cfg.devices.All());
      forall a | a in PlanOf(fs) ensures FindByBdf(inv, a.bdf).Some? {
        if a in Unbinds(fs) {
          UnbindMember(fs, a);
        }
        var f :| f in fs && f.bdf == a.bdf;
        assert f in inv;
      }
      AcceptedRun(PlanOf(fs), inv, k, Exec(m.host, m.writes, m.rt.transitions));
    }
  }

  lemma {:induction false} AcceptedRestore(ts: seq<VfioTransition>, inv: Inventory, k: Kernel, p: Progress)
    requires Accepting(k) && NoneFailed(p.outcomes)
    ensures NoneFailed(RestoreAll(ts, inv, k, Live, p).outcomes)
  {
    if ts != [] {
      AcceptedRestore(ts[1..], inv, k, RestoreOne(ts[0], inv, k, Live, p));
    }
  }

  /** ... and with complete scans a restore reaches every recorded device of the host. */
  lemma AcceptedTeardown(k: Kernel, scan: Scanner, m: Machine)
    requires Accepting(k) && CompleteScans(scan) && ValidHost(m.host)
    requires forall t :: t in m.rt.transitions ==> t.bdf in m.host
    ensures RestoreReaches(k, scan, m)
  {
    var inv := scan(m.host).value;
    forall t | t in m.rt.transitions ensures FindByBdf(inv, t.bdf).Some? {
      SnapshotFinds(inv, m.host, t.bdf);
    }
    AcceptedRestore(Ordered(inv, m.rt.transitions), inv, k, Progress(m.host, m.writes, []));
  }

  /** A staging that gets past the gate and the planner, and none of whose writes is refused,
      puts all selected devices on vfio-pci, even if it fails afterwards. */
  lemma UnrefusedStaging(k: Kernel, env: Env, m: Machine)
    requires StagingUnrefused(k, env, m)
    ensures var s := StagedBy(k, env, m).0;
      || (s.host == m.host && s.log == m.rt.transitions)
      || (env.scan(m.host).Some? && var fs := Isolation.Selected(m.rt.cfg, env.scan(m.host).value);
          && FromSnapshot(fs, env.scan(m.host).value)
          && s.host == Staged(m.host, Isolation.Addresses(fs)) && s.log == m.rt.transitions + Records(fs))
  {
    var seen := env.scan(m.host);
    if seen.Some? && Isolation.GateAccepts(m.rt.cfg, seen.value) && PlanAccepts(m.rt.cfg, seen.value) {
      var inv, fs := seen.value, Isolation.Selected(m.rt.cfg, seen.value);
      Isolation.PresentInInventory(inv, m.rt.cfg.devices.All());
      PlanRunOk(fs, inv, k, Exec(m.host, m.writes, m.rt.transitions));
    }
  }

  lemma StagingTracked(h0: HostMap, m: Machine, inv: Inventory, fs: seq<PciFunction>)
    requires ValidHost(h0) && Tracked(h0, m) && SnapshotOf(inv, m.host) && FromSnapshot(fs, inv)
    ensures Tracked(h0,
                    m.(host := Staged(m.host, Isolation.Addresses(fs)),
                       rt := m.rt.(transitions := m.rt.transitions + Records(fs))))
  {
    var ts := m.rt.transitions + Records(fs);
    RecordsAre(fs);
    forall t | t in Records(fs)
      ensures t.bdf in h0 && t == RecordOf(h0[t.bdf]) && !h0[t.bdf].OnVfio() && t.bdf in Isolation.Addresses(fs)
    {
      var f :| f in fs && !f.OnVfio() && t == RecordOf(f);
      assert m.host[f.bdf] == f;
    }
    forall b | b in h0
      ensures Staged(m.host, Isolation.Addresses(fs))[b] == if Named(ts, b) then h0[b].(driver := Some(VFIO)) else h0[b]
    {
      assert Named(ts, b) <==> Named(m.rt.transitions, b) || Named(Records(fs), b);
      if b in Isolation.Addresses(fs) {
        var f :| f in fs && f.bdf == b;
        assert m.host[b] == f;
        if !f.OnVfio() {
          assert RecordOf(f) in Records(fs);
        }
      }
    }
  }

  lemma HomeDepends(h0: HostMap, m: Machine, m': Machine)
    requires m'.host == m.host && m'.rt.transitions == m.rt.transitions
    ensures BackHome(h0, m) <==> BackHome(h0, m')
    ensures Tracked(h0, m) <==> Tracked(h0, m')
  {}

  lemma StagedTracked(h0: HostMap, k: Kernel, env: Env, m: Machine)
    requires StagingUnrefused(k, env, m) && ValidHost(h0) && Tracked(h0, m)
    ensures var s := StagedBy(k, env, m).0; Tracked(h0, m.(host := s.host, rt := m.rt.(transitions := s.log)))
  {
    UnrefusedStaging(k, env, m);
    var s := StagedBy(k, env, m).0;
    if s.host == m.host && s.log == m.rt.transitions {
      HomeDepends(h0, m, m.(host := s.host, rt := m.rt.(transitions := s.log)));
    } else {
      var inv := env.scan(m.host).value;
      StagingTracked(h0, m, inv, Isolation.Selected(m.rt.cfg, inv));
    }
  }

  lemma StepTracked(h0: HostMap, k: Kernel, env: Env, m: Machine)
    requires StepUnrefused(k, env, m) && ValidHost(h0) && Tracked(h0, m)
    ensures Tracked(h0, StepOf(k, env, m).0)
  {
    StepHost(k, env, m);
    if m.state == PreparePci {
      StagedTracked(h0, k, env, m);
      var s := StagedBy(k, env, m).0;
      HomeDepends(h0, m.(host := s.host, rt := m.rt.(transitions := s.log)), StepOf(k, env, m).0);
    } else {
      HomeDepends(h0, m, StepOf(k, env, m).0);
    }
  }

  lemma StepStaysUp(k: Kernel, env: Env, m: Machine)
    ensures var m1 := StepOf(k, env, m).0; if m.state.BringUp() then m1.state.BringUp() else m1 == m
  {
    if m.state.BringUp() {
      WorkOwnFieldOnly(k, env, m.Push(System, Enter(m.state)));
    }
  }

  lemma StepOnItsWay(h0: HostMap, k: Kernel, env: Env, m: Machine)
    requires StepUnrefused(k, env, m) && ValidHost(h0) && OnItsWay(h0, m)
    ensures OnItsWay(h0, StepOf(k, env, m).0)
  {
    StepStaysUp(k, env, m);
    if m.state.BringUp() {
      StepTracked(h0, k, env, m);
    }
  }

  /** Restoring takes the tracked devices home, and does nothing to devices at home. */
  lemma RestoringGoesHome(h0: HostMap, k: Kernel, scan: Scanner, m: Machine)
    requires RestoreReaches(k, scan, m) && CleanHost(h0) && (Tracked(h0, m) || BackHome(h0, m))
    ensures BackHome(h0, m.(host := Restored(k, scan, m).host))
  {
    var ts, q := m.rt.transitions, Restored(k, scan, m);
    forall b | b in h0
      ensures b in q.host
      ensures q.host[b] == if Named(ts, b) && h0[b].driver.None? then h0[b].(driver := Some(VFIO)) else h0[b]
    {
      DeviceGoesHome(h0, k, scan, m, b);
    }
    RestoredKeys(k, scan, m);
  }

  lemma DeviceGoesHome(h0: HostMap, k: Kernel, scan: Scanner, m: Machine, b: string)
    requires RestoreReaches(k, scan, m) && CleanHost(h0) && (Tracked(h0, m) || BackHome(h0, m)) && b in h0
    ensures var q := Restored(k, scan, m);
      && b in q.host
      && q.host[b] ==
         if Named(m.rt.transitions, b) && h0[b].driver.None? then h0[b].(driver := Some(VFIO)) else h0[b]
  {
    var ts := m.rt.transitions;
    RecordsNameOnce(ts, h0, b);
    var d := Target(RecordOf(h0[b]));
    if ts != [] && scan(m.host).Some? {
      var inv := scan(m.host).value;
      SameElements(inv, ts);
      assert Named(Ordered(inv, ts), b) <==> Named(ts, b);
      LiveDevice(Ordered(inv, ts), inv, k, m.host, Progress(m.host, m.writes, []), Restored(k, scan, m), b,
                 if Named(ts, b) then d else None);
    }
  }

  /** OnItsWay after a shutdown step from m to m1, by what such a step can do. */
  lemma HomeBound(h0: HostMap, m: Machine, m1: Machine)
    requires OnItsWay(h0, m)
    requires if m.state == Shutdown then BackHome(h0, m1) && m1.state in {Shutdown, Cleanup}
             else m1.host == m.host && m1.rt.transitions == m.rt.transitions && m1.state in {m.state, Shutdown, Idle}
    requires m1.state == Idle ==> m.state in {Cleanup, Idle}
    requires m.state == Cleanup ==> m1.state == Idle
    requires m.state == Idle ==> m1.state == Idle
    ensures OnItsWay(h0, m1)
  {
    if m.state != Shutdown {
      HomeDepends(h0, m, m1);
    }
  }

  lemma ShutdownOnItsWay(h0: HostMap, k: Kernel, env: Env, m: Machine)
    requires ShutdownUnrefused(k, env, m) && CleanHost(h0) && OnItsWay(h0, m)
    ensures OnItsWay(h0, ShutdownStepOf(k, env, m).0)
  {
    ShutdownHost(k, env, m);
    ShutdownMoves(k, env, m);
    if m.state == Shutdown {
      RestoringGoesHome(h0, k, env.restoreScan, m);
      HomeDepends(h0, m.(host := Restored(k, env.restoreScan, m).host), ShutdownStepOf(k, env, m).0);
    }
    HomeBound(h0, m, ShutdownStepOf(k, env, m).0);
  }

  // ---------- When bound devices cannot be bound ----------

  /** Under a kernel that refuses to bind bound devices a restore moves none of them ... */
  lemma RestoredKeepsBound(k: Kernel, scan: Scanner, m: Machine)
    requires RefusesBound(k)
    ensures BoundKept(m.host, Restored(k, scan, m).host)
  {
    if m.rt.transitions != [] && scan(m.host).Some? {
      var inv := scan(m.host).value;
      BoundDevicesStayPut(Ordered(inv, m.rt.transitions), inv, k, m.host, Progress(m.host, m.writes, []));
    }
  }

  /** The devices on vfio-pci in h are so in h'. */
  ghost predicate VfioKept(h: HostMap, h': HostMap) {
    h'.Keys == h.Keys && forall b :: b in h && h[b].OnVfio() ==> h'[b] == h[b]
  }

  /** ... and since staging does not move a device that is on vfio-pci, no step does. */
  lemma StepKeepsVfio(k: Kernel, env: Env, m: Machine)
    requires ValidHost(m.host)
    ensures VfioKept(m.host, StepOf(k, env, m).0.host)
  {
    StepHost(k, env, m);
    if m.state == PreparePci {
      StagingReach(k, env, m);
    }
  }

  lemma ShutdownKeepsVfio(k: Kernel, env: Env, m: Machine)
    requires RefusesBound(k)
    ensures VfioKept(m.host, ShutdownStepOf(k, env, m).0.host)
  {
    ShutdownHost(k, env, m);
    RestoredKeepsBound(k, env.restoreScan, m);
  }
}
