/** Staging a VM's PCI devices: scan, gate, plan, execute, verify. */
module VfioStaging {
  import opened Prelude
  import opened Config
  import opened Pci
  import opened Isolation
  import opened VfioPlan
  import opened VfioExecute
  import opened VfioVerify
  import opened VfioRestore

  /** Every group that the scan shows to contain a passthrough function is wholly on vfio-pci. */
  ghost predicate Viable(cfg: VmConfig, seen: Inventory, h: HostMap) {
    forall f, g :: f in seen && g in seen && SameGroup(f, g) && f.bdf in Passthrough(cfg, seen) ==>
      g.bdf in h && h[g.bdf].OnVfio()
  }

  /** The two scans of a staging, given what they return: the state afterwards, and whether
      staging succeeds. */
  ghost function StageRun(cfg: VmConfig, seen: Option<Inventory>, reseen: Option<Inventory>, k: Kernel, s: Exec)
      : (r: (Exec, bool))
  {
    if seen.None? || !GateAccepts(cfg, seen.value) || !PlanAccepts(cfg, seen.value) then (s, false)
    else
      var (s1, ok) := RunActions(PlanOf(Selected(cfg, seen.value)), seen.value, k, s);
      (s1, ok && reseen.Some? && VerifyAccepts(cfg, reseen.value))
  }

  /** Staging succeeds if and only if the first scan passes gate and planner, every write of
      the plan is accepted, and the second scan then sees every required device, and every
      configured one that it sees at all on vfio-pci, with no stray function among the GPUs;
      and if gate or planner refuse, it changes nothing. */
  lemma StagingSucceedsIff(cfg: VmConfig, seen: Inventory, reseen: Inventory, k: Kernel, s: Exec)
    ensures var (s1, ok) := StageRun(cfg, Some(seen), Some(reseen), k, s);
      && (ok <==>
          && GateAccepts(cfg, seen) && PlanAccepts(cfg, seen) && RunActions(PlanOf(Selected(cfg, seen)), seen, k, s).1
          && (forall c :: c in cfg.devices.All() && c.required ==> FindByBdf(reseen, c.address).Some?)
          && (forall c :: c in cfg.devices.All() && FindByBdf(reseen, c.address).Some? ==>
                FindByBdf(reseen, c.address).value.OnVfio())
          && (forall c :: c in cfg.devices.gpu && FindByBdf(reseen, c.address).Some? ==>
                FindByBdf(reseen, c.address).value.IsDisplayController() || InGpuComplex(reseen, c.address)))
      && (!GateAccepts(cfg, seen) || !PlanAccepts(cfg, seen) ==> s1 == s)
    ensures !StageRun(cfg, None, Some(reseen), k, s).1 && !StageRun(cfg, Some(seen), None, k, s).1
  {
    forall f ensures f in Selected(cfg, reseen) <==>
      exists c :: c in cfg.devices.All() && FindByBdf(reseen, c.address) == Some(f)
    {
      PresentMember(reseen, cfg.devices.All(), f);
    }
    forall f ensures f in Present(reseen, cfg.devices.gpu) <==>
      exists c :: c in cfg.devices.gpu && FindByBdf(reseen, c.address) == Some(f)
    {
      PresentMember(reseen, cfg.devices.gpu, f);
    }
  }

  lemma StagedIsViable(cfg: VmConfig, seen: Inventory, h0: HostMap)
    requires SnapshotOf(seen, h0) && GateAccepts(cfg, seen) && EnforcesExclusivity(cfg)
    ensures Viable(cfg, seen, Staged(h0, Passthrough(cfg, seen)))
  {}

  // ---------- Viability on the host itself ----------

  ghost predicate EnforcesExclusivity(cfg: VmConfig) {
    cfg.isolation.mode == Enforce && cfg.isolation.requireIommuExclusive
  }

  /** A function of the host that shares a group with a passthrough device. */
  ghost predicate GroupMate(cfg: VmConfig, seen: Inventory, h: HostMap, b: string) {
    b in h && exists f :: f in Selected(cfg, seen) && SameGroup(f, h[b])
  }

  /** What staging means for every group mate on the host, seen or not: it ends on vfio-pci
      if and only if the scan saw it or it was there already. */
  ghost predicate MatesDecided(cfg: VmConfig, seen: Inventory, h0: HostMap, h: HostMap) {
    forall b :: GroupMate(cfg, seen, h0, b) ==>
      b in h && (h[b].OnVfio() <==> FindByBdf(seen, b).Some? || h0[b].OnVfio())
  }

  lemma StagedMatesDecided(cfg: VmConfig, seen: Inventory, h0: HostMap)
    requires SnapshotOf(seen, h0) && GateAccepts(cfg, seen) && EnforcesExclusivity(cfg)
    ensures MatesDecided(cfg, seen, h0, Staged(h0, Passthrough(cfg, seen)))
  {
    var pt := Passthrough(cfg, seen);
    forall b | GroupMate(cfg, seen, h0, b)
      ensures Staged(h0, pt)[b].OnVfio() <==> FindByBdf(seen, b).Some? || h0[b].OnVfio()
    {
      var f :| f in Selected(cfg, seen) && SameGroup(f, h0[b]);
      PresentInInventory(seen, cfg.devices.All());
      SnapshotFinds(seen, h0, b);
      if FindByBdf(seen, b).Some? {
        assert GroupsExclusive(seen, pt) && f.bdf in pt && h0[b] in seen;
      } else {
        assert b !in pt;
      }
    }
  }

  /** The groups of the passthrough devices are wholly on vfio-pci, on the host. */
  ghost predicate HostViable(cfg: VmConfig, seen: Inventory, h: HostMap) {
    forall b :: GroupMate(cfg, seen, h, b) ==> h[b].OnVfio()
  }

  /** Viability of the host, exactly: it holds after a staging run if and only if every group
      mate that the scan missed was on vfio-pci beforehand. */
  lemma HostViableIff(cfg: VmConfig, seen: Inventory, k: Kernel, s: Exec)
    requires SnapshotOf(seen, s.host) && GateAccepts(cfg, seen) && EnforcesExclusivity(cfg)
    requires RunActions(PlanOf(Selected(cfg, seen)), seen, k, s).1
    ensures var h := RunActions(PlanOf(Selected(cfg, seen)), seen, k, s).0.host;
      && MatesDecided(cfg, seen, s.host, h)
      && (HostViable(cfg, seen, h) <==>
          forall b :: GroupMate(cfg, seen, s.host, b) && FindByBdf(seen, b).None? ==> s.host[b].OnVfio())
  {
    PresentInInventory(seen, cfg.devices.All());
    PlanRunOk(Selected(cfg, seen), seen, k, s);
    StagedMatesDecided(cfg, seen, s.host);
    MatesKept(cfg, seen, s.host, Staged(s.host, Passthrough(cfg, seen)));
  }

  /** Group mates do not depend on drivers. */
  lemma MatesKept(cfg: VmConfig, seen: Inventory, h0: HostMap, h: HostMap)
    requires h.Keys == h0.Keys && forall b :: b in h0 ==> h[b].SameDevice(h0[b])
    ensures forall b :: GroupMate(cfg, seen, h0, b) <==> GroupMate(cfg, seen, h, b)
  {}

  // ---------- When staging succeeds ----------

  lemma {:induction false} DistinctPresent(inv: Inventory, cfgs: seq<DeviceCfg>)
    requires UniqueBdfs(inv) && forall i, j :: 0 <= i < j < |cfgs| ==> cfgs[i].address != cfgs[j].address
    ensures NoRepeat(Present(inv, cfgs))
  {
    if cfgs != [] {
      DistinctPresent(inv, cfgs[1..]);
      var found, rest := FindByBdf(inv, cfgs[0].address), Present(inv, cfgs[1..]);
      if found.Some? {
        forall f | f in rest ensures f.bdf != found.value.bdf {
          PresentMember(inv, cfgs[1..], f);
          var c :| c in cfgs[1..] && FindByBdf(inv, c.address) == Some(f);
          var j :| 0 <= j < |cfgs[1..]| && cfgs[1..][j] == c;
          assert cfgs[j + 1].address == f.bdf;
        }
        assert Present(inv, cfgs) == [found.value] + rest;
      } else {
        assert Present(inv, cfgs) == rest;
      }
    }
  }

  /** On a kernel that accepts exactly the writes that fit, with complete scans, staging
      succeeds if and only if gate and planner accept and no device off vfio-pci is
      configured twice; with distinct addresses that leaves gate and planner. */
  lemma HonestStagingIff(cfg: VmConfig, seen: Inventory, reseen: Inventory, k: Kernel, s: Exec)
    requires Honest(k) && ValidHost(s.host) && CompleteSnapshotOf(seen, s.host)
    requires CompleteSnapshotOf(reseen, StageRun(cfg, Some(seen), Some(reseen), k, s).0.host)
    ensures StageRun(cfg, Some(seen), Some(reseen), k, s).1 <==>
            GateAccepts(cfg, seen) && PlanAccepts(cfg, seen) && NoRepeat(Selected(cfg, seen))
    ensures (forall i, j :: 0 <= i < j < |cfg.devices.All()| ==>
               cfg.devices.All()[i].address != cfg.devices.All()[j].address) ==> NoRepeat(Selected(cfg, seen))
  {
    if GateAccepts(cfg, seen) && PlanAccepts(cfg, seen) {
      PresentInInventory(seen, cfg.devices.All());
      HonestPlanSucceedsIff(Selected(cfg, seen), seen, k, s);
      if RunActions(PlanOf(Selected(cfg, seen)), seen, k, s).1 {
        PlanExecuteVerifyAgree(cfg, seen, k, s, reseen);
      }
    }
    if forall i, j :: 0 <= i < j < |cfg.devices.All()| ==>
         cfg.devices.All()[i].address != cfg.devices.All()[j].address {
      DistinctPresent(seen, cfg.devices.All());
    }
  }

  // ---------- The staging itself ----------

  /** However staging ends, the write-ahead invariant ties the log to the host. A rejection
      by the gate or the planner happens before any write. On success exactly the selected
      devices are on vfio-pci, the log names those that were elsewhere, and under enforced
      exclusivity every passthrough group is viable. */
  method StagePciDevices(cfg: VmConfig, host: Host, transitions: seq<VfioTransition>)
      returns (r: Result<(), VfioError>, transitions': seq<VfioTransition>,
               ghost seen: Option<Inventory>, ghost reseen: Option<Inventory>)
    requires ValidHost(host.functions)
    modifies host
    ensures transitions <= transitions'
    ensures WriteAhead(old(host.functions), |transitions|, Exec(host.functions, host.writes, transitions'))
    ensures seen.Some? ==> SnapshotOf(seen.value, old(host.functions))
    ensures reseen.Some? ==> SnapshotOf(reseen.value, host.functions)
    ensures (Exec(host.functions, host.writes, transitions'), r.Ok?)
            == StageRun(cfg, seen, reseen, host.kernel, Exec(old(host.functions), old(host.writes), transitions))
    ensures seen.None? || !GateAccepts(cfg, seen.value) || !PlanAccepts(cfg, seen.value) ==>
      r.Err? && host.functions == old(host.functions) && host.writes == old(host.writes) && transitions' == transitions
    ensures r.Ok? ==> seen.Some?
    ensures r.Ok? ==> host.functions == Staged(old(host.functions), Passthrough(cfg, seen.value))
    ensures r.Ok? ==> transitions' == transitions + Records(Selected(cfg, seen.value))
    ensures r.Ok? && EnforcesExclusivity(cfg) ==> Viable(cfg, seen.value, host.functions)
    ensures r.Ok? && EnforcesExclusivity(cfg) ==> MatesDecided(cfg, seen.value, old(host.functions), host.functions)
  {
    transitions', seen, reseen := transitions, None, None;
    var scanned := host.Scan();
    if scanned.None? {
      return Err(ScanFailed), transitions', seen, reseen;
    }
    var inv := scanned.value;
    seen := Some(inv);
    r := EvaluateIsolation(cfg, inv);
    if r.Err? {
      return;
    }
    var plan := BuildPlan(cfg, inv);
    if plan.Err? {
      r := Err(plan.error);
      return;
    }
    ghost var start := Exec(host.functions, host.writes, transitions);
    PresentInInventory(inv, cfg.devices.All());
    RunKeepsWriteAhead(plan.value, inv, host.kernel, host.functions, |transitions|, start);
    r, transitions' := ExecutePlan(plan.value, inv, host, transitions);
    if r.Err? {
      return;
    }
    PlanRunOk(Selected(cfg, inv), inv, host.kernel, start);
    if EnforcesExclusivity(cfg) {
      StagedIsViable(cfg, inv, start.host);
      StagedMatesDecided(cfg, inv, start.host);
    }
    var rescanned := host.Scan();
    if rescanned.None? {
      r := Err(ScanFailed);
      return;
    }
    reseen := rescanned;
    r := VerifyWithInventory(cfg, rescanned.value);
  }

  /** A retry forgets: if an aborted staging left device b unbound and unrecorded, then no
      later staging, however it ends, and no live restore without failures bring b back to
      the driver it had. */
  lemma RetryForgetsDriver(s1: Exec, b: string, actions: seq<VfioAction>, inv: Inventory, k: Kernel, s2: Exec,
                           inv2: Inventory, k2: Kernel, q: Progress)
    requires ValidHost(s1.host) && SnapshotOf(inv, s1.host)
    requires b in s1.host && s1.host[b].driver == None && forall t :: t in s1.log ==> t.bdf != b
    requires s2 == RunActions(actions, inv, k, s1).0 && SnapshotOf(inv2, s2.host)
    requires q == RestoreAll(Ordered(inv2, s2.log), inv2, k2, Live, Progress(s2.host, s2.writes, []))
    requires NoneFailed(q.outcomes)
    ensures b in q.host && !q.host[b].HostBound()
  {
    RunKeepsWriteAhead(actions, inv, k, s1.host, |s1.log|, s1);
    assert s1.host[b].driver == None && s2.host[b].driver in {None, Some(VFIO)};
    var ts := Ordered(inv2, s2.log);
    SameElements(inv2, s2.log);
    forall t | t in ts && t.bdf == b ensures Target(t) == None {
      assert s2.log == s1.log + s2.log[|s1.log|..];
      assert t in s2.log[|s1.log|..];
    }
    LiveDevice(ts, inv2, k2, s2.host, Progress(s2.host, s2.writes, []), q, b, None);
  }
}
