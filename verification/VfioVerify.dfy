/** Verification of the bindings after staging, and its agreement with the other phases. */
module VfioVerify {
  import opened Prelude
  import opened Config
  import opened Pci
  import opened Isolation
  import opened VfioPlan
  import opened VfioExecute

  ghost predicate VerifyAccepts(cfg: VmConfig, inv: Inventory) {
    && AllRequiredPresent(cfg, inv)
    && (forall f :: f in Selected(cfg, inv) ==> f.OnVfio())
    && (forall f :: f in Present(inv, cfg.devices.gpu) ==> f.IsDisplayController() || InGpuComplex(inv, f.bdf))
  }

  method VerifySingleDevice(asGpu: bool, inv: Inventory, f: PciFunction) returns (r: Result<(), VfioError>)
    ensures r.Ok? <==> f.OnVfio() && (asGpu ==> f.IsDisplayController() || InGpuComplex(inv, f.bdf))
  {
    if asGpu {
      var member := IsBdfInGpuComplex(inv, f.bdf);
      if !f.IsDisplayController() && !member {
        return Err(NotInGpuComplex(f.bdf));
      }
    }
    if f.driver != Some(VFIO) {
      return Err(NotOnVfio(f.bdf, f.driver));
    }
    return Ok(());
  }

  method VerifyDeviceList(asGpu: bool, cfgs: seq<DeviceCfg>, inv: Inventory) returns (r: Result<(), VfioError>)
    ensures r.Ok? <==> RequiredPresent(inv, cfgs) && forall f :: f in Present(inv, cfgs) ==>
                         f.OnVfio() && (asGpu ==> f.IsDisplayController() || InGpuComplex(inv, f.bdf))
  {
    var resolved := ResolveConfigured(inv, cfgs);
    if resolved.Err? {
      return Err(resolved.error);
    }
    var funcs := resolved.value;
    for i := 0 to |funcs|
      invariant forall f :: f in funcs[..i] ==>
                  f.OnVfio() && (asGpu ==> f.IsDisplayController() || InGpuComplex(inv, f.bdf))
    {
      assert funcs[..i + 1] == funcs[..i] + [funcs[i]];
      r := VerifySingleDevice(asGpu, inv, funcs[i]);
      if r.Err? {
        assert funcs[i] in funcs;
        return;
      }
    }
    assert funcs[..|funcs|] == funcs;
    return Ok(());
  }

  method VerifyWithInventory(cfg: VmConfig, inv: Inventory) returns (r: Result<(), VfioError>)
    ensures r.Ok? <==> VerifyAccepts(cfg, inv)
  {
    SelectedByList(cfg, inv);
    r := VerifyDeviceList(true, cfg.devices.gpu, inv);
    if r.Err? { return; }
    r := VerifyDeviceList(false, cfg.devices.nvme, inv);
    if r.Err? { return; }
    r := VerifyDeviceList(false, cfg.devices.nic, inv);
    if r.Err? { return; }
    r := VerifyDeviceList(false, cfg.devices.usb, inv);
  }

  // ---------- Agreement between the phases ----------

  /** Both inventories list the same devices, each with whatever driver it has by then. */
  ghost predicate SameTopology(inv1: Inventory, inv2: Inventory) {
    UniqueBdfs(inv1) && UniqueBdfs(inv2) &&
    forall b :: Agree(FindByBdf(inv1, b), FindByBdf(inv2, b))
  }

  predicate Agree(a: Option<PciFunction>, b: Option<PciFunction>) {
    if a.None? then b.None? else b.Some? && b.value.SameDevice(a.value)
  }

  lemma TopologyMember(inv1: Inventory, inv2: Inventory, f: PciFunction) returns (g: PciFunction)
    requires SameTopology(inv1, inv2) && f in inv1
    ensures g in inv2 && g.SameDevice(f) && FindByBdf(inv2, f.bdf) == Some(g)
  {
    FindUnique(inv1, f);
    assert Agree(FindByBdf(inv1, f.bdf), FindByBdf(inv2, f.bdf));
    g := FindByBdf(inv2, f.bdf).value;
  }

  lemma TopologySelects(cfgs: seq<DeviceCfg>, inv1: Inventory, inv2: Inventory, f: PciFunction) returns (g: PciFunction)
    requires SameTopology(inv1, inv2) && f in Present(inv1, cfgs)
    ensures f in inv1 && g in Present(inv2, cfgs) && g in inv2 && g.SameDevice(f)
  {
    PresentInInventory(inv1, cfgs);
    g := TopologyMember(inv1, inv2, f);
    PresentMember(inv1, cfgs, f);
    PresentMember(inv2, cfgs, g);
  }

  lemma SameTopologySymmetric(inv1: Inventory, inv2: Inventory)
    requires SameTopology(inv1, inv2)
    ensures SameTopology(inv2, inv1)
  {
    forall b ensures Agree(FindByBdf(inv2, b), FindByBdf(inv1, b)) {
      assert Agree(FindByBdf(inv1, b), FindByBdf(inv2, b));
    }
  }

  /** Group viability, end to end: if the gate enforces group exclusivity on inv1 and
      verification accepts inv2, which lists the same devices with drivers that may have
      changed in any way, then in inv2 every member of every IOMMU group that contains a
      resolved passthrough device is bound to vfio-pci. */
  lemma GroupViability(cfg: VmConfig, inv1: Inventory, inv2: Inventory, f: PciFunction, g: PciFunction)
    requires cfg.isolation.mode == Enforce && cfg.isolation.requireIommuExclusive
    requires GateAccepts(cfg, inv1) && VerifyAccepts(cfg, inv2) && SameTopology(inv1, inv2)
    requires f in Selected(cfg, inv2) && g in inv2 && SameGroup(f, g)
    ensures g.OnVfio()
  {
    SameTopologySymmetric(inv1, inv2);
    var f1 := TopologySelects(cfg.devices.All(), inv2, inv1, f);
    var g1 := TopologyMember(inv2, inv1, g);
    assert f1.bdf in Passthrough(cfg, inv1);
    assert SameGroup(f1, g1) && g1.bdf in Passthrough(cfg, inv1);
    var s1 :| s1 in Selected(cfg, inv1) && s1.bdf == g1.bdf;
    var s2 := TopologySelects(cfg.devices.All(), inv1, inv2, s1);
    SameBdfSameFunction(inv2, g, s2);
  }

  /** Group viability needs a complete scan: the gate cannot see a group member whose
      sysfs directory was unreadable. */
  lemma HiddenMemberDefeatsGate() returns (cfg: VmConfig, inv: Inventory, h: HostMap, f: PciFunction, g: PciFunction)
    ensures cfg.isolation.mode == Enforce && cfg.isolation.requireIommuExclusive
    ensures SnapshotOf(inv, h) && GateAccepts(cfg, inv) && VerifyAccepts(cfg, inv)
    ensures f in Selected(cfg, inv) && g.bdf in h && h[g.bdf] == g && SameGroup(f, g) && !g.OnVfio()
  {
    f := PciFunction("0000:01:00.0", 0x020000, Some(VFIO), Some(7), None);
    g := PciFunction("0000:01:00.1", 0x020000, Some("e1000e"), Some(7), None);
    var nic := DeviceCfg("0000:01:00.0", true, None);
    cfg := VmConfig(Devices([], [], [nic], []), Policy(Enforce, Dedicated, true, true, true), None);
    inv, h := [f], map["0000:01:00.0" := f, "0000:01:00.1" := g];
    assert cfg.devices.All() == [nic];
    assert [nic][1..] == [];
    assert Present(inv, [nic]) == [f] + Present(inv, []);
    assert Selected(cfg, inv) == [f];
    assert Passthrough(cfg, inv) == {"0000:01:00.0"};
    assert ListContexts(inv, [], Dedicated) == [];
    assert ListContexts(inv, [nic], Dedicated) == [Context(f, Dedicated)];
    assert Contexts(cfg, inv) == [Context(f, Dedicated)];
    assert GpuSafety(f) == None;
    assert h["0000:01:00.1"] == g;
    assert GateAccepts(cfg, inv);
    assert VerifyAccepts(cfg, inv);
  }

  /** Plan, execution and verification agree: whenever a plan that builds runs to the end,
      under whatever kernel, verification accepts every complete scan of the result. */
  lemma PlanExecuteVerifyAgree(cfg: VmConfig, inv: Inventory, k: Kernel, s: Exec, inv2: Inventory)
    requires ValidHost(s.host) && CompleteSnapshotOf(inv, s.host) && PlanAccepts(cfg, inv)
    requires RunActions(PlanOf(Selected(cfg, inv)), inv, k, s).1
    requires CompleteSnapshotOf(inv2, RunActions(PlanOf(Selected(cfg, inv)), inv, k, s).0.host)
    ensures VerifyAccepts(cfg, inv2)
  {
    var fs := Selected(cfg, inv);
    PresentInInventory(inv, cfg.devices.All());
    PlanRunOk(fs, inv, k, s);
    var h := Staged(s.host, Addresses(fs));
    CompleteScansAgree(inv, s.host, inv2, h);
    SameTopologySymmetric(inv, inv2);
    forall c | c in cfg.devices.All() && c.required ensures FindByBdf(inv2, c.address).Some? {
      assert Agree(FindByBdf(inv, c.address), FindByBdf(inv2, c.address));
    }
    forall f2 | f2 in Selected(cfg, inv2) ensures f2.OnVfio() {
      var f := TopologySelects(cfg.devices.All(), inv2, inv, f2);
      assert h[f.bdf].OnVfio();
    }
    forall f2 | f2 in Present(inv2, cfg.devices.gpu)
      ensures f2.IsDisplayController() || InGpuComplex(inv2, f2.bdf)
    {
      var f := TopologySelects(cfg.devices.gpu, inv2, inv, f2);
      assert GpuEntryOk(inv, f);
      if !f.IsDisplayController() {
        ComplexKept(inv, inv2, f.bdf);
      }
    }
  }

  lemma CompleteScansAgree(inv: Inventory, h: HostMap, inv2: Inventory, h2: HostMap)
    requires ValidHost(h) && CompleteSnapshotOf(inv, h) && CompleteSnapshotOf(inv2, h2)
    requires h.Keys == h2.Keys && forall b :: b in h ==> h2[b].SameDevice(h[b])
    ensures SameTopology(inv, inv2)
  {
    forall b ensures Agree(FindByBdf(inv, b), FindByBdf(inv2, b)) {
      SnapshotFinds(inv, h, b);
      SnapshotFinds(inv2, h2, b);
    }
  }

  lemma ComplexKept(inv: Inventory, inv2: Inventory, b: string)
    requires SameTopology(inv, inv2) && InGpuComplex(inv, b)
    ensures InGpuComplex(inv2, b)
  {
    var f, g :| f in inv && g in inv && f.bdf == b && SameSlot(f, g) && g.IsDisplayController();
    var f2 := TopologyMember(inv, inv2, f);
    var g2 := TopologyMember(inv, inv2, g);
    assert SameSlot(f2, g2);
  }
}
