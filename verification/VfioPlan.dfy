/** Planning: which unbind and bind actions stage a VM's devices for passthrough. */
module VfioPlan {
  import opened Prelude
  import opened Config
  import opened Pci
  import opened Isolation

  datatype ActionKind = UnbindFromCurrentDriver | BindToVfio

  datatype VfioAction = VfioAction(bdf: string, kind: ActionKind)

  /** The unbind actions for fs: one per function on a driver other than vfio-pci. */
  function Unbinds(fs: seq<PciFunction>): seq<VfioAction> {
    if fs == [] then []
    else (if fs[0].HostBound() then [VfioAction(fs[0].bdf, UnbindFromCurrentDriver)] else []) + Unbinds(fs[1..])
  }

  /** The bind actions for fs: one per function. */
  function Binds(fs: seq<PciFunction>): seq<VfioAction> {
    seq(|fs|, i requires 0 <= i < |fs| => VfioAction(fs[i].bdf, BindToVfio))
  }

  /** The plan for the selected functions: every unbind precedes every bind. */
  function PlanOf(fs: seq<PciFunction>): seq<VfioAction> {
    Unbinds(fs) + Binds(fs)
  }

  ghost predicate GpuEntryOk(inv: Inventory, f: PciFunction) {
    if f.IsDisplayController() then f.OnVfio() else InGpuComplex(inv, f.bdf)
  }

  ghost predicate NoneForbidden(cfgs: seq<DeviceCfg>) {
    forall c :: c in cfgs ==> c.level != Some(Forbidden)
  }

  /** When planning succeeds. A display controller must already be on vfio-pci: with a
      GPU driver it is Risky to unbind, and without a group Unsafe. */
  ghost predicate PlanAccepts(cfg: VmConfig, inv: Inventory) {
    && AllRequiredPresent(cfg, inv)
    && (forall f :: f in Present(inv, cfg.devices.gpu) ==> GpuEntryOk(inv, f))
    && NoneForbidden(cfg.devices.nvme) && NoneForbidden(cfg.devices.nic) && NoneForbidden(cfg.devices.usb)
  }

  lemma {:induction false} UnbindsAppend(a: seq<PciFunction>, b: seq<PciFunction>)
    ensures Unbinds(a + b) == Unbinds(a) + Unbinds(b)
  {
    if a == [] {
      assert a + b == b;
    } else {
      assert (a + b)[1..] == a[1..] + b;
      UnbindsAppend(a[1..], b);
    }
  }

  lemma {:induction false} UnbindMember(fs: seq<PciFunction>, a: VfioAction)
    ensures a in Unbinds(fs) <==>
      a.kind == UnbindFromCurrentDriver && exists f :: f in fs && f.HostBound() && a.bdf == f.bdf
  {
    if fs != [] {
      UnbindMember(fs[1..], a);
      assert fs == [fs[0]] + fs[1..];
    }
  }

  /** Queue the actions of one function at the end of both lists. */
  method AppendActions(f: PciFunction, unbinds: seq<VfioAction>, binds: seq<VfioAction>, ghost done: seq<PciFunction>)
      returns (unbinds': seq<VfioAction>, binds': seq<VfioAction>)
    requires unbinds == Unbinds(done) && binds == Binds(done)
    ensures unbinds' == Unbinds(done + [f]) && binds' == Binds(done + [f])
  {
    UnbindsAppend(done, [f]);
    unbinds' := unbinds;
    if f.driver.Some? {
      if f.driver.value != VFIO {
        unbinds' := unbinds' + [VfioAction(f.bdf, UnbindFromCurrentDriver)];
      }
    }
    binds' := binds + [VfioAction(f.bdf, BindToVfio)];
  }

  ghost predicate GpuEntriesOk(inv: Inventory, fs: seq<PciFunction>) {
    forall f :: f in fs ==> GpuEntryOk(inv, f)
  }

  lemma GpuEntriesSnoc(inv: Inventory, fs: seq<PciFunction>, f: PciFunction)
    ensures GpuEntriesOk(inv, fs + [f]) <==> GpuEntriesOk(inv, fs) && GpuEntryOk(inv, f)
  {
    assert f in fs + [f];
  }

  method BuildGpuActions(cfg: VmConfig, inv: Inventory)
      returns (r: Result<(seq<VfioAction>, seq<VfioAction>), VfioError>)
    requires UniqueBdfs(inv)
    ensures r.Ok? <==> RequiredPresent(inv, cfg.devices.gpu)
                       && forall f :: f in Present(inv, cfg.devices.gpu) ==> GpuEntryOk(inv, f)
    ensures r.Ok? ==> r.value == (Unbinds(Present(inv, cfg.devices.gpu)), Binds(Present(inv, cfg.devices.gpu)))
    ensures r.Err? && r.error.UnsafeGpu? ==> exists f :: f in inv && f.bdf == r.error.bdf && f.iommuGroup.None?
  {
    var resolved := ResolveConfigured(inv, cfg.devices.gpu);
    if resolved.Err? {
      return Err(resolved.error);
    }
    var funcs := resolved.value;
    PresentInInventory(inv, cfg.devices.gpu);
    var assessments := AssessGpuUnbindSafety(inv);
    var byBdf := IndexAssessments(inv, assessments);
    var unbinds: seq<VfioAction>, binds: seq<VfioAction> := [], [];
    for i := 0 to |funcs|
      invariant unbinds == Unbinds(funcs[..i]) && binds == Binds(funcs[..i])
      invariant GpuEntriesOk(inv, funcs[..i])
    {
      assert funcs[..i + 1] == funcs[..i] + [funcs[i]];
      GpuEntriesSnoc(inv, funcs[..i], funcs[i]);
      var error := CheckGpuEntry(inv, funcs[i], byBdf);
      if error.Some? {
        return Err(error.value);
      }
      unbinds, binds := AppendActions(funcs[i], unbinds, binds, funcs[..i]);
    }
    assert funcs[..|funcs|] == funcs;
    return Ok((unbinds, binds));
  }

  method CheckGpuEntry(inv: Inventory, f: PciFunction, byBdf: map<string, Assessment>)
      returns (error: Option<VfioError>)
    requires UniqueBdfs(inv) && f in inv && Indexed(inv, Gpus(inv), |Gpus(inv)|, byBdf)
    ensures error.None? <==> GpuEntryOk(inv, f)
    ensures error.Some? && error.value.UnsafeGpu? ==> f.bdf == error.value.bdf && f.iommuGroup.None?
  {
    if f.IsDisplayController() {
      IndexedAt(inv, f, byBdf);
      var a := byBdf[f.bdf];
      if a.feasibility == Risky {
        return Some(RiskyGpu(f.bdf));
      }
      if a.feasibility == Unsafe {
        return Some(UnsafeGpu(f.bdf));
      }
      return None;
    }
    var member := IsBdfInGpuComplex(inv, f.bdf);
    return if member then None else Some(NotInGpuComplex(f.bdf));
  }

  method IndexAssessments(inv: Inventory, assessments: seq<Assessment>) returns (byBdf: map<string, Assessment>)
    requires UniqueBdfs(inv) && AssessmentsOf(inv, assessments)
    ensures Indexed(inv, Gpus(inv), |Gpus(inv)|, byBdf)
  {
    ghost var gpus := Gpus(inv);
    byBdf := map[];
    for i := 0 to |assessments|
      invariant Indexed(inv, gpus, i, byBdf)
    {
      AssessmentAt(inv, assessments, i);
      IndexNext(inv, gpus, i, byBdf, assessments[i]);
      byBdf := byBdf[assessments[i].bdf := assessments[i]];
    }
  }

  /** The first n GPUs have their assessments in the index. */
  ghost predicate Indexed(inv: Inventory, gpus: seq<PciFunction>, n: nat, byBdf: map<string, Assessment>) {
    && n <= |gpus|
    && forall i :: 0 <= i < n ==>
         gpus[i] in inv && gpus[i].bdf in byBdf && IsAssessmentOf(inv, gpus[i], byBdf[gpus[i].bdf])
  }

  lemma AssessmentAt(inv: Inventory, assessments: seq<Assessment>, i: nat)
    requires AssessmentsOf(inv, assessments) && i < |assessments|
    ensures Gpus(inv)[i] in inv && IsAssessmentOf(inv, Gpus(inv)[i], assessments[i])
  {
    GpusAre(inv);
    assert Gpus(inv)[i] in Gpus(inv);
  }

  lemma IndexedAt(inv: Inventory, f: PciFunction, byBdf: map<string, Assessment>)
    requires Indexed(inv, Gpus(inv), |Gpus(inv)|, byBdf) && f in inv && f.IsDisplayController()
    ensures f.bdf in byBdf && IsAssessmentOf(inv, f, byBdf[f.bdf])
  {
    GpusAre(inv);
    var n :| 0 <= n < |Gpus(inv)| && Gpus(inv)[n] == f;
  }

  lemma IndexNext(inv: Inventory, gpus: seq<PciFunction>, n: nat, byBdf: map<string, Assessment>, a: Assessment)
    requires UniqueBdfs(inv) && Indexed(inv, gpus, n, byBdf)
    requires n < |gpus| && gpus[n] in inv && IsAssessmentOf(inv, gpus[n], a)
    ensures Indexed(inv, gpus, n + 1, byBdf[a.bdf := a])
  {
    forall i | 0 <= i < n && gpus[i].bdf == a.bdf ensures gpus[i] == gpus[n] {
      SameBdfSameFunction(inv, gpus[i], gpus[n]);
    }
  }

  method StageDeviceList(cfgs: seq<DeviceCfg>, inv: Inventory, unbinds: seq<VfioAction>, binds: seq<VfioAction>,
                         ghost done: seq<PciFunction>)
      returns (r: Result<(seq<VfioAction>, seq<VfioAction>), VfioError>)
    requires unbinds == Unbinds(done) && binds == Binds(done)
    ensures r.Ok? <==> NoneForbidden(cfgs) && RequiredPresent(inv, cfgs)
    ensures r.Ok? ==> r.value == (Unbinds(done + Present(inv, cfgs)), Binds(done + Present(inv, cfgs)))
    ensures r.Err? && r.error.MissingDevice? ==> NoneForbidden(cfgs)
  {
    var forbidden := FirstForbidden(cfgs);
    if forbidden.Some? {
      return Err(ForbiddenDevice(forbidden.value));
    }
    var resolved := ResolveConfigured(inv, cfgs);
    if resolved.Err? {
      return Err(resolved.error);
    }
    var us, bs := AppendAll(resolved.value, unbinds, binds, done);
    return Ok((us, bs));
  }

  method FirstForbidden(cfgs: seq<DeviceCfg>) returns (address: Option<string>)
    ensures address.None? <==> NoneForbidden(cfgs)
  {
    for i := 0 to |cfgs|
      invariant NoneForbidden(cfgs[..i])
    {
      assert cfgs[..i + 1] == cfgs[..i] + [cfgs[i]];
      if cfgs[i].level == Some(Forbidden) {
        return Some(cfgs[i].address);
      }
    }
    assert cfgs[..|cfgs|] == cfgs;
    return None;
  }

  method AppendAll(funcs: seq<PciFunction>, unbinds: seq<VfioAction>, binds: seq<VfioAction>,
                   ghost done: seq<PciFunction>)
      returns (us: seq<VfioAction>, bs: seq<VfioAction>)
    requires unbinds == Unbinds(done) && binds == Binds(done)
    ensures us == Unbinds(done + funcs) && bs == Binds(done + funcs)
  {
    us, bs := unbinds, binds;
    assert done + funcs[..0] == done;
    for i := 0 to |funcs|
      invariant us == Unbinds(done + funcs[..i]) && bs == Binds(done + funcs[..i])
    {
      us, bs := AppendActions(funcs[i], us, bs, done + funcs[..i]);
      assert done + funcs[..i] + [funcs[i]] == done + funcs[..i + 1];
    }
    assert funcs[..|funcs|] == funcs;
  }

  method BuildPlan(cfg: VmConfig, inv: Inventory) returns (r: Result<seq<VfioAction>, VfioError>)
    requires UniqueBdfs(inv)
    ensures r.Ok? <==> PlanAccepts(cfg, inv)
    ensures r.Ok? ==> r.value == PlanOf(Selected(cfg, inv))
  {
    SelectedByList(cfg, inv);
    var d := cfg.devices;
    ghost var gs := Present(inv, d.gpu);
    var gpu := BuildGpuActions(cfg, inv);
    if gpu.Err? {
      return Err(gpu.error);
    }
    var nvme := StageDeviceList(d.nvme, inv, gpu.value.0, gpu.value.1, gs);
    if nvme.Err? {
      return Err(nvme.error);
    }
    var nic := StageDeviceList(d.nic, inv, nvme.value.0, nvme.value.1, gs + Present(inv, d.nvme));
    if nic.Err? {
      return Err(nic.error);
    }
    var usb := StageDeviceList(d.usb, inv, nic.value.0, nic.value.1, gs + Present(inv, d.nvme) + Present(inv, d.nic));
    if usb.Err? {
      return Err(usb.error);
    }
    return Ok(usb.value.0 + usb.value.1);
  }

  /** A plan that builds never unbinds a display controller listed under devices.gpu,
      even if another list names it too. */
  lemma GpuNeverUnbound(cfg: VmConfig, inv: Inventory, c: DeviceCfg, gpu: PciFunction)
    requires UniqueBdfs(inv) && PlanAccepts(cfg, inv)
    requires c in cfg.devices.gpu && FindByBdf(inv, c.address) == Some(gpu) && gpu.IsDisplayController()
    ensures VfioAction(gpu.bdf, UnbindFromCurrentDriver) !in PlanOf(Selected(cfg, inv))
  {
    PresentMember(inv, cfg.devices.gpu, gpu);
    var fs := Selected(cfg, inv);
    PresentInInventory(inv, cfg.devices.All());
    UnbindMember(fs, VfioAction(gpu.bdf, UnbindFromCurrentDriver));
    forall f | f in fs && f.bdf == gpu.bdf ensures f == gpu {
      SameBdfSameFunction(inv, f, gpu);
    }
  }
}
