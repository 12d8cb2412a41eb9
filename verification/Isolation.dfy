/** The device isolation gate that runs before any driver binding is touched. */
module Isolation {
  import opened Prelude
  import opened Config
  import opened Pci

  datatype Severity = Info | Warning | Violation

  datatype Code =
    | GroupExclusive
    | GroupNotExclusive
    | MixedSlot
    | HostGpuInGroup
    | HostGpuOnly
    | DeviceForbidden
    | DedicatedNoGroup
    | DedicatedGroupUnknown
    | DedicatedExclusive
    | DedicatedNotExclusive
    | NumaUnknown
    | NumaNegative
    | NumaMismatch

  datatype Finding = Finding(severity: Severity, code: Code, device: Option<string>, group: Option<nat>)

  predicate HasViolations(findings: seq<Finding>) {
    exists f :: f in findings && f.severity == Violation
  }

  // ---------- Declarative rules ----------

  /** All configured devices that the inventory resolves, list by list. */
  function Selected(cfg: VmConfig, inv: Inventory): seq<PciFunction> {
    Present(inv, cfg.devices.All())
  }

  function Addresses(fs: seq<PciFunction>): set<string> {
    set f | f in fs :: f.bdf
  }

  function Passthrough(cfg: VmConfig, inv: Inventory): set<string> {
    Addresses(Selected(cfg, inv))
  }

  ghost predicate AllRequiredPresent(cfg: VmConfig, inv: Inventory) {
    RequiredPresent(inv, cfg.devices.All())
  }

  /** No IOMMU group mixes passthrough and other functions. */
  ghost predicate GroupsExclusive(inv: Inventory, pt: set<string>) {
    forall f, g :: f in inv && g in inv && SameGroup(f, g) && f.bdf in pt ==> g.bdf in pt
  }

  /** The functions of one slot are passed through together or not at all. */
  ghost predicate SlotsConsistent(inv: Inventory, pt: set<string>) {
    forall f, g :: f in inv && g in inv && SameSlot(f, g) && f.bdf in pt ==> g.bdf in pt
  }

  predicate HostOwnedGpu(f: PciFunction) {
    GpuSafety(f) == Some(HostOwned)
  }

  /** No host-owned GPU shares a group with a passthrough function. */
  ghost predicate NoHostGpuInGroups(inv: Inventory, pt: set<string>) {
    forall f, g :: f in inv && g in inv && SameGroup(f, g) && f.bdf in pt ==> !HostOwnedGpu(g)
  }

  datatype Context = Context(func: PciFunction, level: IsolationLevel)

  // When an address is listed twice, the last entry decides its level.
  function LevelFor(cfgs: seq<DeviceCfg>, bdf: string, default: IsolationLevel): IsolationLevel {
    if cfgs == [] then default
    else
      var last := cfgs[|cfgs| - 1];
      if last.address == bdf then (if last.level.Some? then last.level.value else default)
      else LevelFor(cfgs[..|cfgs| - 1], bdf, default)
  }

  function ContextsOf(funcs: seq<PciFunction>, cfgs: seq<DeviceCfg>, default: IsolationLevel): seq<Context> {
    seq(|funcs|, i requires 0 <= i < |funcs| => Context(funcs[i], LevelFor(cfgs, funcs[i].bdf, default)))
  }

  function ListContexts(inv: Inventory, cfgs: seq<DeviceCfg>, default: IsolationLevel): seq<Context> {
    ContextsOf(Present(inv, cfgs), cfgs, default)
  }

  function Contexts(cfg: VmConfig, inv: Inventory): seq<Context> {
    var d := cfg.isolation.defaultLevel;
    ListContexts(inv, cfg.devices.gpu, d) + ListContexts(inv, cfg.devices.nvme, d)
    + ListContexts(inv, cfg.devices.nic, d) + ListContexts(inv, cfg.devices.usb, d)
  }

  ghost predicate LevelHonoured(policy: Policy, inv: Inventory, pt: set<string>, c: Context) {
    && c.level != Forbidden
    && (c.level == Dedicated && !policy.requireIommuExclusive ==>
          forall g :: g in inv && SameGroup(c.func, g) ==> g.bdf in pt)
  }

  // The device's node is cast to 16 bits before it is compared with the VM's node.
  predicate NumaHonoured(node: Option<nat>, c: Context) {
    node.Some? && c.level == Dedicated && c.func.numaNode.Some? && c.func.numaNode.value >= 0 ==>
      c.func.numaNode.value % 0x1_0000 == node.value
  }

  ghost predicate RulesHold(cfg: VmConfig, inv: Inventory) {
    var policy, pt := cfg.isolation, Passthrough(cfg, inv);
    && (policy.requireIommuExclusive ==> GroupsExclusive(inv, pt))
    && (policy.requireMultifunctionConsistency ==> SlotsConsistent(inv, pt))
    && (policy.forbidHostCriticalInGroup ==> NoHostGpuInGroups(inv, pt))
    && (forall c :: c in Contexts(cfg, inv) ==> LevelHonoured(policy, inv, pt, c))
    && (forall c :: c in Contexts(cfg, inv) ==> NumaHonoured(cfg.numaNode, c))
  }

  /** What the gate lets through. */
  ghost predicate GateAccepts(cfg: VmConfig, inv: Inventory) {
    match cfg.isolation.mode
    case Disabled => true
    case Audit => AllRequiredPresent(cfg, inv)
    case Enforce => AllRequiredPresent(cfg, inv) && RulesHold(cfg, inv)
  }

  /** Tightening the mode only ever rejects more. */
  lemma GateMonotone(cfg: VmConfig, inv: Inventory, strict: IsolationMode, lax: IsolationMode)
    requires strict == Enforce || (strict == Audit && lax != Enforce) || lax == Disabled
    requires GateAccepts(cfg.(isolation := cfg.isolation.(mode := strict)), inv)
    ensures GateAccepts(cfg.(isolation := cfg.isolation.(mode := lax)), inv)
  {
    var a := cfg.(isolation := cfg.isolation.(mode := strict));
    var b := cfg.(isolation := cfg.isolation.(mode := lax));
    assert AllRequiredPresent(a, inv) == AllRequiredPresent(b, inv);
    assert Contexts(a, inv) == Contexts(b, inv);
    assert Passthrough(a, inv) == Passthrough(b, inv);
  }

  /** With no address listed twice in a list, every entry speaks for its own device. */
  lemma DistinctEntriesDecideLevels(inv: Inventory, cfgs: seq<DeviceCfg>, default: IsolationLevel, c: Context)
    requires forall i, j :: 0 <= i < j < |cfgs| ==> cfgs[i].address != cfgs[j].address
    ensures c in ListContexts(inv, cfgs, default) <==>
            exists e :: e in cfgs && FindByBdf(inv, e.address) == Some(c.func)
                        && c.level == (if e.level.Some? then e.level.value else default)
  {
    var funcs := Present(inv, cfgs);
    forall e | e in cfgs
      ensures LevelFor(cfgs, e.address, default) == if e.level.Some? then e.level.value else default
    {
      LevelOfEntry(cfgs, e, default);
    }
    PresentMember(inv, cfgs, c.func);
    if c in ListContexts(inv, cfgs, default) {
      var i :| 0 <= i < |funcs| && c == ListContexts(inv, cfgs, default)[i];
      assert c.func in funcs;
      var e :| e in cfgs && FindByBdf(inv, e.address) == Some(c.func);
    }
    if e :| e in cfgs && FindByBdf(inv, e.address) == Some(c.func)
            && c.level == (if e.level.Some? then e.level.value else default) {
      var i :| 0 <= i < |funcs| && funcs[i] == c.func;
      assert ListContexts(inv, cfgs, default)[i] == c;
    }
  }

  lemma {:induction false} LevelOfEntry(cfgs: seq<DeviceCfg>, e: DeviceCfg, default: IsolationLevel)
    requires forall i, j :: 0 <= i < j < |cfgs| ==> cfgs[i].address != cfgs[j].address
    requires e in cfgs
    ensures LevelFor(cfgs, e.address, default) == if e.level.Some? then e.level.value else default
  {
    var n := |cfgs| - 1;
    var k :| 0 <= k <= n && cfgs[k] == e;
    if k < n {
      assert cfgs[..n][k] == e;
      LevelOfEntry(cfgs[..n], e, default);
    }
  }

  // ---------- Evaluators ----------

  /** Split functions into those passed through and the others, keeping the order. */
  method Partition(ms: seq<PciFunction>, pt: set<string>) returns (inside: seq<PciFunction>, outside: seq<PciFunction>)
    ensures forall f :: f in inside <==> f in ms && f.bdf in pt
    ensures forall f :: f in outside <==> f in ms && f.bdf !in pt
  {
    inside, outside := [], [];
    for i := 0 to |ms|
      invariant forall f :: f in inside <==> f in ms[..i] && f.bdf in pt
      invariant forall f :: f in outside <==> f in ms[..i] && f.bdf !in pt
    {
      assert ms[..i + 1] == ms[..i] + [ms[i]];
      if ms[i].bdf in pt {
        inside := inside + [ms[i]];
      } else {
        outside := outside + [ms[i]];
      }
    }
    assert ms[..|ms|] == ms;
  }

  /** Some finding in fs reports this severity and code for group gid. */
  ghost predicate Reports(fs: seq<Finding>, severity: Severity, code: Code, gid: nat) {
    exists f :: f in fs && f.severity == severity && f.code == code && f.group == Some(gid)
  }

  ghost predicate Touched(inv: Inventory, pt: set<string>, gid: nat) {
    exists f :: f in inv && f.iommuGroup == Some(gid) && f.bdf in pt
  }

  ghost predicate HasOutsider(inv: Inventory, pt: set<string>, gid: nat) {
    exists f :: f in inv && f.iommuGroup == Some(gid) && f.bdf !in pt
  }

  ghost predicate HasHostGpu(inv: Inventory, gid: nat) {
    exists f :: f in inv && f.iommuGroup == Some(gid) && HostOwnedGpu(f)
  }

  // The groups are visited in any order: the source iterates over a hash map.
  method CheckGroup(inv: Inventory, pt: set<string>, gid: nat, members: seq<PciFunction>) returns (f: Option<Finding>)
    requires members == Members(inv, gid)
    ensures f.Some? <==> Touched(inv, pt, gid)
    ensures f.Some? ==> f.value.group == Some(gid)
    ensures f.Some? ==> f.value.severity == if HasOutsider(inv, pt, gid) then Violation else Info
    ensures f.Some? ==> f.value.code == if HasOutsider(inv, pt, gid) then GroupNotExclusive else GroupExclusive
  {
    HavingMembers(inv, groupOf, gid);
    var inside, outside := Partition(members, pt);
    if inside == [] {
      return None;
    }
    assert inside[0] in inside;
    if outside == [] {
      return Some(Finding(Info, GroupExclusive, Some(inside[0].bdf), Some(gid)));
    }
    assert outside[0] in outside;
    return Some(Finding(Violation, GroupNotExclusive, Some(inside[0].bdf), Some(gid)));
  }

  lemma ReportsSnoc(fs: seq<Finding>, f: Finding, severity: Severity, code: Code)
    ensures forall gid: nat :: Reports(fs + [f], severity, code, gid) <==>
      Reports(fs, severity, code, gid) || (f.severity == severity && f.code == code && f.group == Some(gid))
  {
    assert f in fs + [f];
  }

  method EvaluateIommuExclusivity(inv: Inventory, pt: set<string>) returns (fs: seq<Finding>)
    ensures forall gid :: Reports(fs, Violation, GroupNotExclusive, gid) <==>
      Touched(inv, pt, gid) && HasOutsider(inv, pt, gid)
    ensures forall gid :: Reports(fs, Info, GroupExclusive, gid) <==>
      Touched(inv, pt, gid) && !HasOutsider(inv, pt, gid)
    ensures HasViolations(fs) <==> !GroupsExclusive(inv, pt)
  {
    var groups := GroupBy(inv, groupOf);
    var todo := groups.Keys;
    fs := [];
    while todo != {}
      invariant todo <= groups.Keys
      invariant forall f :: f in fs ==> f.group.Some? && (f.severity == Violation <==> f.code == GroupNotExclusive)
      invariant forall gid :: Reports(fs, Violation, GroupNotExclusive, gid) <==>
                gid in groups && gid !in todo && Touched(inv, pt, gid) && HasOutsider(inv, pt, gid)
      invariant forall gid :: Reports(fs, Info, GroupExclusive, gid) <==>
                gid in groups && gid !in todo && Touched(inv, pt, gid) && !HasOutsider(inv, pt, gid)
    {
      var gid :| gid in todo;
      todo := todo - {gid};
      var f := CheckGroup(inv, pt, gid, groups[gid]);
      if f.Some? {
        ReportsSnoc(fs, f.value, Violation, GroupNotExclusive);
        ReportsSnoc(fs, f.value, Info, GroupExclusive);
        fs := fs + [f.value];
      }
    }
    ViolationsPerGroup(inv, pt, fs);
  }

  lemma ViolationsPerGroup(inv: Inventory, pt: set<string>, fs: seq<Finding>)
    requires forall f :: f in fs ==> f.group.Some? && (f.severity == Violation <==> f.code == GroupNotExclusive)
    requires forall gid :: Reports(fs, Violation, GroupNotExclusive, gid) <==>
      Touched(inv, pt, gid) && HasOutsider(inv, pt, gid)
    ensures HasViolations(fs) <==> !GroupsExclusive(inv, pt)
  {
    if HasViolations(fs) {
      var f :| f in fs && f.severity == Violation;
      assert Reports(fs, Violation, GroupNotExclusive, f.group.value);
    }
    if !GroupsExclusive(inv, pt) {
      var f, g :| f in inv && g in inv && SameGroup(f, g) && f.bdf in pt && g.bdf !in pt;
      assert Touched(inv, pt, f.iommuGroup.value) && HasOutsider(inv, pt, f.iommuGroup.value);
      assert Reports(fs, Violation, GroupNotExclusive, f.iommuGroup.value);
    }
  }

  ghost predicate NamesMixedSlot(inv: Inventory, pt: set<string>, f: Finding) {
    f.severity == Violation && f.code == MixedSlot &&
    exists a, b :: a in inv && b in inv && SameSlot(a, b) && f.device == Some(a.bdf) && a.bdf in pt && b.bdf !in pt
  }

  /** The functions of this slot are passed through together or not at all. */
  ghost predicate SlotUnmixed(inv: Inventory, pt: set<string>, key: (nat, nat, nat)) {
    forall a, b :: a in inv && b in inv && slotOf(a) == slotOf(b) == Some(key) && a.bdf in pt ==> b.bdf in pt
  }

  lemma UnmixedSlots(inv: Inventory, pt: set<string>)
    ensures SlotsConsistent(inv, pt) <==> forall key :: SlotUnmixed(inv, pt, key)
  {
    if forall key :: SlotUnmixed(inv, pt, key) {
      forall a, b | a in inv && b in inv && SameSlot(a, b) && a.bdf in pt ensures b.bdf in pt {
        assert slotOf(a) == slotOf(b) && slotOf(a).Some?;
        assert SlotUnmixed(inv, pt, slotOf(a).value);
      }
    } else {
      var key :| !SlotUnmixed(inv, pt, key);
      var a, b :| a in inv && b in inv && slotOf(a) == slotOf(b) == Some(key) && a.bdf in pt && b.bdf !in pt;
      assert SameSlot(a, b);
    }
  }

  /** The slot of the device that a finding names. */
  function FindingSlot(f: Finding): Option<(nat, nat, nat)> {
    if f.device.None? then None else SlotKey(f.device.value)
  }

  method CheckSlot(inv: Inventory, pt: set<string>, key: (nat, nat, nat), members: seq<PciFunction>)
      returns (finding: Option<Finding>)
    requires members == Having(inv, slotOf, key)
    ensures finding.Some? ==> NamesMixedSlot(inv, pt, finding.value) && FindingSlot(finding.value) == Some(key)
    ensures finding.None? <==> SlotUnmixed(inv, pt, key)
  {
    HavingMembers(inv, slotOf, key);
    var inside, outside := Partition(members, pt);
    if inside == [] || outside == [] {
      forall a, b | a in inv && b in inv && slotOf(a) == slotOf(b) == Some(key) && a.bdf in pt ensures b.bdf in pt {
        assert a in inside && (b in inside || b in outside);
      }
      return None;
    }
    assert inside[0] in inside && outside[0] in outside;
    assert SameSlot(inside[0], outside[0]);
    return Some(Finding(Violation, MixedSlot, Some(inside[0].bdf), None));
  }

  /** fs reports exactly the slots in `mixed`, one finding each, in this order. */
  ghost predicate SlotsReported(inv: Inventory, pt: set<string>, fs: seq<Finding>, mixed: seq<(nat, nat, nat)>) {
    && |fs| == |mixed|
    && (forall i :: 0 <= i < |fs| ==> NamesMixedSlot(inv, pt, fs[i]) && FindingSlot(fs[i]) == Some(mixed[i]))
    && (forall i, j :: 0 <= i < j < |mixed| ==> mixed[i] != mixed[j])
  }

  lemma SlotsReportedSnoc(inv: Inventory, pt: set<string>, fs: seq<Finding>, mixed: seq<(nat, nat, nat)>,
                          f: Finding, key: (nat, nat, nat))
    requires SlotsReported(inv, pt, fs, mixed) && key !in mixed
    requires NamesMixedSlot(inv, pt, f) && FindingSlot(f) == Some(key)
    ensures SlotsReported(inv, pt, fs + [f], mixed + [key])
  {}

  /** Every mixed slot is reported exactly once, by a violation that names a passthrough
      function of it, and no other slot is. The slots are visited in any order. */
  method EvaluateMultifunctionConsistency(inv: Inventory, pt: set<string>)
      returns (fs: seq<Finding>, ghost mixed: seq<(nat, nat, nat)>)
    ensures SlotsReported(inv, pt, fs, mixed)
    ensures forall key :: key in mixed <==> !SlotUnmixed(inv, pt, key)
    ensures HasViolations(fs) <==> !SlotsConsistent(inv, pt)
  {
    var slots := GroupBy(inv, slotOf);
    var todo := slots.Keys;
    fs, mixed := [], [];
    while todo != {}
      invariant todo <= slots.Keys && SlotsReported(inv, pt, fs, mixed)
      invariant forall key :: key in mixed <==> key in slots && key !in todo && !SlotUnmixed(inv, pt, key)
    {
      var key :| key in todo;
      todo := todo - {key};
      var finding := CheckSlot(inv, pt, key, slots[key]);
      if finding.Some? {
        SlotsReportedSnoc(inv, pt, fs, mixed, finding.value, key);
        fs, mixed := fs + [finding.value], mixed + [key];
      }
    }
    AllSlotsReported(inv, pt, fs, mixed, slots.Keys);
  }

  lemma AllSlotsReported(inv: Inventory, pt: set<string>, fs: seq<Finding>, mixed: seq<(nat, nat, nat)>,
                         keys: set<(nat, nat, nat)>)
    requires SlotsReported(inv, pt, fs, mixed)
    requires forall key :: key in mixed <==> key in keys && !SlotUnmixed(inv, pt, key)
    requires forall f :: f in inv && slotOf(f).Some? ==> slotOf(f).value in keys
    ensures forall key :: key in mixed <==> !SlotUnmixed(inv, pt, key)
    ensures HasViolations(fs) <==> !SlotsConsistent(inv, pt)
  {
    UnmixedSlots(inv, pt);
    if fs == [] {
      assert mixed == [];
    } else {
      assert fs[0] in fs && mixed[0] in mixed && NamesMixedSlot(inv, pt, fs[0]);
    }
  }

  method EvaluateHostCriticalSharing(inv: Inventory, pt: set<string>) returns (fs: seq<Finding>)
    ensures forall gid :: Reports(fs, Violation, HostGpuInGroup, gid) <==> Touched(inv, pt, gid) && HasHostGpu(inv, gid)
    ensures forall gid :: Reports(fs, Warning, HostGpuOnly, gid) <==> !Touched(inv, pt, gid) && HasHostGpu(inv, gid)
    ensures HasViolations(fs) <==> !NoHostGpuInGroups(inv, pt)
  {
    var groups := GroupBy(inv, groupOf);
    var todo := groups.Keys;
    fs := [];
    while todo != {}
      invariant todo <= groups.Keys
      invariant forall f :: f in fs ==> f.group.Some? && (f.severity == Violation <==> f.code == HostGpuInGroup)
      invariant forall gid :: Reports(fs, Violation, HostGpuInGroup, gid) <==>
                gid in groups && gid !in todo && Touched(inv, pt, gid) && HasHostGpu(inv, gid)
      invariant forall gid :: Reports(fs, Warning, HostGpuOnly, gid) <==>
                gid in groups && gid !in todo && !Touched(inv, pt, gid) && HasHostGpu(inv, gid)
    {
      var gid :| gid in todo;
      todo := todo - {gid};
      var touched, gpus := ScanGroup(inv, pt, gid, groups[gid]);
      ghost var before := fs;
      if gpus != [] {
        var f := if touched then Finding(Violation, HostGpuInGroup, Some(gpus[0].bdf), Some(gid))
                 else Finding(Warning, HostGpuOnly, Some(gpus[0].bdf), Some(gid));
        fs := fs + [f];
        assert f in fs;
      }
      forall g | g != gid
        ensures Reports(fs, Violation, HostGpuInGroup, g) == Reports(before, Violation, HostGpuInGroup, g)
        ensures Reports(fs, Warning, HostGpuOnly, g) == Reports(before, Warning, HostGpuOnly, g)
      {}
    }
    HostGpuPerGroup(inv, pt, fs);
  }

  method ScanGroup(inv: Inventory, pt: set<string>, gid: nat, members: seq<PciFunction>)
      returns (touched: bool, gpus: seq<PciFunction>)
    requires members == Members(inv, gid)
    ensures touched <==> Touched(inv, pt, gid)
    ensures gpus != [] <==> HasHostGpu(inv, gid)
    ensures forall g :: g in gpus ==> g in inv && g.iommuGroup == Some(gid) && HostOwnedGpu(g)
  {
    HavingMembers(inv, groupOf, gid);
    touched, gpus := false, [];
    for i := 0 to |members|
      invariant touched <==> exists f :: f in members[..i] && f.bdf in pt
      invariant forall g :: g in gpus <==> g in members[..i] && HostOwnedGpu(g)
    {
      assert members[..i + 1] == members[..i] + [members[i]];
      if members[i].bdf in pt {
        touched := true;
      }
      if members[i].IsDisplayController() && GpuSafety(members[i]) == Some(HostOwned) {
        gpus := gpus + [members[i]];
      }
    }
    assert members[..|members|] == members;
    if gpus != [] {
      assert gpus[0] in gpus;
    }
  }

  lemma HostGpuPerGroup(inv: Inventory, pt: set<string>, fs: seq<Finding>)
    requires forall f :: f in fs ==> f.group.Some? && (f.severity == Violation <==> f.code == HostGpuInGroup)
    requires forall gid :: Reports(fs, Violation, HostGpuInGroup, gid) <==>
      Touched(inv, pt, gid) && HasHostGpu(inv, gid)
    ensures HasViolations(fs) <==> !NoHostGpuInGroups(inv, pt)
  {
    if HasViolations(fs) {
      var f :| f in fs && f.severity == Violation;
      assert Reports(fs, Violation, HostGpuInGroup, f.group.value);
    }
    if !NoHostGpuInGroups(inv, pt) {
      var f, g :| f in inv && g in inv && SameGroup(f, g) && f.bdf in pt && HostOwnedGpu(g);
      assert Touched(inv, pt, f.iommuGroup.value) && HasHostGpu(inv, f.iommuGroup.value);
      assert Reports(fs, Violation, HostGpuInGroup, f.iommuGroup.value);
    }
  }

  /** What a device's isolation level calls for: a Forbidden device is a violation; a
      Dedicated one is judged by its own group, as far as the inventory knows it, unless
      exclusivity is enforced anyway. */
  ghost function LevelFinding(policy: Policy, inv: Inventory, pt: set<string>, c: Context): seq<Finding> {
    var device, group := Some(c.func.bdf), c.func.iommuGroup;
    match c.level
    case Forbidden => [Finding(Violation, DeviceForbidden, device, group)]
    case SharedWithHost => []
    case Dedicated =>
      if policy.requireIommuExclusive then []
      else if group.None? then [Finding(Warning, DedicatedNoGroup, device, None)]
      else if Members(inv, group.value) == [] then [Finding(Warning, DedicatedGroupUnknown, device, group)]
      else if HasOutsider(inv, pt, group.value) then [Finding(Violation, DedicatedNotExclusive, device, group)]
      else [Finding(Info, DedicatedExclusive, device, group)]
  }

  /** When a device's level is reported, and how: at most one finding, about the device and
      its group. */
  lemma LevelReported(policy: Policy, inv: Inventory, pt: set<string>, c: Context)
    ensures var fs := LevelFinding(policy, inv, pt, c);
      var judged := c.level == Dedicated && !policy.requireIommuExclusive;
      var known := exists g :: g in inv && SameGroup(c.func, g);
      var outsider := exists g :: g in inv && SameGroup(c.func, g) && g.bdf !in pt;
      && |fs| <= 1 && (forall f :: f in fs ==> f.device == Some(c.func.bdf) && f.group == c.func.iommuGroup)
      && (fs == [] <==> c.level == SharedWithHost || (c.level == Dedicated && policy.requireIommuExclusive))
      && (forall f :: f in fs ==>
            && (f.code == DeviceForbidden <==> c.level == Forbidden)
            && (f.code == DedicatedNoGroup <==> judged && c.func.iommuGroup.None?)
            && (f.code == DedicatedGroupUnknown <==> judged && c.func.iommuGroup.Some? && !known)
            && (f.code == DedicatedNotExclusive <==> judged && outsider)
            && (f.code == DedicatedExclusive <==> judged && known && !outsider)
            && (f.severity == Violation <==> f.code == DeviceForbidden || f.code == DedicatedNotExclusive)
            && (f.severity == Info <==> f.code == DedicatedExclusive))
  {
    if c.func.iommuGroup.Some? {
      NoMembersIff(inv, c.func.iommuGroup.value);
    }
  }

  ghost function LevelFindings(policy: Policy, inv: Inventory, pt: set<string>, ctxs: seq<Context>): seq<Finding> {
    if ctxs == [] then []
    else
      var n := |ctxs| - 1;
      LevelFindings(policy, inv, pt, ctxs[..n]) + LevelFinding(policy, inv, pt, ctxs[n])
  }

  lemma NoMembersIff(inv: Inventory, gid: nat)
    ensures Members(inv, gid) == [] <==> forall f :: f in inv ==> f.iommuGroup != Some(gid)
  {
    HavingMembers(inv, groupOf, gid);
    if Members(inv, gid) != [] {
      assert Members(inv, gid)[0] in inv;
    }
  }

  lemma LevelViolates(policy: Policy, inv: Inventory, pt: set<string>, c: Context)
    ensures HasViolations(LevelFinding(policy, inv, pt, c)) <==> !LevelHonoured(policy, inv, pt, c)
  {
    if c.func.iommuGroup.Some? {
      NoMembersIff(inv, c.func.iommuGroup.value);
    }
    var fs := LevelFinding(policy, inv, pt, c);
    if fs != [] {
      assert fs[0] in fs;
    }
  }

  lemma ViolationsAppend(a: seq<Finding>, b: seq<Finding>)
    ensures HasViolations(a + b) <==> HasViolations(a) || HasViolations(b)
  {
    assert forall f :: f in a + b <==> f in a || f in b;
  }

  /** The levels produce a violation exactly when some device's level is not honoured. */
  lemma {:induction false} LevelsViolate(policy: Policy, inv: Inventory, pt: set<string>, ctxs: seq<Context>)
    ensures HasViolations(LevelFindings(policy, inv, pt, ctxs)) <==>
            exists c :: c in ctxs && !LevelHonoured(policy, inv, pt, c)
  {
    if ctxs != [] {
      var n := |ctxs| - 1;
      assert ctxs == ctxs[..n] + [ctxs[n]];
      LevelsViolate(policy, inv, pt, ctxs[..n]);
      LevelViolates(policy, inv, pt, ctxs[n]);
      ViolationsAppend(LevelFindings(policy, inv, pt, ctxs[..n]), LevelFinding(policy, inv, pt, ctxs[n]));
    }
  }

  /** One device after another, each reported exactly as its level calls for. */
  method EvaluateIsolationLevels(policy: Policy, inv: Inventory, ctxs: seq<Context>, pt: set<string>)
      returns (fs: seq<Finding>)
    ensures fs == LevelFindings(policy, inv, pt, ctxs)
    ensures HasViolations(fs) <==> exists c :: c in ctxs && !LevelHonoured(policy, inv, pt, c)
  {
    var groups := GroupBy(inv, groupOf);
    fs := [];
    for i := 0 to |ctxs|
      invariant fs == LevelFindings(policy, inv, pt, ctxs[..i])
    {
      assert ctxs[..i + 1][..i] == ctxs[..i];
      var found := CheckLevel(policy, inv, groups, ctxs[i], pt);
      fs := fs + found;
    }
    assert ctxs[..|ctxs|] == ctxs;
    LevelsViolate(policy, inv, pt, ctxs);
  }

  method CheckLevel(policy: Policy, inv: Inventory, groups: map<nat, seq<PciFunction>>, c: Context, pt: set<string>)
      returns (found: seq<Finding>)
    requires forall gid :: gid in groups <==> exists f :: f in inv && f.iommuGroup == Some(gid)
    requires forall gid :: gid in groups ==> groups[gid] == Members(inv, gid)
    ensures found == LevelFinding(policy, inv, pt, c)
  {
    found := [];
    match c.level {
      case Forbidden =>
        found := [Finding(Violation, DeviceForbidden, Some(c.func.bdf), c.func.iommuGroup)];
      case Dedicated =>
        if !policy.requireIommuExclusive {
          if c.func.iommuGroup.None? {
            found := [Finding(Warning, DedicatedNoGroup, Some(c.func.bdf), None)];
          } else {
            var gid := c.func.iommuGroup.value;
            HavingMembers(inv, groupOf, gid);
            NoMembersIff(inv, gid);
            if gid !in groups {
              found := [Finding(Warning, DedicatedGroupUnknown, Some(c.func.bdf), Some(gid))];
              return;
            }
            var _, outside := Partition(groups[gid], pt);
            if outside == [] {
              found := [Finding(Info, DedicatedExclusive, Some(c.func.bdf), Some(gid))];
            } else {
              assert outside[0] in outside;
              found := [Finding(Violation, DedicatedNotExclusive, Some(c.func.bdf), Some(gid))];
            }
          }
        }
      case SharedWithHost =>
    }
  }

  /** What a device's NUMA node calls for, for a VM pinned to a node: an unknown or negative
      node and an advisory mismatch are warnings, a Dedicated mismatch is a violation in
      Enforce. A Forbidden device's mismatch is not reported again. */
  function NumaFinding(mode: IsolationMode, node: nat, c: Context): seq<Finding> {
    var device, group, dev := Some(c.func.bdf), c.func.iommuGroup, c.func.numaNode;
    if dev.None? then [Finding(Warning, NumaUnknown, device, group)]
    else if dev.value < 0 then [Finding(Warning, NumaNegative, device, group)]
    else if dev.value % 0x1_0000 == node || c.level == Forbidden then []
    else if c.level == Dedicated && mode == Enforce then [Finding(Violation, NumaMismatch, device, group)]
    else [Finding(Warning, NumaMismatch, device, group)]
  }

  /** When a device's node is reported, and how. */
  lemma NodeReported(mode: IsolationMode, node: nat, c: Context)
    ensures var fs, dev := NumaFinding(mode, node, c), c.func.numaNode;
      var mismatch := dev.Some? && dev.value >= 0 && dev.value % 0x1_0000 != node && c.level != Forbidden;
      && |fs| <= 1 && (forall f :: f in fs ==> f.device == Some(c.func.bdf) && f.group == c.func.iommuGroup)
      && (fs != [] <==> dev.None? || dev.value < 0 || mismatch)
      && (forall f :: f in fs ==>
            && (f.code == NumaUnknown <==> dev.None?)
            && (f.code == NumaNegative <==> dev.Some? && dev.value < 0)
            && (f.code == NumaMismatch <==> mismatch)
            && (f.severity == Violation <==> mismatch && c.level == Dedicated && mode == Enforce)
            && (f.severity != Violation ==> f.severity == Warning))
  {}

  function NumaFindings(mode: IsolationMode, node: nat, ctxs: seq<Context>): seq<Finding> {
    if ctxs == [] then []
    else
      var n := |ctxs| - 1;
      NumaFindings(mode, node, ctxs[..n]) + NumaFinding(mode, node, ctxs[n])
  }

  lemma NumaViolates(mode: IsolationMode, node: nat, c: Context)
    ensures HasViolations(NumaFinding(mode, node, c)) <==> mode == Enforce && !NumaHonoured(Some(node), c)
  {
    var fs := NumaFinding(mode, node, c);
    if fs != [] {
      assert fs[0] in fs;
    }
  }

  lemma {:induction false} NumaNodesViolate(mode: IsolationMode, node: nat, ctxs: seq<Context>)
    ensures HasViolations(NumaFindings(mode, node, ctxs)) <==>
            mode == Enforce && exists c :: c in ctxs && !NumaHonoured(Some(node), c)
  {
    if ctxs != [] {
      var n := |ctxs| - 1;
      assert ctxs == ctxs[..n] + [ctxs[n]];
      NumaNodesViolate(mode, node, ctxs[..n]);
      NumaViolates(mode, node, ctxs[n]);
      ViolationsAppend(NumaFindings(mode, node, ctxs[..n]), NumaFinding(mode, node, ctxs[n]));
    }
  }

  /** A VM that is not pinned to a node gets no findings; otherwise one device after another,
      each reported exactly as its node and level call for. */
  method EvaluateNumaPlacement(mode: IsolationMode, node: Option<nat>, ctxs: seq<Context>) returns (fs: seq<Finding>)
    ensures fs == if node.None? then [] else NumaFindings(mode, node.value, ctxs)
    ensures HasViolations(fs) <==> mode == Enforce && exists c :: c in ctxs && !NumaHonoured(node, c)
  {
    fs := [];
    if node.None? {
      return;
    }
    for i := 0 to |ctxs|
      invariant fs == NumaFindings(mode, node.value, ctxs[..i])
    {
      assert ctxs[..i + 1][..i] == ctxs[..i];
      var c := ctxs[i];
      var dev := c.func.numaNode;
      if dev.None? {
        fs := fs + [Finding(Warning, NumaUnknown, Some(c.func.bdf), c.func.iommuGroup)];
      } else if dev.value < 0 {
        fs := fs + [Finding(Warning, NumaNegative, Some(c.func.bdf), c.func.iommuGroup)];
      } else if dev.value % 0x1_0000 != node.value && c.level != Forbidden {
        var severity := if c.level == Dedicated && mode == Enforce then Violation else Warning;
        fs := fs + [Finding(severity, NumaMismatch, Some(c.func.bdf), c.func.iommuGroup)];
      }
    }
    assert ctxs[..|ctxs|] == ctxs;
    NumaNodesViolate(mode, node.value, ctxs);
  }

  // ---------- The gate ----------

  /** The effective level of every address of a list; a later entry replaces an earlier one. */
  method IndexLevels(cfgs: seq<DeviceCfg>, default: IsolationLevel) returns (levels: map<string, IsolationLevel>)
    ensures forall b :: b in levels <==> exists c :: c in cfgs && c.address == b
    ensures forall b :: b in levels ==> levels[b] == LevelFor(cfgs, b, default)
  {
    levels := map[];
    for i := 0 to |cfgs|
      invariant forall b :: b in levels <==> exists c :: c in cfgs[..i] && c.address == b
      invariant forall b :: b in levels ==> levels[b] == LevelFor(cfgs[..i], b, default)
    {
      assert cfgs[..i + 1] == cfgs[..i] + [cfgs[i]];
      assert cfgs[..i + 1][..i] == cfgs[..i];
      levels := levels[cfgs[i].address := if cfgs[i].level.Some? then cfgs[i].level.value else default];
    }
    assert cfgs[..|cfgs|] == cfgs;
  }

  lemma AddressesAppend(a: seq<PciFunction>, b: seq<PciFunction>)
    ensures Addresses(a + b) == Addresses(a) + Addresses(b)
  {}

  lemma CollectNext(fs: seq<PciFunction>, cfgs: seq<DeviceCfg>, default: IsolationLevel, i: nat)
    requires i < |fs|
    ensures Addresses(fs[..i + 1]) == Addresses(fs[..i]) + {fs[i].bdf}
    ensures ContextsOf(fs[..i + 1], cfgs, default)
            == ContextsOf(fs[..i], cfgs, default) + [Context(fs[i], LevelFor(cfgs, fs[i].bdf, default))]
  {
    assert fs[..i + 1] == fs[..i] + [fs[i]] && fs[..i + 1][..i] == fs[..i];
    AddressesAppend(fs[..i], [fs[i]]);
  }

  method CollectKind(inv: Inventory, cfgs: seq<DeviceCfg>, default: IsolationLevel)
      returns (r: Result<(set<string>, seq<Context>), VfioError>)
    ensures r.Ok? <==> RequiredPresent(inv, cfgs)
    ensures r.Ok? ==> r.value == (Addresses(Present(inv, cfgs)), ListContexts(inv, cfgs, default))
    ensures r.Err? ==> r.error.MissingDevice?
  {
    var levels := IndexLevels(cfgs, default);
    var resolved := ResolveConfigured(inv, cfgs);
    if resolved.Err? {
      return Err(resolved.error);
    }
    var funcs := resolved.value;
    var pt: set<string>, ctxs: seq<Context> := {}, [];
    for i := 0 to |funcs|
      invariant pt == Addresses(funcs[..i])
      invariant ctxs == ContextsOf(funcs[..i], cfgs, default)
    {
      var f := funcs[i];
      PresentMember(inv, cfgs, f);
      CollectNext(funcs, cfgs, default, i);
      pt := pt + {f.bdf};
      ctxs := ctxs + [Context(f, levels[f.bdf])];
    }
    assert funcs[..|funcs|] == funcs;
    return Ok((pt, ctxs));
  }

  lemma SelectedByList(cfg: VmConfig, inv: Inventory)
    ensures Selected(cfg, inv) == Present(inv, cfg.devices.gpu) + Present(inv, cfg.devices.nvme)
                                  + Present(inv, cfg.devices.nic) + Present(inv, cfg.devices.usb)
    ensures AllRequiredPresent(cfg, inv) <==>
            && RequiredPresent(inv, cfg.devices.gpu) && RequiredPresent(inv, cfg.devices.nvme)
            && RequiredPresent(inv, cfg.devices.nic) && RequiredPresent(inv, cfg.devices.usb)
  {
    var d := cfg.devices;
    PresentAppend(inv, d.gpu, d.nvme);
    PresentAppend(inv, d.gpu + d.nvme, d.nic);
    PresentAppend(inv, d.gpu + d.nvme + d.nic, d.usb);
    assert forall c :: c in d.All() <==> c in d.gpu || c in d.nvme || c in d.nic || c in d.usb;
  }

  lemma {:induction false} PresentInInventory(inv: Inventory, cfgs: seq<DeviceCfg>)
    ensures forall f :: f in Present(inv, cfgs) ==> f in inv
  {
    if cfgs != [] {
      PresentInInventory(inv, cfgs[1..]);
    }
  }

  method CollectDevices(cfg: VmConfig, inv: Inventory) returns (r: Result<(set<string>, seq<Context>), VfioError>)
    ensures r.Ok? <==> AllRequiredPresent(cfg, inv)
    ensures r.Ok? ==> r.value == (Passthrough(cfg, inv), Contexts(cfg, inv))
    ensures r.Err? ==> r.error.MissingDevice?
    ensures forall c :: c in Contexts(cfg, inv) ==> c.func in inv
  {
    SelectedByList(cfg, inv);
    PresentInInventory(inv, cfg.devices.gpu);
    PresentInInventory(inv, cfg.devices.nvme);
    PresentInInventory(inv, cfg.devices.nic);
    PresentInInventory(inv, cfg.devices.usb);
    var default := cfg.isolation.defaultLevel;
    var gpu := CollectKind(inv, cfg.devices.gpu, default);
    if gpu.Err? {
      return gpu;
    }
    var nvme := CollectKind(inv, cfg.devices.nvme, default);
    if nvme.Err? {
      return nvme;
    }
    var nic := CollectKind(inv, cfg.devices.nic, default);
    if nic.Err? {
      return nic;
    }
    var usb := CollectKind(inv, cfg.devices.usb, default);
    if usb.Err? {
      return usb;
    }
    AddressesAppend(Present(inv, cfg.devices.gpu), Present(inv, cfg.devices.nvme));
    AddressesAppend(Present(inv, cfg.devices.gpu) + Present(inv, cfg.devices.nvme), Present(inv, cfg.devices.nic));
    AddressesAppend(Present(inv, cfg.devices.gpu) + Present(inv, cfg.devices.nvme) + Present(inv, cfg.devices.nic),
                    Present(inv, cfg.devices.usb));
    return Ok((gpu.value.0 + nvme.value.0 + nic.value.0 + usb.value.0,
               gpu.value.1 + nvme.value.1 + nic.value.1 + usb.value.1));
  }

  /** The gate accepts exactly the configurations that GateAccepts describes. */
  method EvaluateIsolation(cfg: VmConfig, inv: Inventory) returns (r: Result<(), VfioError>)
    ensures r.Ok? <==> GateAccepts(cfg, inv)
    ensures r.Err? && r.error == PolicyViolations ==> cfg.isolation.mode == Enforce && !RulesHold(cfg, inv)
  {
    var policy := cfg.isolation;
    if policy.mode == Disabled {
      return Ok(());
    }
    var collected := CollectDevices(cfg, inv);
    if collected.Err? {
      return Err(collected.error);
    }
    var (pt, ctxs) := collected.value;
    var findings: seq<Finding> := [];
    if policy.requireIommuExclusive {
      var fs := EvaluateIommuExclusivity(inv, pt);
      findings := findings + fs;
    }
    if policy.requireMultifunctionConsistency {
      var fs, _ := EvaluateMultifunctionConsistency(inv, pt);
      findings := findings + fs;
    }
    if policy.forbidHostCriticalInGroup {
      var fs := EvaluateHostCriticalSharing(inv, pt);
      findings := findings + fs;
    }
    if ctxs != [] {
      var fs := EvaluateIsolationLevels(policy, inv, ctxs, pt);
      findings := findings + fs;
    }
    var fs := EvaluateNumaPlacement(policy.mode, cfg.numaNode, ctxs);
    findings := findings + fs;
    if policy.mode == Enforce && HasViolations(findings) {
      return Err(PolicyViolations);
    }
    return Ok(());
  }
}
