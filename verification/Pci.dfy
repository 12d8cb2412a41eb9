/** PCI inventory: classification of functions, lookups, grouping, resolution of
    configured devices, and the GPU unbind assessment. */
module Pci {
  import opened Prelude
  import opened Config
  import opened Text

  const VFIO: string := "vfio-pci"

  datatype PciFunction = PciFunction(
    bdf: string,
    classCode: nat,
    driver: Option<string>,
    iommuGroup: Option<nat>,
    numaNode: Option<int>)
  {
    predicate IsDisplayController() {
      ClassBase(classCode) == 0x03
    }

    predicate IsNetworkController() {
      ClassBase(classCode) == 0x02
    }

    predicate IsNvme() {
      ClassBase(classCode) == 0x01 && ClassSub(classCode) == 0x08
    }

    predicate IsUsbController() {
      ClassBase(classCode) == 0x0c && ClassSub(classCode) == 0x03
    }

    predicate OnVfio() {
      driver == Some(VFIO)
    }

    /** Bound to a kernel driver other than vfio-pci. */
    predicate HostBound() {
      driver.Some? && driver.value != VFIO
    }

    /** The same physical function, whatever driver it is bound to. */
    predicate SameDevice(other: PciFunction) {
      this == other.(driver := driver)
    }
  }

  type Inventory = seq<PciFunction>

  datatype VfioError =
    | MissingDevice(bdf: string)
    | PolicyViolations
    | RiskyGpu(bdf: string)
    | UnsafeGpu(bdf: string)
    | NotInGpuComplex(bdf: string)
    | ForbiddenDevice(bdf: string)
    | UnknownDevice(bdf: string)
    | WriteFailed(bdf: string)
    | NotOnVfio(bdf: string, driver: Option<string>)
    | ScanFailed

  // The class code is (base << 16) | (sub << 8) | prog_if; the base is cast to 8 bits.
  function ClassBase(code: nat): nat {
    (code / 0x1_0000) % 0x100
  }

  function ClassSub(code: nat): nat {
    (code / 0x100) % 0x100
  }

  // sysfs directory names are unique, so a scan never lists a BDF twice.
  ghost predicate UniqueBdfs(inv: Inventory) {
    forall i, j :: 0 <= i < j < |inv| ==> inv[i].bdf != inv[j].bdf
  }

  lemma SameBdfSameFunction(inv: Inventory, f: PciFunction, g: PciFunction)
    requires UniqueBdfs(inv) && f in inv && g in inv && f.bdf == g.bdf
    ensures f == g
  {
    var i :| 0 <= i < |inv| && inv[i] == f;
    var j :| 0 <= j < |inv| && inv[j] == g;
    assert !(i < j) && !(j < i);
  }

  // ---------- Lookup and resolution ----------

  /** The first function with this BDF. */
  function FindByBdf(inv: Inventory, bdf: string): (r: Option<PciFunction>)
    ensures r.Some? ==> r.value in inv && r.value.bdf == bdf
    ensures r.None? ==> forall f :: f in inv ==> f.bdf != bdf
  {
    if inv == [] then None
    else if inv[0].bdf == bdf then Some(inv[0])
    else
      var r := FindByBdf(inv[1..], bdf);
      assert inv == [inv[0]] + inv[1..];
      r
  }

  lemma FindUnique(inv: Inventory, f: PciFunction)
    requires UniqueBdfs(inv) && f in inv
    ensures FindByBdf(inv, f.bdf) == Some(f)
  {
    SameBdfSameFunction(inv, f, FindByBdf(inv, f.bdf).value);
  }

  /** The configured devices that the inventory knows, in configuration order. */
  function Present(inv: Inventory, cfgs: seq<DeviceCfg>): seq<PciFunction> {
    if cfgs == [] then []
    else
      (match FindByBdf(inv, cfgs[0].address)
       case Some(f) => [f]
       case None => []) + Present(inv, cfgs[1..])
  }

  ghost predicate RequiredPresent(inv: Inventory, cfgs: seq<DeviceCfg>) {
    forall c :: c in cfgs && c.required ==> FindByBdf(inv, c.address).Some?
  }

  lemma {:induction false} PresentAppend(inv: Inventory, a: seq<DeviceCfg>, b: seq<DeviceCfg>)
    ensures Present(inv, a + b) == Present(inv, a) + Present(inv, b)
  {
    if a == [] {
      assert a + b == b;
    } else {
      assert (a + b)[0] == a[0] && (a + b)[1..] == a[1..] + b;
      PresentAppend(inv, a[1..], b);
      Regroup(match FindByBdf(inv, a[0].address) case Some(f) => [f] case None => [], Present(inv, a[1..]),
              Present(inv, b));
    }
  }

  /** A function is resolved exactly when some entry names it. */
  lemma {:induction false} PresentMember(inv: Inventory, cfgs: seq<DeviceCfg>, f: PciFunction)
    ensures f in Present(inv, cfgs) <==> exists c :: c in cfgs && FindByBdf(inv, c.address) == Some(f)
  {
    if cfgs != [] {
      PresentMember(inv, cfgs[1..], f);
      assert cfgs == [cfgs[0]] + cfgs[1..];
    }
  }

  method ResolveConfigured(inv: Inventory, cfgs: seq<DeviceCfg>) returns (r: Result<seq<PciFunction>, VfioError>)
    ensures r.Ok? <==> RequiredPresent(inv, cfgs)
    ensures r.Ok? ==> r.value == Present(inv, cfgs)
    ensures r.Err? ==> exists c :: c in cfgs && c.required && r.error == MissingDevice(c.address)
                                   && FindByBdf(inv, c.address).None?
  {
    var out: seq<PciFunction> := [];
    for i := 0 to |cfgs|
      invariant out == Present(inv, cfgs[..i])
      invariant RequiredPresent(inv, cfgs[..i])
    {
      var dev := cfgs[i];
      assert cfgs[..i + 1] == cfgs[..i] + [dev];
      PresentAppend(inv, cfgs[..i], [dev]);
      var found := FindByBdf(inv, dev.address);
      if found.Some? {
        out := out + [found.value];
      } else if dev.required {
        assert dev in cfgs;
        return Err(MissingDevice(dev.address));
      }
    }
    assert cfgs[..|cfgs|] == cfgs;
    return Ok(out);
  }

  // ---------- IOMMU groups ----------

  ghost predicate SameGroup(f: PciFunction, g: PciFunction) {
    f.iommuGroup.Some? && f.iommuGroup == g.iommuGroup
  }

  /** The functions whose key is k, in inventory order. */
  function Having<K(==)>(inv: Inventory, key: PciFunction -> Option<K>, k: K): seq<PciFunction> {
    if inv == [] then []
    else (if key(inv[0]) == Some(k) then [inv[0]] else []) + Having(inv[1..], key, k)
  }

  lemma {:induction false} HavingMembers<K>(inv: Inventory, key: PciFunction -> Option<K>, k: K)
    ensures forall f :: f in Having(inv, key, k) <==> f in inv && key(f) == Some(k)
  {
    if inv != [] {
      HavingMembers(inv[1..], key, k);
      assert inv == [inv[0]] + inv[1..];
    }
  }

  lemma {:induction false} HavingSnoc<K>(inv: Inventory, f: PciFunction, key: PciFunction -> Option<K>, k: K)
    ensures Having(inv + [f], key, k) == Having(inv, key, k) + if key(f) == Some(k) then [f] else []
  {
    if inv == [] {
      assert inv + [f] == [f];
    } else {
      assert (inv + [f])[1..] == inv[1..] + [f];
      HavingSnoc(inv[1..], f, key, k);
    }
  }

  /** Group an inventory by a partial key; functions without a key are left out. */
  method GroupBy<K(==, !new)>(inv: Inventory, key: PciFunction -> Option<K>) returns (groups: map<K, seq<PciFunction>>)
    ensures forall k :: k in groups <==> exists f :: f in inv && key(f) == Some(k)
    ensures forall k :: k in groups ==> groups[k] == Having(inv, key, k)
  {
    groups := map[];
    for i := 0 to |inv|
      invariant forall k :: Having(inv[..i], key, k) == if k in groups then groups[k] else []
      invariant forall k :: k in groups ==> groups[k] != []
    {
      var f := inv[i];
      ghost var before := groups;
      assert inv[..i + 1] == inv[..i] + [f];
      var found := key(f);
      if found.Some? {
        groups := groups[found.value := (if found.value in groups then groups[found.value] else []) + [f]];
      }
      forall k ensures Having(inv[..i + 1], key, k) == if k in groups then groups[k] else [] {
        HavingSnoc(inv[..i], f, key, k);
      }
    }
    assert inv[..|inv|] == inv;
    forall k ensures k in groups <==> exists f :: f in inv && key(f) == Some(k) {
      HavingMembers(inv, key, k);
      if k in groups {
        assert groups[k][0] in groups[k];
      }
    }
  }

  const groupOf: PciFunction -> Option<nat> := (f: PciFunction) => f.iommuGroup

  const slotOf: PciFunction -> Option<(nat, nat, nat)> := (f: PciFunction) => SlotKey(f.bdf)

  /** The members of IOMMU group gid, in inventory order. */
  function Members(inv: Inventory, gid: nat): seq<PciFunction> {
    Having(inv, groupOf, gid)
  }

  // ---------- Slots and GPU complexes ----------

  /** (domain, bus, device) of "dddd:bb:dd.f", or None when the BDF is malformed. */
  function SlotKey(bdf: string): Option<(nat, nat, nat)> {
    var parts := Split(bdf, ':');
    if |parts| != 3 then None
    else
      var devfn := Split(parts[2], '.');
      if |devfn| != 2 then None
      else if |parts[0]| != 4 || |parts[1]| != 2 || |devfn[0]| != 2 || devfn[1] == "" then None
      else
        match (ParseHex(parts[0], 0x1_0000), ParseHex(parts[1], 0x100), ParseHex(devfn[0], 0x100))
        case (Some(domain), Some(bus), Some(dev)) => Some((domain, bus, dev))
        case _ => None
  }

  /** "dddd:bb:dd.f". */
  function AddressOf(domain: nat, bus: nat, dev: nat, func: string): string {
    Hex2(domain / 0x100) + Hex2(domain) + [':'] + (Hex2(bus) + [':'] + (Hex2(dev) + ['.'] + func))
  }

  lemma AddressParts(domain: nat, bus: nat, dev: nat, func: string)
    requires domain < 0x1_0000 && bus < 0x100 && dev < 0x100 && ':' !in func && '.' !in func
    ensures Split(AddressOf(domain, bus, dev, func), ':')
            == [Hex2(domain / 0x100) + Hex2(domain), Hex2(bus), Hex2(dev) + ['.'] + func]
    ensures Split(Hex2(dev) + ['.'] + func, '.') == [Hex2(dev), func]
  {
    var tail := Hex2(dev) + ['.'] + func;
    Hex4Reads(domain);
    Hex2Digits(bus);
    Hex2Digits(dev);
    SplitSingle(func, '.');
    SplitFirst(Hex2(dev), func, '.');
    SplitSingle(tail, ':');
    SplitFirst(Hex2(bus), tail, ':');
    SplitFirst(Hex2(domain / 0x100) + Hex2(domain), Hex2(bus) + [':'] + tail, ':');
  }

  /** An address in the form that sysfs uses reads back as its domain, bus and device. */
  lemma SlotReads(domain: nat, bus: nat, dev: nat, func: string)
    requires domain < 0x1_0000 && bus < 0x100 && dev < 0x100 && func != "" && ':' !in func && '.' !in func
    ensures SlotKey(AddressOf(domain, bus, dev, func)) == Some((domain, bus, dev))
  {
    AddressParts(domain, bus, dev, func);
    Hex4Reads(domain);
    Hex2Reads(bus);
    Hex2Reads(dev);
  }

  /** What a class code says: base, subclass and programming interface are its three bytes. */
  lemma ClassReads(f: PciFunction, base: nat, sub: nat, interface: nat)
    requires base < 0x100 && sub < 0x100 && interface < 0x100
    requires f.classCode == base * 0x1_0000 + sub * 0x100 + interface
    ensures f.IsDisplayController() <==> base == 0x03
    ensures f.IsNetworkController() <==> base == 0x02
    ensures f.IsNvme() <==> base == 0x01 && sub == 0x08
    ensures f.IsUsbController() <==> base == 0x0c && sub == 0x03
  {
    assert f.classCode / 0x1_0000 == base && f.classCode / 0x100 == base * 0x100 + sub;
  }

  ghost predicate SameSlot(f: PciFunction, g: PciFunction) {
    SlotKey(f.bdf).Some? && SlotKey(f.bdf) == SlotKey(g.bdf)
  }

  ghost predicate InGpuComplex(inv: Inventory, bdf: string) {
    exists f, g :: f in inv && g in inv && f.bdf == bdf && SameSlot(f, g) && g.IsDisplayController()
  }

  method IsBdfInGpuComplex(inv: Inventory, bdf: string) returns (r: bool)
    ensures r <==> InGpuComplex(inv, bdf)
  {
    var key := SlotKey(bdf);
    if key.None? {
      return false;
    }
    var found := FindByBdf(inv, bdf);
    if found.None? {
      return false;
    }
    for i := 0 to |inv|
      invariant forall g :: g in inv[..i] ==> !(SlotKey(g.bdf) == key && g.IsDisplayController())
    {
      if SlotKey(inv[i].bdf) == key && inv[i].IsDisplayController() {
        assert SameSlot(found.value, inv[i]);
        return true;
      }
      assert inv[..i + 1] == inv[..i] + [inv[i]];
    }
    assert inv[..|inv|] == inv;
    return false;
  }

  // ---------- GPU ownership and unbind assessment ----------

  datatype GpuSafetyClass = VfioReady | HostOwned | Unknown

  function GpuSafety(f: PciFunction): Option<GpuSafetyClass> {
    if !f.IsDisplayController() then None
    else if f.driver.None? then Some(Unknown)
    else if f.driver.value == VFIO then Some(VfioReady)
    else if f.driver.value in {"amdgpu", "radeon", "nvidia", "nouveau"} then Some(HostOwned)
    else Some(Unknown)
  }

  datatype Feasibility = Safe | Risky | Unsafe

  /** Feasibility from the safety class and the group, once "already on vfio-pci" is handled. */
  function EvaluateUnbind(gpu: PciFunction, safety: GpuSafetyClass, members: seq<PciFunction>): Feasibility {
    match safety
    case VfioReady =>
      if forall m :: m in members && m.bdf != gpu.bdf ==>
           m.IsDisplayController() && (m.OnVfio() || m.driver.None?)
      then Safe else Risky
    case HostOwned => Risky
    case Unknown => Risky
  }

  datatype Assessment = Assessment(bdf: string, safety: GpuSafetyClass, groupMembers: seq<string>,
                                   feasibility: Feasibility)

  function OtherMembers(inv: Inventory, gpu: PciFunction): seq<string> {
    if gpu.iommuGroup.None? then []
    else BdfsExcept(Members(inv, gpu.iommuGroup.value), gpu.bdf)
  }

  function BdfsExcept(fs: seq<PciFunction>, bdf: string): seq<string> {
    if fs == [] then []
    else (if fs[0].bdf != bdf then [fs[0].bdf] else []) + BdfsExcept(fs[1..], bdf)
  }

  lemma {:induction false} BdfsExceptAppend(a: seq<PciFunction>, b: seq<PciFunction>, bdf: string)
    ensures BdfsExcept(a + b, bdf) == BdfsExcept(a, bdf) + BdfsExcept(b, bdf)
  {
    if a == [] {
      assert a + b == b;
    } else {
      assert (a + b)[1..] == a[1..] + b;
      BdfsExceptAppend(a[1..], b, bdf);
    }
  }

  /** What the assessment of display controller g must say. A GPU is Safe to take exactly
      when it already sits on vfio-pci; of the others, one without an IOMMU group is
      Unsafe and the rest are Risky. */
  ghost predicate IsAssessmentOf(inv: Inventory, g: PciFunction, a: Assessment) {
    && a.bdf == g.bdf
    && GpuSafety(g) == Some(a.safety)
    && a.groupMembers == OtherMembers(inv, g)
    && (a.feasibility.Safe? <==> g.OnVfio())
    && (a.feasibility.Unsafe? <==> !g.OnVfio() && g.iommuGroup.None?)
  }

  method CollectBdfsExcept(fs: seq<PciFunction>, bdf: string) returns (members: seq<string>)
    ensures members == BdfsExcept(fs, bdf)
  {
    members := [];
    for k := 0 to |fs|
      invariant members == BdfsExcept(fs[..k], bdf)
    {
      assert fs[..k + 1] == fs[..k] + [fs[k]];
      BdfsExceptAppend(fs[..k], [fs[k]], bdf);
      if fs[k].bdf != bdf {
        members := members + [fs[k].bdf];
      }
    }
    assert fs[..|fs|] == fs;
  }

  method AssessOne(inv: Inventory, groups: map<nat, seq<PciFunction>>, gpu: PciFunction) returns (a: Assessment)
    requires gpu in inv && gpu.IsDisplayController()
    requires forall gid :: gid in groups ==> groups[gid] == Members(inv, gid)
    requires gpu.iommuGroup.Some? ==> gpu.iommuGroup.value in groups
    ensures IsAssessmentOf(inv, gpu, a)
  {
    var safety := GpuSafety(gpu).value;
    var members: seq<string> := [];
    if gpu.iommuGroup.Some? && gpu.iommuGroup.value in groups {
      members := CollectBdfsExcept(groups[gpu.iommuGroup.value], gpu.bdf);
    }
    var feasibility :=
      if gpu.OnVfio() then Safe
      else if gpu.iommuGroup.None? then Unsafe
      else if gpu.iommuGroup.value !in groups then Risky
      else EvaluateUnbind(gpu, safety, groups[gpu.iommuGroup.value]);
    a := Assessment(gpu.bdf, safety, members, feasibility);
  }

  function Gpus(inv: Inventory): seq<PciFunction> {
    Filter((f: PciFunction) => f.IsDisplayController(), inv)
  }

  /** One assessment per display controller, in inventory order. */
  ghost predicate AssessmentsOf(inv: Inventory, out: seq<Assessment>) {
    var gpus := Gpus(inv);
    |out| == |gpus| && forall i :: 0 <= i < |gpus| ==> IsAssessmentOf(inv, gpus[i], out[i])
  }

  lemma GpusAre(inv: Inventory)
    ensures forall f :: f in Gpus(inv) <==> f in inv && f.IsDisplayController()
  {
    forall f ensures f in Gpus(inv) <==> f in inv && f.IsDisplayController() {
      FilterMember((f: PciFunction) => f.IsDisplayController(), inv, f);
    }
  }

  method AssessGpuUnbindSafety(inv: Inventory) returns (out: seq<Assessment>)
    ensures AssessmentsOf(inv, out)
  {
    var groups := GroupBy(inv, groupOf);
    var gpus := Gpus(inv);
    GpusAre(inv);
    out := [];
    for i := 0 to |gpus|
      invariant |out| == i
      invariant forall k :: 0 <= k < i ==> IsAssessmentOf(inv, gpus[k], out[k])
    {
      var a := AssessOne(inv, groups, gpus[i]);
      out := out + [a];
    }
  }
}
