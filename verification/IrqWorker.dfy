/** The background worker that pins device interrupts to VM CPUs while QEMU runs. */
module IrqWorker {
  import opened Prelude
  import opened Config
  import opened Text
  import opened CpuList
  import CpuPlan
  import Sorting
  import Pci

  // ---------- Auxiliary GPU functions ----------

  /** Slot and decimal function number of "dddd:bb:dd.f". */
  function SlotAndFunction(bdf: string): Option<((nat, nat, nat), nat)> {
    var slot := Pci.SlotKey(bdf);
    if slot.None? then None
    else
      match ParseUnsigned(Split(Split(bdf, ':')[2], '.')[1], 10, 0x100)
      case None => None
      case Some(func) => Some((slot.value, func))
  }

  /** A function's address in the form that sysfs uses reads back as its slot and number. */
  lemma FunctionReads(domain: nat, bus: nat, dev: nat, func: nat)
    requires domain < 0x1_0000 && bus < 0x100 && dev < 0x100 && func < 0x100
    ensures SlotAndFunction(Pci.AddressOf(domain, bus, dev, ToDec(func))) == Some(((domain, bus, dev), func))
  {
    var text := ToDec(func);
    DecHasNo(func, ':');
    DecHasNo(func, '.');
    DecReads(func);
    Pci.AddressParts(domain, bus, dev, text);
    Pci.SlotReads(domain, bus, dev, text);
    assert Split(Split(Pci.AddressOf(domain, bus, dev, text), ':')[2], '.')[1] == text;
  }

  lemma DecReads(n: nat)
    requires n < 0x100
    ensures ParseUnsigned(ToDec(n), 10, 0x100) == Some(n)
  {
    assert ToDec(n)[0] in ToDec(n);
  }

  lemma DecHasNo(n: nat, c: char)
    requires DigitOf(c, 10).None?
    ensures c !in ToDec(n)
  {}

  type Key = Option<((nat, nat, nat), nat)>

  function Keys(gpus: seq<DeviceCfg>): seq<Key> {
    seq(|gpus|, i requires 0 <= i < |gpus| => SlotAndFunction(gpus[i].address))
  }

  predicate InSlot(key: Key, slot: (nat, nat, nat)) {
    key.Some? && key.value.0 == slot
  }

  /** A non-zero function of a slot that two of the entries, one of them function 0, name. */
  ghost predicate AuxAmong(key: Key, entries: seq<Key>) {
    && key.Some? && key.value.1 != 0
    && Some((key.value.0, 0)) in entries
    && exists i, j :: 0 <= i < j < |entries| && InSlot(entries[i], key.value.0) && InSlot(entries[j], key.value.0)
  }

  /** An auxiliary GPU function, going by the configured GPU entries alone. */
  ghost predicate IsAux(address: string, gpus: seq<DeviceCfg>) {
    AuxAmong(SlotAndFunction(address), Keys(gpus))
  }

  method IsAuxGpuFunction(address: string, gpus: seq<DeviceCfg>) returns (aux: bool)
    ensures aux <==> IsAux(address, gpus)
  {
    var key := SlotAndFunction(address);
    if key.None? {
      return false;
    }
    aux := CountsAsAux(key, Keys(gpus));
  }

  method CountsAsAux(key: Key, entries: seq<Key>) returns (aux: bool)
    requires key.Some?
    ensures aux <==> AuxAmong(key, entries)
  {
    var (slot, func) := key.value;
    var count, hasFunc0 := 0, false;
    ghost var last := 0;
    for n := 0 to |entries|
      invariant hasFunc0 <==> Some((slot, 0)) in entries[..n]
      invariant count == 0 <==> forall i :: 0 <= i < n ==> !InSlot(entries[i], slot)
      invariant count > 0 ==> 0 <= last < n && InSlot(entries[last], slot)
      invariant count > 1 <==> exists i, j :: 0 <= i < j < n && InSlot(entries[i], slot) && InSlot(entries[j], slot)
    {
      assert entries[..n + 1] == entries[..n] + [entries[n]];
      if InSlot(entries[n], slot) {
        count := count + 1;
        last := n;
        if entries[n].value.1 == 0 {
          hasFunc0 := true;
        }
      }
    }
    assert entries[..|entries|] == entries;
    aux := count > 1 && hasFunc0 && func != 0;
  }

  // ---------- Target CPUs ----------

  /** What sysfs says: a device's NUMA node, if readable, and a node's CPU list text. */
  datatype Sysfs = Sysfs(deviceNode: string -> Option<int>, nodeText: nat -> Option<string>)
  {
    function NodeCpus(node: nat): Option<seq<nat>> {
      match nodeText(node)
      case None => None
      case Some(text) => StrictReading(Trim(text))
    }

    /** The device's node, when it has one. */
    function NodeOf(address: string): Option<nat> {
      match deviceNode(address)
      case None => None
      case Some(n) => if n >= 0 then Some(n) else None
    }
  }

  function Targets(vm: seq<nat>, sys: Sysfs, address: string): Option<seq<nat>> {
    match sys.NodeOf(address)
    case None => Some(vm)
    case Some(node) =>
      match sys.NodeCpus(node)
      case None => None
      case Some(cpus) =>
        var local := CpuPlan.Intersect(vm, cpus);
        if local == [] then None else Some(local)
  }

  lemma {:induction false} IntersectSnoc(s: seq<nat>, x: nat, keep: seq<nat>)
    ensures CpuPlan.Intersect(s + [x], keep) == CpuPlan.Intersect(s, keep) + if x in keep then [x] else []
  {
    if s == [] {
      assert s + [x] == [x] && [x][1..] == [];
    } else {
      assert (s + [x])[1..] == s[1..] + [x];
      IntersectSnoc(s[1..], x, keep);
    }
  }

  method IntersectCpus(a: seq<nat>, b: seq<nat>) returns (out: seq<nat>)
    ensures out == CpuPlan.Intersect(a, b)
  {
    out := [];
    for i := 0 to |a|
      invariant out == CpuPlan.Intersect(a[..i], b)
    {
      IntersectSnoc(a[..i], a[i], b);
      assert a[..i + 1] == a[..i] + [a[i]];
      if a[i] in b {
        out := out + [a[i]];
      }
    }
    assert a[..|a|] == a;
  }

  method TargetCpusForDevice(vm: seq<nat>, sys: Sysfs, address: string) returns (r: Option<seq<nat>>)
    ensures r == Targets(vm, sys, address)
  {
    var node := sys.NodeOf(address);
    if node.None? {
      return Some(vm);
    }
    var cpus := sys.NodeCpus(node.value);
    if cpus.None? {
      return None;
    }
    var local := IntersectCpus(vm, cpus.value);
    return if local == [] then None else Some(local);
  }

  // ---------- Work items ----------

  datatype Item = Item(address: string, targets: seq<nat>)

  ghost function ItemsOf(devices: seq<DeviceCfg>, gpus: seq<DeviceCfg>, vm: seq<nat>, sys: Sysfs): seq<Item> {
    if devices == [] then []
    else
      var last := devices[|devices| - 1];
      var front := ItemsOf(devices[..|devices| - 1], gpus, vm, sys);
      if IsAux(last.address, gpus) then front
      else
        match Targets(vm, sys, last.address)
        case None => front
        case Some(cpus) => front + [Item(last.address, cpus)]
  }

  /** it is the work for device d: not auxiliary, with known target CPUs. */
  ghost predicate IsItemOf(d: DeviceCfg, gpus: seq<DeviceCfg>, vm: seq<nat>, sys: Sysfs, it: Item) {
    d.address == it.address && !IsAux(d.address, gpus) && Targets(vm, sys, d.address) == Some(it.targets)
  }

  /** The worker handles exactly the non-auxiliary devices whose target CPUs are known. */
  lemma {:induction false} ItemsAre(devices: seq<DeviceCfg>, gpus: seq<DeviceCfg>, vm: seq<nat>, sys: Sysfs, it: Item)
    ensures it in ItemsOf(devices, gpus, vm, sys) <==> exists d :: d in devices && IsItemOf(d, gpus, vm, sys, it)
  {
    if devices != [] {
      var front, last := devices[..|devices| - 1], devices[|devices| - 1];
      ItemsAre(front, gpus, vm, sys, it);
      assert devices == front + [last];
      assert last in devices && forall d :: d in devices <==> d in front || d == last;
    }
  }

  /** At most one item for each device, in the order of the devices. */
  lemma {:induction false} ItemsInOrder(a: seq<DeviceCfg>, b: seq<DeviceCfg>, gpus: seq<DeviceCfg>, vm: seq<nat>,
                                        sys: Sysfs)
    ensures ItemsOf(a + b, gpus, vm, sys) == ItemsOf(a, gpus, vm, sys) + ItemsOf(b, gpus, vm, sys)
    ensures |ItemsOf(b, gpus, vm, sys)| <= |b|
  {
    if b == [] {
      assert a + b == a;
      assert ItemsOf(a, gpus, vm, sys) + [] == ItemsOf(a, gpus, vm, sys);
    } else {
      var front, last := b[..|b| - 1], b[|b| - 1];
      ItemsInOrder(a, front, gpus, vm, sys);
      assert (a + b)[..|a + b| - 1] == a + front && (a + b)[|a + b| - 1] == last;
      if !IsAux(last.address, gpus) && Targets(vm, sys, last.address).Some? {
        Regroup(ItemsOf(a, gpus, vm, sys), ItemsOf(front, gpus, vm, sys),
                [Item(last.address, Targets(vm, sys, last.address).value)]);
      }
    }
  }

  method CollectItems(devices: seq<DeviceCfg>, gpus: seq<DeviceCfg>, vm: seq<nat>, sys: Sysfs)
      returns (items: seq<Item>)
    ensures items == ItemsOf(devices, gpus, vm, sys)
  {
    items := [];
    for i := 0 to |devices|
      invariant items == ItemsOf(devices[..i], gpus, vm, sys)
    {
      assert devices[..i + 1][..i] == devices[..i];
      var aux := IsAuxGpuFunction(devices[i].address, gpus);
      if !aux {
        var cpus := TargetCpusForDevice(vm, sys, devices[i].address);
        if cpus.Some? {
          items := items + [Item(devices[i].address, cpus.value)];
        }
      }
    }
    assert devices[..|devices|] == devices;
  }

  // ---------- Polling ----------

  /** What one pass meets: whether QEMU is alive when it starts, and the interrupts listed
      for each item at the moment the pass looks at it. */
  datatype PassEnv = PassEnv(alive: bool, irqs: nat -> seq<nat>)

  /** One attempt to write an interrupt's affinity. */
  datatype Pin = Pin(item: nat, irq: nat, text: string)

  datatype Work = Work(done: seq<bool>, completed: nat, pins: seq<Pin>)

  function Start(n: nat): Work {
    Work(seq(n, _ => false), 0, [])
  }

  function PinsFor(item: nat, irqs: seq<nat>, text: string): seq<Pin> {
    seq(|irqs|, j requires 0 <= j < |irqs| => Pin(item, irqs[j], text))
  }

  function Visit(items: seq<Item>, env: PassEnv, w: Work, k: nat): Work
    requires k < |items| == |w.done|
  {
    if w.done[k] || env.irqs(k) == [] then w
    else Work(w.done[k := true], w.completed + 1, w.pins + PinsFor(k, env.irqs(k), CanonicalText(items[k].targets)))
  }

  /** The work after a pass has looked at the first k items. */
  function PassTo(items: seq<Item>, env: PassEnv, w: Work, k: nat): (r: Work)
    requires k <= |items| == |w.done|
    ensures |r.done| == |w.done|
  {
    if k == 0 then w else Visit(items, env, PassTo(items, env, w, k - 1), k - 1)
  }

  datatype Exit = StillPolling | AllDone | QemuGone | NothingToDo

  function Poll(items: seq<Item>, envs: seq<PassEnv>, w: Work): (Work, Exit)
    requires |items| == |w.done|
  {
    if w.completed >= |items| then (w, AllDone)
    else if envs == [] then (w, StillPolling)
    else if !envs[0].alive then (w, QemuGone)
    else Poll(items, envs[1..], PassTo(items, envs[0], w, |items|))
  }

  method PinItem(items: seq<Item>, env: PassEnv, w: Work, k: nat) returns (w': Work)
    requires k < |items| == |w.done| && !w.done[k] && env.irqs(k) != []
    ensures w' == Visit(items, env, w, k)
  {
    var text := FormatCpuList(items[k].targets);
    var irqs := env.irqs(k);
    var pins := w.pins;
    for j := 0 to |irqs|
      invariant pins == w.pins + PinsFor(k, irqs, text)[..j]
    {
      pins := pins + [Pin(k, irqs[j], text)];
    }
    w' := Work(w.done[k := true], w.completed + 1, pins);
  }

  method RunPass(items: seq<Item>, env: PassEnv, before: Work) returns (work: Work)
    requires |items| == |before.done|
    ensures work == PassTo(items, env, before, |items|)
  {
    work := before;
    for k := 0 to |items|
      invariant work == PassTo(items, env, before, k)
    {
      if !work.done[k] && env.irqs(k) != [] {
        work := PinItem(items, env, work, k);
      }
    }
  }

  method PollUntilDone(items: seq<Item>, envs: seq<PassEnv>) returns (work: Work, exit: Exit)
    ensures (work, exit) == Poll(items, envs, Start(|items|))
  {
    work := Start(|items|);
    var n := 0;
    assert envs[0..] == envs;
    while work.completed < |items|
      invariant 0 <= n <= |envs| && |work.done| == |items|
      invariant Poll(items, envs, Start(|items|)) == Poll(items, envs[n..], work)
      decreases |envs| - n
    {
      if n == |envs| {
        return work, StillPolling;
      }
      assert envs[n..][0] == envs[n] && envs[n..][1..] == envs[n + 1..];
      if !envs[n].alive {
        return work, QemuGone;
      }
      work := RunPass(items, envs[n], work);
      n := n + 1;
    }
    exit := AllDone;
  }

  /** The worker over a schedule of passes. The schedule is finite, of any length, so that
      every moment of an unbounded run is the end of some schedule. */
  method IrqWorker(vm: seq<nat>, devices: Devices, sys: Sysfs, ddcConfigured: bool, envs: seq<PassEnv>)
      returns (work: Work, exit: Exit, ddcSwitches: nat)
    ensures var items := ItemsOf(devices.All(), devices.gpu, vm, sys);
      (work, exit) == if items == [] then (Start(0), NothingToDo) else Poll(items, envs, Start(|items|))
    ensures ddcSwitches == if exit == AllDone && ddcConfigured then 1 else 0
  {
    ddcSwitches := 0;
    var items := CollectItems(devices.All(), devices.gpu, vm, sys);
    if items == [] {
      return Start(0), NothingToDo, 0;
    }
    work, exit := PollUntilDone(items, envs);
    if exit == AllDone && ddcConfigured {
      ddcSwitches := ddcSwitches + 1;
    }
  }

  // ---------- What polling does ----------

  function CountDone(done: seq<bool>): nat {
    if done == [] then 0 else CountDone(done[..|done| - 1]) + if done[|done| - 1] then 1 else 0
  }

  lemma {:induction false} CountSet(done: seq<bool>, k: nat)
    requires k < |done| && !done[k]
    ensures CountDone(done[k := true]) == CountDone(done) + 1
  {
    var n := |done| - 1;
    if k == n {
      assert done[k := true][..n] == done[..n];
    } else {
      CountSet(done[..n], k);
      assert done[k := true][..n] == done[..n][k := true];
    }
  }

  lemma {:induction false} CountFull(done: seq<bool>)
    ensures CountDone(done) <= |done|
    ensures CountDone(done) == |done| <==> forall k :: 0 <= k < |done| ==> done[k]
  {
    if done != [] {
      CountFull(done[..|done| - 1]);
    }
  }

  /** Some pass has listed interrupts for item k. */
  ghost predicate Seen(envs: seq<PassEnv>, k: nat) {
    exists p :: 0 <= p < |envs| && envs[p].irqs(k) != []
  }

  /** The interrupts item k had in the first pass that listed any. */
  function FirstIrqs(envs: seq<PassEnv>, k: nat): seq<nat> {
    if envs == [] then []
    else if envs[0].irqs(k) != [] then envs[0].irqs(k)
    else FirstIrqs(envs[1..], k)
  }

  function PinsOfItem(pins: seq<Pin>, k: nat): seq<Pin> {
    Filter((p: Pin) => p.item == k, pins)
  }

  /** Item k is done exactly when some pass in `past` listed interrupts for it, and its pins
      are those of the first such pass. */
  ghost predicate ItemAccounted(items: seq<Item>, past: seq<PassEnv>, w: Work, k: nat)
    requires k < |items| == |w.done|
  {
    && (w.done[k] <==> FirstIrqs(past, k) != [])
    && PinsOfItem(w.pins, k) == PinsFor(k, FirstIrqs(past, k), CanonicalText(items[k].targets))
  }

  /** The work once the passes in `past` have run: every item is accounted for, nothing is
      counted twice, and nothing else was pinned. */
  ghost predicate Accounted(items: seq<Item>, past: seq<PassEnv>, w: Work) {
    && |w.done| == |items|
    && w.completed == CountDone(w.done)
    && (forall k :: 0 <= k < |items| ==> ItemAccounted(items, past, w, k))
    && (forall p :: p in w.pins ==> p.item < |items|)
  }

  lemma {:induction false} SeenIff(envs: seq<PassEnv>, k: nat)
    ensures Seen(envs, k) <==> FirstIrqs(envs, k) != []
  {
    if envs != [] && envs[0].irqs(k) == [] {
      SeenIff(envs[1..], k);
      if Seen(envs, k) {
        var p :| 0 <= p < |envs| && envs[p].irqs(k) != [];
        assert envs[1..][p - 1] == envs[p];
      } else {
        assert forall p :: 0 <= p < |envs[1..]| ==> envs[1..][p] == envs[p + 1];
      }
    }
  }

  lemma {:induction false} FirstIrqsSnoc(past: seq<PassEnv>, env: PassEnv, k: nat)
    ensures FirstIrqs(past + [env], k) == if FirstIrqs(past, k) != [] then FirstIrqs(past, k) else env.irqs(k)
  {
    if past == [] {
      assert past + [env] == [env] && [env][1..] == [];
    } else {
      assert (past + [env])[1..] == past[1..] + [env];
      FirstIrqsSnoc(past[1..], env, k);
    }
  }

  lemma PinsOfOther(pins: seq<Pin>, k: nat, item: nat, irqs: seq<nat>, text: string)
    ensures PinsOfItem(pins + PinsFor(item, irqs, text), k) ==
            PinsOfItem(pins, k) + if item == k then PinsFor(item, irqs, text) else []
  {
    FilterAppend((p: Pin) => p.item == k, pins, PinsFor(item, irqs, text));
    if item == k {
      FilterAll((p: Pin) => p.item == k, PinsFor(item, irqs, text));
    } else {
      FilterNone((p: Pin) => p.item == k, PinsFor(item, irqs, text));
    }
  }

  /** A pass has looked at the first n items. */
  ghost predicate MidPass(items: seq<Item>, past: seq<PassEnv>, env: PassEnv, w: Work, n: nat) {
    && n <= |items| == |w.done| && w.completed == CountDone(w.done)
    && (forall k :: 0 <= k < n ==> ItemAccounted(items, past + [env], w, k))
    && (forall k :: n <= k < |items| ==> ItemAccounted(items, past, w, k))
    && (forall p :: p in w.pins ==> p.item < |items|)
  }

  lemma {:induction false} PassKeepsAccount(items: seq<Item>, past: seq<PassEnv>, env: PassEnv, w: Work, n: nat)
    requires n <= |items| && MidPass(items, past, env, w, 0)
    ensures MidPass(items, past, env, PassTo(items, env, w, n), n)
  {
    if n > 0 {
      PassKeepsAccount(items, past, env, w, n - 1);
      PassNext(items, env, w, n);
      VisitKeepsAccount(items, past, env, PassTo(items, env, w, n - 1), n - 1, PassTo(items, env, w, n));
    }
  }

  lemma PassNext(items: seq<Item>, env: PassEnv, w: Work, n: nat)
    requires 0 < n <= |items| == |w.done|
    ensures PassTo(items, env, w, n) == Visit(items, env, PassTo(items, env, w, n - 1), n - 1)
  {}

  lemma VisitKeepsAccount(items: seq<Item>, past: seq<PassEnv>, env: PassEnv, w: Work, n: nat, r: Work)
    requires n < |items| && MidPass(items, past, env, w, n) && r == Visit(items, env, w, n)
    ensures MidPass(items, past, env, r, n + 1)
  {
    FirstIrqsSnoc(past, env, n);
    assert ItemAccounted(items, past, w, n);
    if !w.done[n] && env.irqs(n) != [] {
      CountSet(w.done, n);
      var text := CanonicalText(items[n].targets);
      forall k | 0 <= k < |items|
        ensures PinsOfItem(r.pins, k) == PinsOfItem(w.pins, k) + if k == n then PinsFor(n, env.irqs(n), text) else []
      {
        PinsOfOther(w.pins, k, n, env.irqs(n), text);
      }
      assert PinsOfItem(w.pins, n) == [] && PinsOfItem(r.pins, n) == PinsFor(n, env.irqs(n), text);
      assert ItemAccounted(items, past + [env], r, n);
      forall k | 0 <= k < n ensures ItemAccounted(items, past + [env], r, k) {
        assert ItemAccounted(items, past + [env], w, k);
      }
      forall k | n < k < |items| ensures ItemAccounted(items, past, r, k) {
        assert ItemAccounted(items, past, w, k);
      }
    } else {
      assert ItemAccounted(items, past + [env], r, n);
    }
  }

  lemma StartAccounted(items: seq<Item>)
    ensures Accounted(items, [], Start(|items|))
  {
    CountNone(|items|);
  }

  lemma {:induction false} CountNone(n: nat)
    ensures CountDone(seq(n, _ => false)) == 0
  {
    if n > 0 {
      CountNone(n - 1);
      assert seq(n, _ => false)[..n - 1] == seq(n - 1, _ => false);
    }
  }

  /** Polling made `ran` passes and ended with `exit`: every pass made found QEMU alive and,
      before it, some item not yet seen. */
  ghost predicate EndsAt(items: seq<Item>, past: seq<PassEnv>, envs: seq<PassEnv>, ran: nat, exit: Exit) {
    && ran <= |envs|
    && (forall p :: 0 <= p < ran ==> envs[p].alive && !AllSeen(items, past + envs[..p]))
    && (exit == AllDone <==> AllSeen(items, past + envs[..ran]))
    && (exit == QemuGone <==> !AllSeen(items, past + envs[..ran]) && ran < |envs| && !envs[ran].alive)
    && (exit == StillPolling <==> !AllSeen(items, past + envs[..ran]) && ran == |envs|)
  }

  lemma EndsOneLater(items: seq<Item>, past: seq<PassEnv>, envs: seq<PassEnv>, ran: nat, exit: Exit)
    requires envs != [] && envs[0].alive && !AllSeen(items, past)
    requires EndsAt(items, past + [envs[0]], envs[1..], ran, exit)
    ensures EndsAt(items, past, envs, ran + 1, exit)
    ensures past + [envs[0]] + envs[1..][..ran] == past + envs[..ran + 1]
  {
    ShiftPrefix(past, envs, ran);
    forall p | 0 <= p < ran + 1 ensures envs[p].alive && !AllSeen(items, past + envs[..p]) {
      if p > 0 {
        ShiftPrefix(past, envs, p - 1);
        assert envs[1..][p - 1] == envs[p];
      } else {
        assert past + envs[..0] == past;
      }
    }
  }

  lemma ShiftPrefix(past: seq<PassEnv>, envs: seq<PassEnv>, n: nat)
    requires n < |envs|
    ensures past + [envs[0]] + envs[1..][..n] == past + envs[..n + 1]
  {}

  lemma DoneWhenAllSeen(items: seq<Item>, past: seq<PassEnv>, w: Work)
    requires Accounted(items, past, w)
    ensures w.completed >= |items| <==> AllSeen(items, past)
  {
    CountFull(w.done);
    forall k | 0 <= k < |items| ensures Seen(past, k) <==> w.done[k] {
      assert ItemAccounted(items, past, w, k);
      SeenIff(past, k);
    }
  }

  lemma WholePassKeepsAccount(items: seq<Item>, past: seq<PassEnv>, env: PassEnv, w: Work)
    requires Accounted(items, past, w)
    ensures Accounted(items, past + [env], PassTo(items, env, w, |items|))
  {
    PassKeepsAccount(items, past, env, w, |items|);
  }

  lemma {:induction false} PollOutcome(items: seq<Item>, past: seq<PassEnv>, envs: seq<PassEnv>, w: Work)
      returns (ran: nat)
    requires Accounted(items, past, w)
    ensures EndsAt(items, past, envs, ran, Poll(items, envs, w).1)
    ensures Accounted(items, past + envs[..ran], Poll(items, envs, w).0)
    decreases |envs|
  {
    DoneWhenAllSeen(items, past, w);
    assert past + envs[..0] == past;
    if AllSeen(items, past) || envs == [] || !envs[0].alive {
      ran := 0;
    } else {
      WholePassKeepsAccount(items, past, envs[0], w);
      var next := PassTo(items, envs[0], w, |items|);
      var rest := PollOutcome(items, past + [envs[0]], envs[1..], next);
      EndsOneLater(items, past, envs, rest, Poll(items, envs, w).1);
      ran := rest + 1;
    }
  }

  ghost predicate AllSeen(items: seq<Item>, envs: seq<PassEnv>) {
    forall k :: 0 <= k < |items| ==> Seen(envs, k)
  }

  /** From the start: the worker leaves the loop only when every item has been seen or QEMU
      is gone; each seen item was pinned in its first sighting and never again, and no other
      item was ever pinned. */
  lemma WorkerOutcome(items: seq<Item>, envs: seq<PassEnv>) returns (ran: nat)
    ensures EndsAt(items, [], envs, ran, Poll(items, envs, Start(|items|)).1)
    ensures Accounted(items, envs[..ran], Poll(items, envs, Start(|items|)).0)
  {
    StartAccounted(items);
    ran := PollOutcome(items, [], envs, Start(|items|));
    assert [] + envs[..ran] == envs[..ran];
  }

  /** A pass lowers the number of open items exactly when it finds interrupts for one. */
  lemma {:induction false} ProgressIff(items: seq<Item>, env: PassEnv, w: Work, n: nat)
    requires n <= |items| == |w.done|
    ensures var r := PassTo(items, env, w, n);
      && r.completed >= w.completed
      && (r.completed > w.completed <==> exists k :: 0 <= k < n && !w.done[k] && env.irqs(k) != [])
      && (forall k :: n <= k < |items| ==> r.done[k] == w.done[k])
      && (forall k :: 0 <= k < |items| && w.done[k] ==> r.done[k])
  {
    if n > 0 {
      ProgressIff(items, env, w, n - 1);
    }
  }

  /** What the text of a pin for this device says. */
  ghost predicate RightCpus(vm: seq<nat>, sys: Sysfs, address: string, text: string) {
    && StrictReading(text).Some?
    && var cpus, node := StrictReading(text).value, sys.deviceNode(address);
       if node.None? || node.value < 0 then forall c :: c in cpus <==> c in vm
       else
         && cpus != [] && sys.nodeText(node.value).Some?
         && var listed := StrictReading(Trim(sys.nodeText(node.value).value));
            listed.Some? && forall c :: c in cpus <==> c in vm && c in listed.value
  }

  lemma TargetsAreRight(vm: seq<nat>, sys: Sysfs, address: string)
    requires Targets(vm, sys, address).Some? && forall c :: c in vm ==> c < U32_BOUND
    ensures RightCpus(vm, sys, address, CanonicalText(Targets(vm, sys, address).value))
  {
    var targets := Targets(vm, sys, address).value;
    PrintThenParse(targets);
    var cpus := Sorting.SortDedup(targets);
    assert targets != [] ==> targets[0] in cpus;
  }

  /** Every pin is for a configured, non-auxiliary device. Its text reads back as the VM's
      CPUs on the device's NUMA node, of which there is one at least, or as all of the VM's
      CPUs when the device has no node. */
  lemma PinsUseVmCpus(devices: Devices, vm: seq<nat>, sys: Sysfs, items: seq<Item>, envs: seq<PassEnv>, pin: Pin)
    returns (device: DeviceCfg)
    requires forall c :: c in vm ==> c < U32_BOUND
    requires items == ItemsOf(devices.All(), devices.gpu, vm, sys)
    requires pin in Poll(items, envs, Start(|items|)).0.pins
    ensures device in devices.All() && !IsAux(device.address, devices.gpu)
    ensures RightCpus(vm, sys, device.address, pin.text)
  {
    var ran := WorkerOutcome(items, envs);
    var w := Poll(items, envs, Start(|items|)).0;
    var targets := PinText(items, envs[..ran], w, pin);
    ItemsAre(devices.All(), devices.gpu, vm, sys, items[pin.item]);
    device :| device in devices.All() && IsItemOf(device, devices.gpu, vm, sys, items[pin.item]);
    TargetsAreRight(vm, sys, device.address);
  }

  lemma PinText(items: seq<Item>, past: seq<PassEnv>, w: Work, pin: Pin) returns (targets: seq<nat>)
    requires Accounted(items, past, w) && pin in w.pins
    ensures pin.item < |items| && targets == items[pin.item].targets && pin.text == CanonicalText(targets)
  {
    FilterMember((p: Pin) => p.item == pin.item, w.pins, pin);
    assert ItemAccounted(items, past, w, pin.item) && pin in PinsOfItem(w.pins, pin.item);
    targets := items[pin.item].targets;
  }
}
