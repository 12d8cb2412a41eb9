/** Restoring driver bindings from the transition log, and what a restore undoes. */
module VfioRestore {
  import opened Prelude
  import opened Config
  import opened Text
  import opened Pci
  import opened Isolation
  import opened VfioPlan
  import opened VfioExecute
  import BucketSort

  datatype RestoreMode = Live | DryRun

  datatype RestoreKind =
    | Succeeded
    | DryRunPlanned
    | SkippedOriginallyUnbound
    | SkippedOriginallyVfio
    | SkippedDeviceMissing
    | Failed

  datatype RestoreOutcome = RestoreOutcome(
    bdf: string,
    originalDriver: Option<string>,
    targetDriver: Option<string>,
    iommuGroup: Option<nat>,
    result: RestoreKind)

  // ---------- Ordering ----------

  /** The restore class of a transition: missing, GPU, NVMe, NIC, USB, other. */
  function Bucket(inv: Inventory, t: VfioTransition): nat {
    match FindByBdf(inv, t.bdf)
    case None => 0
    case Some(f) =>
      if f.IsDisplayController() then 1
      else if f.IsNvme() then 2
      else if f.IsNetworkController() then 3
      else if f.IsUsbController() then 4
      else 5
  }

  function ClassOf(inv: Inventory): VfioTransition -> nat {
    (t: VfioTransition) => Bucket(inv, t)
  }

  function InBucket(inv: Inventory, ts: seq<VfioTransition>, n: nat): seq<VfioTransition> {
    BucketSort.InBucket(ClassOf(inv), ts, n)
  }

  function UpTo(inv: Inventory, ts: seq<VfioTransition>, n: nat): seq<VfioTransition> {
    BucketSort.UpTo(ClassOf(inv), ts, n)
  }

  /** The order in which outcomes are produced. */
  function Ordered(inv: Inventory, ts: seq<VfioTransition>): seq<VfioTransition> {
    UpTo(inv, ts, 6)
  }

  /** The order of the outcomes is a permutation of the log ... */
  lemma OrderedPermutes(inv: Inventory, ts: seq<VfioTransition>)
    ensures multiset(Ordered(inv, ts)) == multiset(ts)
  {
    BucketSort.UpToPermutes(ClassOf(inv), ts, 6);
  }

  /** What goes first may be restored before what comes second: missing devices come before
      all others, GPUs before all that are present, then NVMe, then network, then USB
      controllers. */
  predicate MayPrecede(first: Option<PciFunction>, second: Option<PciFunction>) {
    && (second.None? ==> first.None?)
    && (second.Some? && second.value.IsDisplayController() ==> first.None? || first.value.IsDisplayController())
    && (second.Some? && second.value.IsNvme() ==>
          first.None? || first.value.IsDisplayController() || first.value.IsNvme())
    && (second.Some? && second.value.IsNetworkController() ==>
          first.None? || first.value.IsDisplayController() || first.value.IsNvme()
          || first.value.IsNetworkController())
    && (second.Some? && second.value.IsUsbController() ==>
          first.None? || first.value.IsDisplayController() || first.value.IsNvme()
          || first.value.IsNetworkController() || first.value.IsUsbController())
  }

  /** ... sorted by class (missing, GPU, NVMe, NIC, USB, other) ... */
  lemma OrderedByClass(inv: Inventory, ts: seq<VfioTransition>)
    ensures forall i, j :: 0 <= i < j < |Ordered(inv, ts)| ==>
              MayPrecede(FindByBdf(inv, Ordered(inv, ts)[i].bdf), FindByBdf(inv, Ordered(inv, ts)[j].bdf))
  {
    BucketSort.UpToSorted(ClassOf(inv), ts, 6);
    assert forall t :: ClassOf(inv)(t) == Bucket(inv, t);
  }

  /** Both missing, or both of one of the classes. */
  predicate SameClass(a: Option<PciFunction>, b: Option<PciFunction>) {
    && a.Some? == b.Some?
    && (a.Some? ==>
          && a.value.IsDisplayController() == b.value.IsDisplayController()
          && a.value.IsNvme() == b.value.IsNvme()
          && a.value.IsNetworkController() == b.value.IsNetworkController()
          && a.value.IsUsbController() == b.value.IsUsbController())
  }

  function LikeIn(inv: Inventory, r: VfioTransition): VfioTransition -> bool {
    (t: VfioTransition) => SameClass(FindByBdf(inv, t.bdf), FindByBdf(inv, r.bdf))
  }

  /** ... and stable inside each class: the entries of any one's class keep the log's order. */
  lemma OrderedStable(inv: Inventory, ts: seq<VfioTransition>, r: VfioTransition)
    ensures Filter(LikeIn(inv, r), Ordered(inv, ts)) == Filter(LikeIn(inv, r), ts)
  {
    var n := Bucket(inv, r);
    assert forall t :: LikeIn(inv, r)(t) <==> ClassOf(inv)(t) == n;
    BucketSort.UpToStable(ClassOf(inv), ts, n, 6);
    BucketSort.BucketIsFilter(ClassOf(inv), LikeIn(inv, r), ts, n);
    BucketSort.BucketIsFilter(ClassOf(inv), LikeIn(inv, r), Ordered(inv, ts), n);
  }

  // ---------- One transition ----------

  /** The recorded driver, trimmed; a blank name counts as none. */
  function OriginalDriver(t: VfioTransition): Option<string> {
    if t.fromDriver.None? || Trim(t.fromDriver.value) == "" then None
    else Some(Trim(t.fromDriver.value))
  }

  /** The driver a restore aims for, if it has to act at all. */
  function Target(t: VfioTransition): Option<string> {
    if OriginalDriver(t) == Some(VFIO) then None else OriginalDriver(t)
  }

  datatype Progress = Progress(host: HostMap, writes: nat, outcomes: seq<RestoreOutcome>)

  function MissingOutcome(t: VfioTransition): RestoreOutcome {
    RestoreOutcome(t.bdf, t.fromDriver, t.fromDriver, t.iommuGroup, SkippedDeviceMissing)
  }

  /** The result kind and the write of one transition whose device is f. */
  function RestoreOne(t: VfioTransition, inv: Inventory, k: Kernel, mode: RestoreMode, p: Progress): Progress {
    match FindByBdf(inv, t.bdf)
    case None =>
      p.(outcomes := p.outcomes + [MissingOutcome(t)])
    case Some(f) =>
      var d := OriginalDriver(t);
      var group := if t.iommuGroup.Some? then t.iommuGroup else f.iommuGroup;
      var bind := Bind(t.bdf, if d.Some? then d.value else "");
      var write := Target(t).Some? && mode == Live && f.driver != d;
      var ok := k(p.writes, p.host, bind);
      var kind :=
        if d.None? then SkippedOriginallyUnbound
        else if d.value == VFIO then SkippedOriginallyVfio
        else if mode == DryRun then DryRunPlanned
        else if write && !ok then Failed
        else Succeeded;
      Progress(if write && ok then Effect(p.host, bind) else p.host,
               if write then p.writes + 1 else p.writes,
               p.outcomes + [RestoreOutcome(t.bdf, d, d, group, kind)])
  }

  function RestoreAll(ts: seq<VfioTransition>, inv: Inventory, k: Kernel, mode: RestoreMode, p: Progress): Progress {
    if ts == [] then p
    else RestoreAll(ts[1..], inv, k, mode, RestoreOne(ts[0], inv, k, mode, p))
  }

  lemma {:induction false} RestoreAllAppend(a: seq<VfioTransition>, b: seq<VfioTransition>, inv: Inventory, k: Kernel,
                                            mode: RestoreMode, p: Progress)
    ensures RestoreAll(a + b, inv, k, mode, p) == RestoreAll(b, inv, k, mode, RestoreAll(a, inv, k, mode, p))
  {
    if a == [] {
      assert a + b == b;
    } else {
      assert (a + b)[1..] == a[1..] + b;
      RestoreAllAppend(a[1..], b, inv, k, mode, RestoreOne(a[0], inv, k, mode, p));
    }
  }

  method BindToDriver(host: Host, f: PciFunction, driver: string) returns (ok: bool)
    modifies host
    ensures Answered(if f.driver == Some(driver) then None else Some(Bind(f.bdf, driver)),
                     host.kernel, old(host.functions), old(host.writes), host.functions, host.writes, ok)
  {
    if f.driver == Some(driver) {
      return true;
    }
    ok := host.Submit(Bind(f.bdf, driver));
  }

  function Fst(items: seq<(VfioTransition, PciFunction)>): seq<VfioTransition> {
    seq(|items|, i requires 0 <= i < |items| => items[i].0)
  }

  /** Restore the devices of one class, appending one outcome per transition. */
  method RestoreGroup(items: seq<(VfioTransition, PciFunction)>, ghost inv: Inventory, host: Host, mode: RestoreMode,
                      outcomes: seq<RestoreOutcome>)
      returns (outcomes': seq<RestoreOutcome>)
    requires forall it :: it in items ==> FindByBdf(inv, it.0.bdf) == Some(it.1)
    modifies host
    ensures Progress(host.functions, host.writes, outcomes')
            == RestoreAll(Fst(items), inv, host.kernel, mode, Progress(old(host.functions), old(host.writes), outcomes))
  {
    outcomes' := outcomes;
    ghost var start := Progress(host.functions, host.writes, outcomes);
    var i := 0;
    assert Fst(items[..0]) == [];
    while i < |items|
      invariant 0 <= i <= |items|
      invariant Progress(host.functions, host.writes, outcomes')
                == RestoreAll(Fst(items[..i]), inv, host.kernel, mode, start)
    {
      var (t, f) := items[i];
      ghost var before := Progress(host.functions, host.writes, outcomes');
      var d := OriginalDriver(t);
      var group := if t.iommuGroup.Some? then t.iommuGroup else f.iommuGroup;
      if d.None? {
        outcomes' := outcomes' + [RestoreOutcome(t.bdf, None, None, group, SkippedOriginallyUnbound)];
      } else if d.value == VFIO {
        outcomes' := outcomes' + [RestoreOutcome(t.bdf, d, d, group, SkippedOriginallyVfio)];
      } else {
        match mode {
          case DryRun =>
            outcomes' := outcomes' + [RestoreOutcome(t.bdf, d, d, group, DryRunPlanned)];
          case Live =>
            var ok := BindToDriver(host, f, d.value);
            outcomes' := outcomes' + [RestoreOutcome(t.bdf, d, d, group, if ok then Succeeded else Failed)];
        }
      }
      assert Progress(host.functions, host.writes, outcomes') == RestoreOne(t, inv, host.kernel, mode, before);
      assert Fst(items[..i + 1]) == Fst(items[..i]) + [t];
      RestoreAllAppend(Fst(items[..i]), [t], inv, host.kernel, mode, start);
      assert [t][1..] == [];
      i := i + 1;
    }
    assert items[..|items|] == items;
  }

  datatype Buckets = Buckets(
    missing: seq<VfioTransition>,
    gpu: seq<(VfioTransition, PciFunction)>,
    nvme: seq<(VfioTransition, PciFunction)>,
    nic: seq<(VfioTransition, PciFunction)>,
    usb: seq<(VfioTransition, PciFunction)>,
    misc: seq<(VfioTransition, PciFunction)>)

  ghost predicate Paired(inv: Inventory, items: seq<(VfioTransition, PciFunction)>, ts: seq<VfioTransition>, n: nat) {
    Fst(items) == InBucket(inv, ts, n) && forall it :: it in items ==> FindByBdf(inv, it.0.bdf) == Some(it.1)
  }

  ghost predicate Classified(inv: Inventory, ts: seq<VfioTransition>, b: Buckets) {
    && b.missing == InBucket(inv, ts, 0)
    && Paired(inv, b.gpu, ts, 1) && Paired(inv, b.nvme, ts, 2) && Paired(inv, b.nic, ts, 3)
    && Paired(inv, b.usb, ts, 4) && Paired(inv, b.misc, ts, 5)
  }

  lemma FstSnoc(items: seq<(VfioTransition, PciFunction)>, it: (VfioTransition, PciFunction))
    ensures Fst(items + [it]) == Fst(items) + [it.0]
  {}

  lemma ClassifyStep(inv: Inventory, ts: seq<VfioTransition>, t: VfioTransition, n: nat)
    ensures InBucket(inv, ts + [t], n) == InBucket(inv, ts, n) + if Bucket(inv, t) == n then [t] else []
  {
    BucketSort.InBucketAppend(ClassOf(inv), ts, [t], n);
    assert [t][1..] == [];
  }

  /** Sort the transitions into the six class lists. */
  method Classify(inv: Inventory, ts: seq<VfioTransition>) returns (b: Buckets)
    ensures Classified(inv, ts, b)
  {
    b := Buckets([], [], [], [], [], []);
    for i := 0 to |ts|
      invariant Classified(inv, ts[..i], b)
    {
      var t := ts[i];
      assert ts[..i + 1] == ts[..i] + [t];
      forall n
        ensures InBucket(inv, ts[..i + 1], n) == InBucket(inv, ts[..i], n) + if Bucket(inv, t) == n then [t] else []
      {
        ClassifyStep(inv, ts[..i], t, n);
      }
      var found := FindByBdf(inv, t.bdf);
      match found {
        case None =>
          b := b.(missing := b.missing + [t]);
        case Some(f) =>
          if f.IsDisplayController() {
            FstSnoc(b.gpu, (t, f));
            b := b.(gpu := b.gpu + [(t, f)]);
          } else if f.IsNvme() {
            FstSnoc(b.nvme, (t, f));
            b := b.(nvme := b.nvme + [(t, f)]);
          } else if f.IsNetworkController() {
            FstSnoc(b.nic, (t, f));
            b := b.(nic := b.nic + [(t, f)]);
          } else if f.IsUsbController() {
            FstSnoc(b.usb, (t, f));
            b := b.(usb := b.usb + [(t, f)]);
          } else {
            FstSnoc(b.misc, (t, f));
            b := b.(misc := b.misc + [(t, f)]);
          }
      }
    }
    assert ts[..|ts|] == ts;
  }

  method ReportMissing(ts: seq<VfioTransition>, ghost inv: Inventory, ghost k: Kernel, ghost mode: RestoreMode,
                       ghost h: HostMap, ghost n: nat)
      returns (outcomes: seq<RestoreOutcome>)
    requires forall t :: t in ts ==> FindByBdf(inv, t.bdf) == None
    ensures Progress(h, n, outcomes) == RestoreAll(ts, inv, k, mode, Progress(h, n, []))
  {
    outcomes := [];
    for i := 0 to |ts|
      invariant Progress(h, n, outcomes) == RestoreAll(ts[..i], inv, k, mode, Progress(h, n, []))
    {
      assert ts[..i + 1] == ts[..i] + [ts[i]];
      RestoreAllAppend(ts[..i], [ts[i]], inv, k, mode, Progress(h, n, []));
      assert [ts[i]][1..] == [];
      outcomes := outcomes + [MissingOutcome(ts[i])];
    }
    assert ts[..|ts|] == ts;
  }

  /** Restore from the log. Without transitions, or when the host cannot be scanned,
      nothing happens; otherwise the transitions are restored in class order. */
  method RestoreImpl(transitions: seq<VfioTransition>, host: Host, mode: RestoreMode)
      returns (outcomes: seq<RestoreOutcome>, ghost scan: Option<Inventory>)
    requires ValidHost(host.functions)
    modifies host
    ensures transitions == [] || scan.None? ==>
      outcomes == [] && host.functions == old(host.functions) && host.writes == old(host.writes)
    ensures scan.Some? ==> SnapshotOf(scan.value, old(host.functions))
    ensures transitions != [] && scan.Some? ==>
      Progress(host.functions, host.writes, outcomes)
      == RestoreAll(Ordered(scan.value, transitions), scan.value, host.kernel, mode,
                    Progress(old(host.functions), old(host.writes), []))
  {
    outcomes, scan := [], None;
    if transitions == [] {
      return;
    }
    var scanned := host.Scan();
    scan := scanned;
    if scanned.None? {
      return;
    }
    var inv := scanned.value;
    var b := Classify(inv, transitions);
    ghost var start := Progress(host.functions, host.writes, []);
    BucketSort.InBucketMembers(ClassOf(inv), transitions, 0);
    outcomes := ReportMissing(b.missing, inv, host.kernel, mode, host.functions, host.writes);
    assert UpTo(inv, transitions, 0) + InBucket(inv, transitions, 0) == b.missing;
    outcomes := RestoreGroup(b.gpu, inv, host, mode, outcomes);
    RestoreAllAppend(UpTo(inv, transitions, 1), Fst(b.gpu), inv, host.kernel, mode, start);
    outcomes := RestoreGroup(b.nvme, inv, host, mode, outcomes);
    RestoreAllAppend(UpTo(inv, transitions, 2), Fst(b.nvme), inv, host.kernel, mode, start);
    outcomes := RestoreGroup(b.nic, inv, host, mode, outcomes);
    RestoreAllAppend(UpTo(inv, transitions, 3), Fst(b.nic), inv, host.kernel, mode, start);
    outcomes := RestoreGroup(b.usb, inv, host, mode, outcomes);
    RestoreAllAppend(UpTo(inv, transitions, 4), Fst(b.usb), inv, host.kernel, mode, start);
    outcomes := RestoreGroup(b.misc, inv, host, mode, outcomes);
    RestoreAllAppend(UpTo(inv, transitions, 5), Fst(b.misc), inv, host.kernel, mode, start);
  }

  // ---------- Accounting ----------

  /** The outcome o of a transition names its device and says what had to be done: nothing
      for a device that is missing, had no driver, or was on vfio-pci already. */
  ghost predicate TellsOf(o: RestoreOutcome, t: VfioTransition, inv: Inventory, mode: RestoreMode) {
    var seen := FindByBdf(inv, t.bdf);
    var name := if t.fromDriver.Some? then Trim(t.fromDriver.value) else "";
    var due := seen.Some? && name != "" && name != "vfio-pci";
    && o.bdf == t.bdf
    && (o.result == SkippedDeviceMissing <==> seen.None?)
    && (o.result == SkippedOriginallyUnbound <==> seen.Some? && name == "")
    && (o.result == SkippedOriginallyVfio <==> seen.Some? && name == "vfio-pci")
    && (o.result == DryRunPlanned <==> due && mode == DryRun)
    && (o.result == Succeeded || o.result == Failed <==> due && mode == Live)
    && (due && seen.value.driver == Some(name) ==> o.result != Failed)
    && (seen.Some? ==> o.originalDriver == o.targetDriver == if name == "" then None else Some(name))
    && (seen.Some? ==> o.iommuGroup == if t.iommuGroup.Some? then t.iommuGroup else seen.value.iommuGroup)
  }

  /** One outcome per transition, in order, telling of it. */
  lemma {:induction false} OutcomesMatchLog(ts: seq<VfioTransition>, inv: Inventory, k: Kernel, mode: RestoreMode,
                                            p: Progress)
    ensures var q := RestoreAll(ts, inv, k, mode, p);
      && |q.outcomes| == |p.outcomes| + |ts| && p.outcomes <= q.outcomes
      && forall i :: 0 <= i < |ts| ==> TellsOf(q.outcomes[|p.outcomes| + i], ts[i], inv, mode)
  {
    if ts != [] {
      var p1 := RestoreOne(ts[0], inv, k, mode, p);
      OutcomesMatchLog(ts[1..], inv, k, mode, p1);
      var q := RestoreAll(ts, inv, k, mode, p);
      forall i | 0 <= i < |ts| ensures TellsOf(q.outcomes[|p.outcomes| + i], ts[i], inv, mode) {
        if i == 0 {
          assert q.outcomes[|p.outcomes|] == p1.outcomes[|p.outcomes|];
        } else {
          assert TellsOf(q.outcomes[|p1.outcomes| + (i - 1)], ts[1..][i - 1], inv, mode);
        }
      }
    }
  }

  function Count(outcomes: seq<RestoreOutcome>, kind: RestoreKind): nat {
    if outcomes == [] then 0
    else (if outcomes[0].result == kind then 1 else 0) + Count(outcomes[1..], kind)
  }

  /** The result kinds account for every outcome. */
  lemma {:induction false} CountsSum(outcomes: seq<RestoreOutcome>)
    ensures Count(outcomes, Succeeded) + Count(outcomes, DryRunPlanned) + Count(outcomes, SkippedOriginallyUnbound)
            + Count(outcomes, SkippedOriginallyVfio) + Count(outcomes, SkippedDeviceMissing) + Count(outcomes, Failed)
            == |outcomes|
  {
    if outcomes != [] {
      CountsSum(outcomes[1..]);
    }
  }

  function Planned(o: RestoreOutcome): RestoreOutcome {
    if o.result in {Succeeded, Failed} then o.(result := DryRunPlanned) else o
  }

  /** A dry run writes nothing and reports, entry by entry, what a live run under any
      kernel reports, with DryRunPlanned in place of Succeeded and Failed. */
  lemma {:induction false} DryRunForesees(ts: seq<VfioTransition>, inv: Inventory, k: Kernel, k': Kernel, p: Progress,
                                          p': Progress)
    requires |p.outcomes| == |p'.outcomes|
    requires forall i :: 0 <= i < |p.outcomes| ==> p'.outcomes[i] == Planned(p.outcomes[i])
    ensures var live, dry := RestoreAll(ts, inv, k, Live, p), RestoreAll(ts, inv, k', DryRun, p');
      && dry.host == p'.host && dry.writes == p'.writes
      && |dry.outcomes| == |live.outcomes|
      && forall i :: 0 <= i < |live.outcomes| ==> dry.outcomes[i] == Planned(live.outcomes[i])
  {
    if ts != [] {
      DryRunForesees(ts[1..], inv, k, k', RestoreOne(ts[0], inv, k, Live, p), RestoreOne(ts[0], inv, k', DryRun, p'));
    }
  }

  // ---------- Effect of a live restore ----------

  ghost predicate NoneFailed(outcomes: seq<RestoreOutcome>) {
    forall o :: o in outcomes ==> o.result != Failed
  }

  /** Transitions of one device agree on the driver to restore. */
  ghost predicate Consistent(ts: seq<VfioTransition>) {
    forall t, u :: t in ts && u in ts && t.bdf == u.bdf ==> Target(t) == Target(u)
  }

  ghost predicate Named(ts: seq<VfioTransition>, b: string) {
    exists t :: t in ts && t.bdf == b
  }

  lemma LiveStep(t: VfioTransition, inv: Inventory, k: Kernel, h: HostMap, p: Progress)
    requires SnapshotOf(inv, h) && p.host.Keys == h.Keys
    requires t.bdf in h && Target(t).Some? ==> p.host[t.bdf].driver in {h[t.bdf].driver, Target(t)}
    requires RestoreOne(t, inv, k, Live, p).outcomes[|p.outcomes|].result != Failed
    ensures FindByBdf(inv, t.bdf).Some? ==> t.bdf in h
    ensures RestoreOne(t, inv, k, Live, p).host ==
            if Target(t).Some? && FindByBdf(inv, t.bdf).Some?
            then p.host[t.bdf := p.host[t.bdf].(driver := Target(t))] else p.host
  {
    SnapshotFinds(inv, h, t.bdf);
  }

  lemma LiveStepElsewhere(t: VfioTransition, inv: Inventory, k: Kernel, p: Progress, b: string)
    requires b in p.host && t.bdf != b
    ensures var p1 := RestoreOne(t, inv, k, Live, p); p1.host.Keys == p.host.Keys && p1.host[b] == p.host[b]
  {}

  lemma NamedHead(ts: seq<VfioTransition>, b: string)
    requires ts != []
    ensures Named(ts, b) <==> ts[0].bdf == b || Named(ts[1..], b)
    ensures forall t :: t in ts[1..] ==> t in ts
    ensures ts[0] in ts
  {
    assert ts == [ts[0]] + ts[1..];
  }

  /** What a live restore without failures does to one device b, all of whose transitions
      aim for d: it gets that driver exactly when it is on record and the scan saw it. */
  lemma {:induction false} LiveDevice(ts: seq<VfioTransition>, inv: Inventory, k: Kernel, h: HostMap, p: Progress,
                                      q: Progress, b: string, d: Option<string>)
    requires SnapshotOf(inv, h) && p.host.Keys == h.Keys
    requires q == RestoreAll(ts, inv, k, Live, p) && NoneFailed(q.outcomes)
    requires b in h && forall t :: t in ts && t.bdf == b ==> Target(t) == d
    requires d.Some? ==> p.host[b].driver in {h[b].driver, d}
    ensures q.host.Keys == h.Keys
    ensures q.host[b] ==
            if d.Some? && Named(ts, b) && FindByBdf(inv, b).Some? then p.host[b].(driver := d) else p.host[b]
  {
    if ts != [] {
      var t := ts[0];
      NamedHead(ts, b);
      var p1 := RestoreOne(t, inv, k, Live, p);
      OutcomesMatchLog(ts[1..], inv, k, Live, p1);
      assert q.outcomes[|p.outcomes|] == p1.outcomes[|p.outcomes|];
      if t.bdf == b {
        LiveStep(t, inv, k, h, p);
      } else {
        LiveStepElsewhere(t, inv, k, p, b);
      }
      LiveDevice(ts[1..], inv, k, h, p1, q, b, d);
    }
  }

  /** A live restore in which no write failed leaves every targeted device that the scan saw
      on its recorded driver and every other device alone. */
  lemma LiveRestores(ts: seq<VfioTransition>, inv: Inventory, k: Kernel, p: Progress, q: Progress)
    requires SnapshotOf(inv, p.host) && Consistent(ts)
    requires q == RestoreAll(ts, inv, k, Live, p) && NoneFailed(q.outcomes)
    ensures q.host.Keys == p.host.Keys
    ensures forall t :: t in ts && t.bdf in p.host ==>
              q.host[t.bdf] == if Target(t).Some? && FindByBdf(inv, t.bdf).Some?
                               then p.host[t.bdf].(driver := Target(t)) else p.host[t.bdf]
    ensures forall b :: b in p.host && !Named(ts, b) ==> q.host[b] == p.host[b]
  {
    forall b | b in p.host && !Named(ts, b)
      ensures q.host.Keys == p.host.Keys && q.host[b] == p.host[b]
    {
      LiveDevice(ts, inv, k, p.host, p, q, b, None);
    }
    forall t | t in ts && t.bdf in p.host
      ensures q.host.Keys == p.host.Keys
      ensures q.host[t.bdf] == if Target(t).Some? && FindByBdf(inv, t.bdf).Some?
                               then p.host[t.bdf].(driver := Target(t)) else p.host[t.bdf]
    {
      LiveDevice(ts, inv, k, p.host, p, q, t.bdf, Target(t));
    }
    DevicesKept(ts, inv, k, Live, p);
  }

  /** Restoring changes drivers only. */
  lemma {:induction false} DevicesKept(ts: seq<VfioTransition>, inv: Inventory, k: Kernel, mode: RestoreMode,
                                       p: Progress)
    ensures RestoreAll(ts, inv, k, mode, p).host.Keys == p.host.Keys
    ensures forall b :: b in p.host ==> RestoreAll(ts, inv, k, mode, p).host[b].SameDevice(p.host[b])
  {
    if ts != [] {
      DevicesKept(ts[1..], inv, k, mode, RestoreOne(ts[0], inv, k, mode, p));
    }
  }

  /** Nothing is left to do for t. */
  predicate Settled(t: VfioTransition, inv: Inventory) {
    var found := FindByBdf(inv, t.bdf);
    found.None? || Target(t).None? || found.value.driver == Target(t)
  }

  lemma SettledStep(t: VfioTransition, inv: Inventory, k: Kernel, p: Progress)
    requires Settled(t, inv)
    ensures var q := RestoreOne(t, inv, k, Live, p);
      && q.host == p.host && q.writes == p.writes
      && |q.outcomes| == |p.outcomes| + 1 && p.outcomes <= q.outcomes
      && q.outcomes[|p.outcomes|].result != Failed
  {}

  lemma {:induction false} SettledIsNoop(ts: seq<VfioTransition>, inv: Inventory, k: Kernel, p: Progress)
    requires forall t :: t in ts ==> Settled(t, inv)
    ensures var q := RestoreAll(ts, inv, k, Live, p);
      q.host == p.host && q.writes == p.writes && (NoneFailed(p.outcomes) ==> NoneFailed(q.outcomes))
  {
    if ts != [] {
      assert ts[0] in ts;
      SettledStep(ts[0], inv, k, p);
      SettledIsNoop(ts[1..], inv, k, RestoreOne(ts[0], inv, k, Live, p));
    }
  }

  /** A second restore after one without failures issues no write at all, under any kernel
      and any scan that sees no recorded device which the first scan missed: retrying the
      shutdown step is safe. */
  lemma SecondRestoreIsNoop(ts: seq<VfioTransition>, inv: Inventory, k: Kernel, p: Progress, q: Progress,
                            inv2: Inventory, k2: Kernel, n: nat)
    requires SnapshotOf(inv, p.host) && Consistent(ts)
    requires q == RestoreAll(Ordered(inv, ts), inv, k, Live, p) && NoneFailed(q.outcomes)
    requires SnapshotOf(inv2, q.host)
    requires forall t :: t in ts && FindByBdf(inv2, t.bdf).Some? ==> FindByBdf(inv, t.bdf).Some?
    ensures var again := RestoreAll(Ordered(inv2, ts), inv2, k2, Live, Progress(q.host, n, []));
      again.host == q.host && again.writes == n && NoneFailed(again.outcomes)
  {
    SameElements(inv, ts);
    SameElements(inv2, ts);
    LiveRestores(Ordered(inv, ts), inv, k, p, q);
    forall t | t in Ordered(inv2, ts) ensures Settled(t, inv2) {
      SnapshotFinds(inv2, q.host, t.bdf);
    }
    SettledIsNoop(Ordered(inv2, ts), inv2, k2, Progress(q.host, n, []));
  }

  lemma SameElements(inv: Inventory, ts: seq<VfioTransition>)
    ensures forall t :: t in Ordered(inv, ts) <==> t in ts
  {
    OrderedPermutes(inv, ts);
    forall t ensures t in Ordered(inv, ts) <==> t in ts {
      assert t in multiset(Ordered(inv, ts)) <==> t in multiset(ts);
    }
  }

  // ---------- Stage, then restore ----------

  /** A driver name that survives the restore's normalization. */
  predicate CleanName(d: string) {
    d != "" && Trim(d) == d
  }

  lemma {:induction false} RecordsAre(fs: seq<PciFunction>)
    ensures forall t :: t in Records(fs) <==>
              exists f :: f in fs && !f.OnVfio() && t == VfioTransition(f.bdf, f.driver, f.iommuGroup)
  {
    if fs != [] {
      RecordsAre(fs[1..]);
      assert fs == [fs[0]] + fs[1..];
    }
  }

  /** The transition a staging of f records. */
  function RecordOf(f: PciFunction): VfioTransition {
    VfioTransition(f.bdf, f.driver, f.iommuGroup)
  }

  /** What a log of snapshot records says about device b. */
  lemma RecordsNameOnce(ts: seq<VfioTransition>, h0: HostMap, b: string)
    requires ValidHost(h0) && b in h0 && forall t :: t in ts ==> t.bdf in h0 && t == RecordOf(h0[t.bdf])
    ensures Named(ts, b) <==> RecordOf(h0[b]) in ts
    ensures forall t :: t in ts && t.bdf == b ==> t == RecordOf(h0[b])
    ensures Consistent(ts)
  {}

  /** The log of a complete run of PlanOf(fs) from h0. */
  lemma RecordsOfPlan(fs: seq<PciFunction>, h0: HostMap, t: VfioTransition)
    requires ValidHost(h0) && forall f :: f in fs ==> f.bdf in h0 && h0[f.bdf] == f
    ensures t in Records(fs) <==> t.bdf in Addresses(fs) && t == RecordOf(h0[t.bdf]) && !h0[t.bdf].OnVfio()
  {
    RecordsAre(fs);
    if t.bdf in Addresses(fs) && t == RecordOf(h0[t.bdf]) && !h0[t.bdf].OnVfio() {
      var f :| f in fs && f.bdf == t.bdf;
      assert h0[f.bdf] == f;
    }
  }

  /** The fate of one staged device f in a restore without failures. */
  ghost predicate Returned(f: PciFunction, inv: Inventory, h: HostMap)
  {
    && f.bdf in h
    && (f.HostBound() ==> (h[f.bdf] == f <==> CleanName(f.driver.value) && FindByBdf(inv, f.bdf).Some?))
    && (f.driver.None? ==> h[f.bdf].OnVfio())
    && (f.OnVfio() ==> h[f.bdf] == f)
  }

  /** Stage/restore round trip. After a staging whose writes all succeed and a live restore
      without failures, a selected device that had a host driver is back on it if and only if
      the driver's name survives trimming and the restore's scan saw the device; a selected
      device that was unbound stays on vfio-pci, and every other device is as before. */
  lemma StageRestoreRoundTrip(fs: seq<PciFunction>, inv: Inventory, k: Kernel, h0: HostMap, n: nat, s: Exec,
                              inv2: Inventory, k2: Kernel, q: Progress)
    requires ValidHost(h0) && SnapshotOf(inv, h0) && FromSnapshot(fs, inv)
    requires (s, true) == RunActions(PlanOf(fs), inv, k, Exec(h0, n, []))
    requires SnapshotOf(inv2, s.host)
    requires q == RestoreAll(Ordered(inv2, s.log), inv2, k2, Live, Progress(s.host, s.writes, []))
    requires NoneFailed(q.outcomes)
    ensures q.host.Keys == h0.Keys
    ensures forall f :: f in fs ==> Returned(f, inv2, q.host)
    ensures forall b :: b in h0 && b !in Addresses(fs) ==> q.host[b] == h0[b]
  {
    PlanRunOk(fs, inv, k, Exec(h0, n, []));
    var ts := Ordered(inv2, s.log);
    assert s.log == Records(fs);
    SameElements(inv2, s.log);
    forall t ensures t in ts <==> t.bdf in Addresses(fs) && t == RecordOf(h0[t.bdf]) && !h0[t.bdf].OnVfio() {
      RecordsOfPlan(fs, h0, t);
    }
    DevicesKept(ts, inv2, k2, Live, Progress(s.host, s.writes, []));
    forall f | f in fs ensures Returned(f, inv2, q.host) {
      assert h0[f.bdf] == f && s.host[f.bdf] == f.(driver := Some(VFIO));
      RecordsNameOnce(ts, h0, f.bdf);
      LiveDevice(ts, inv2, k2, s.host, Progress(s.host, s.writes, []), q, f.bdf,
                 if f.OnVfio() then None else Target(RecordOf(f)));
    }
    forall b | b in h0 && b !in Addresses(fs) ensures q.host[b] == h0[b] {
      LiveDevice(ts, inv2, k2, s.host, Progress(s.host, s.writes, []), q, b, None);
    }
  }

  // ---------- Aborted staging ----------

  /** However a run from h0 ended, its log holds snapshot records of devices off vfio-pci, and
      so does the order in which they are restored. */
  lemma RunRecords(actions: seq<VfioAction>, inv: Inventory, k: Kernel, h0: HostMap, n: nat, s: Exec, inv2: Inventory)
    requires ValidHost(h0) && SnapshotOf(inv, h0)
    requires s == RunActions(actions, inv, k, Exec(h0, n, [])).0
    ensures s.host.Keys == h0.Keys && WriteAhead(h0, 0, s)
    ensures forall t :: t in Ordered(inv2, s.log) ==> t.bdf in h0 && t == RecordOf(h0[t.bdf]) && !h0[t.bdf].OnVfio()
    ensures forall t :: t in Ordered(inv2, s.log) <==> t in s.log
  {
    RunKeepsWriteAhead(actions, inv, k, h0, 0, Exec(h0, n, []));
    assert s.log[0..] == s.log;
    SameElements(inv2, s.log);
  }

  /** After a staging that stopped anywhere and a live restore without failures, a device
      with a clean driver name is as before if and only if staging had not changed it, or
      has its host driver on record and the restore's scan saw it. */
  lemma AbortRestoreIff(actions: seq<VfioAction>, inv: Inventory, k: Kernel, h0: HostMap, n: nat, s: Exec,
                        inv2: Inventory, k2: Kernel, q: Progress, b: string)
    requires ValidHost(h0) && SnapshotOf(inv, h0)
    requires s == RunActions(actions, inv, k, Exec(h0, n, [])).0 && SnapshotOf(inv2, s.host)
    requires q == RestoreAll(Ordered(inv2, s.log), inv2, k2, Live, Progress(s.host, s.writes, []))
    requires NoneFailed(q.outcomes)
    requires b in h0 && (h0[b].HostBound() ==> CleanName(h0[b].driver.value))
    ensures b in q.host && b in s.host
    ensures q.host[b] == h0[b] <==>
            s.host[b] == h0[b] || (h0[b].HostBound() && Recorded(s.log, h0[b]) && FindByBdf(inv2, b).Some?)
  {
    RunRecords(actions, inv, k, h0, n, s, inv2);
    RecordsNameOnce(Ordered(inv2, s.log), h0, b);
    LiveDevice(Ordered(inv2, s.log), inv2, k2, s.host, Progress(s.host, s.writes, []), q, b, Target(RecordOf(h0[b])));
  }

  /** The restore reports that the device is on its driver. */
  ghost predicate ReportsSuccess(outcomes: seq<RestoreOutcome>, b: string) {
    exists o :: o in outcomes && o.bdf == b && o.result == Succeeded
  }

  lemma ReportsSnoc(outcomes: seq<RestoreOutcome>, o: RestoreOutcome, b: string)
    ensures ReportsSuccess(outcomes + [o], b) <==> ReportsSuccess(outcomes, b) || (o.bdf == b && o.result == Succeeded)
  {
    if o.bdf == b && o.result == Succeeded {
      assert o in outcomes + [o];
    }
    if ReportsSuccess(outcomes, b) {
      var o1 :| o1 in outcomes && o1.bdf == b && o1.result == Succeeded;
      assert o1 in outcomes + [o];
    }
  }

  /** The report about a device whose transitions all aim for d is true: the device is on d
      if it says so, and else as in h. */
  ghost predicate TrueReport(h: HostMap, p: Progress, b: string, d: Option<string>) {
    && b in h && b in p.host
    && p.host[b] == (if ReportsSuccess(p.outcomes, b) then h[b].(driver := d) else h[b])
    && (ReportsSuccess(p.outcomes, b) ==> d.Some?)
  }

  lemma ReportStep(t: VfioTransition, inv: Inventory, k: Kernel, h: HostMap, p: Progress, b: string, d: Option<string>)
    requires SnapshotOf(inv, h) && TrueReport(h, p, b, d) && (t.bdf == b ==> Target(t) == d)
    ensures TrueReport(h, RestoreOne(t, inv, k, Live, p), b, d)
  {
    var p1 := RestoreOne(t, inv, k, Live, p);
    ReportsSnoc(p.outcomes, p1.outcomes[|p.outcomes|], b);
    assert p1.outcomes == p.outcomes + [p1.outcomes[|p.outcomes|]];
    if t.bdf != b {
      LiveStepElsewhere(t, inv, k, p, b);
    }
  }

  lemma {:induction false} ReportStaysTrue(ts: seq<VfioTransition>, inv: Inventory, k: Kernel, h: HostMap, p: Progress,
                                           b: string, d: Option<string>)
    requires SnapshotOf(inv, h) && TrueReport(h, p, b, d) && forall t :: t in ts && t.bdf == b ==> Target(t) == d
    ensures TrueReport(h, RestoreAll(ts, inv, k, Live, p), b, d)
  {
    if ts != [] {
      NamedHead(ts, b);
      ReportStep(ts[0], inv, k, h, p, b, d);
      ReportStaysTrue(ts[1..], inv, k, h, RestoreOne(ts[0], inv, k, Live, p), b, d);
    }
  }

  /** Under every kernel, with no assumption on what fails: after a staging that stopped
      anywhere and a live restore, a device with a clean driver name is as before if and only
      if staging had not changed it, or the restore reports success for it. */
  lemma RestoreReportIff(actions: seq<VfioAction>, inv: Inventory, k: Kernel, h0: HostMap, n: nat, s: Exec,
                         inv2: Inventory, k2: Kernel, q: Progress, b: string)
    requires ValidHost(h0) && SnapshotOf(inv, h0)
    requires s == RunActions(actions, inv, k, Exec(h0, n, [])).0 && SnapshotOf(inv2, s.host)
    requires q == RestoreAll(Ordered(inv2, s.log), inv2, k2, Live, Progress(s.host, s.writes, []))
    requires b in h0 && (h0[b].HostBound() ==> CleanName(h0[b].driver.value))
    ensures b in q.host && b in s.host
    ensures q.host[b] == h0[b] <==> s.host[b] == h0[b] || ReportsSuccess(q.outcomes, b)
  {
    RunRecords(actions, inv, k, h0, n, s, inv2);
    RecordsNameOnce(Ordered(inv2, s.log), h0, b);
    TargetIsDriver(h0[b]);
    ReportStaysTrue(Ordered(inv2, s.log), inv2, k2, s.host, Progress(s.host, s.writes, []), b,
                    Target(RecordOf(h0[b])));
    ReportDecides(h0[b], s.host[b], q.host[b], Target(RecordOf(h0[b])), ReportsSuccess(q.outcomes, b));
  }

  lemma TargetIsDriver(f: PciFunction)
    requires f.HostBound() ==> CleanName(f.driver.value)
    ensures Target(RecordOf(f)).Some? ==> Target(RecordOf(f)) == f.driver
  {}

  lemma ReportDecides(f0: PciFunction, f: PciFunction, f1: PciFunction, d: Option<string>, success: bool)
    requires f.SameDevice(f0) && (d.Some? ==> d == f0.driver) && (success ==> d.Some?)
    requires f1 == if success then f.(driver := d) else f
    ensures f1 == f0 <==> f == f0 || success
  {}

  /** Abort and restore do not always undo staging: for a VM with two NICs, if the second of
      the plan's two unbinds is refused, the first NIC is left without a driver and without a
      record. */
  lemma AbortStrandsDevice() returns (cfg: VmConfig, inv: Inventory, k: Kernel, h0: HostMap)
    ensures ValidHost(h0) && CompleteSnapshotOf(inv, h0)
    ensures GateAccepts(cfg, inv) && PlanAccepts(cfg, inv) && NoRepeat(Selected(cfg, inv))
    ensures var (s, ok) := RunActions(PlanOf(Selected(cfg, inv)), inv, k, Exec(h0, 0, []));
      && !ok && s.log == []
      && exists f :: f in Selected(cfg, inv) && f.HostBound() && f.bdf in s.host && s.host[f.bdf].driver == None
  {
    var a := PciFunction("0000:01:00.0", 0x020000, Some("e1000e"), Some(1), None);
    var b := PciFunction("0000:02:00.0", 0x020000, Some("r8169"), Some(2), None);
    var nics := [DeviceCfg(a.bdf, true, None), DeviceCfg(b.bdf, true, None)];
    cfg := VmConfig(Devices([], [], nics, []), Policy(Disabled, SharedWithHost, false, false, false), None);
    inv, h0 := [a, b], map[a.bdf := a, b.bdf := b];
    k := (n: nat, h: HostMap, w: Write) => n == 0;
    TwoNics(a, b, nics, cfg);
    var acts := PlanOf(inv);
    assert inv[1..] == [b] && [b][1..] == [];
    assert Unbinds([b]) == [VfioAction(b.bdf, UnbindFromCurrentDriver)] + Unbinds([]);
    assert acts[0] == VfioAction(a.bdf, UnbindFromCurrentDriver);
    assert acts[1] == VfioAction(b.bdf, UnbindFromCurrentDriver);
    assert acts[1..][0] == acts[1];
    var (s1, ok1) := RunAction(acts[0], inv, k, Exec(h0, 0, []));
    assert ok1 && s1.log == [];
    var (s2, ok2) := RunAction(acts[1], inv, k, s1);
    assert !ok2 && s2.log == [];
    assert s2.host[a.bdf].driver == None;
    assert a in inv;
  }

  lemma TwoNics(a: PciFunction, b: PciFunction, nics: seq<DeviceCfg>, cfg: VmConfig)
    requires a.bdf != b.bdf && nics == [DeviceCfg(a.bdf, true, None), DeviceCfg(b.bdf, true, None)]
    requires cfg.devices == Devices([], [], nics, []) && cfg.isolation.mode == Disabled
    ensures FindByBdf([a, b], a.bdf) == Some(a) && FindByBdf([a, b], b.bdf) == Some(b)
    ensures Selected(cfg, [a, b]) == [a, b] && NoRepeat([a, b])
    ensures GateAccepts(cfg, [a, b]) && PlanAccepts(cfg, [a, b])
  {
    var inv := [a, b];
    assert inv[1..] == [b];
    assert FindByBdf([b], b.bdf) == Some(b);
    assert cfg.devices.All() == nics;
    assert nics[1..] == [DeviceCfg(b.bdf, true, None)] && nics[1..][1..] == [];
    assert Present(inv, nics[1..]) == [b] + Present(inv, []);
    assert Present(inv, nics) == [a] + Present(inv, nics[1..]);
  }

  // ---------- Restore does not unbind ----------

  /** A kernel that refuses to bind a device that already has a driver. */
  ghost predicate RefusesBound(k: Kernel) {
    forall n, h: HostMap, w: Write :: w.Bind? && w.bdf in h && h[w.bdf].driver.Some? ==> !k(n, h, w)
  }

  predicate BoundAt(h: HostMap, b: string) {
    b in h && h[b].driver.Some?
  }

  /** The devices that are bound in h are in h' as in h. */
  ghost predicate BoundKept(h: HostMap, h': HostMap) {
    h'.Keys == h.Keys && forall b :: BoundAt(h, b) ==> h'[b] == h[b]
  }

  lemma BoundStep(t: VfioTransition, inv: Inventory, k: Kernel, h: HostMap, p: Progress)
    requires RefusesBound(k) && SnapshotOf(inv, h) && BoundKept(h, p.host)
    ensures var q := RestoreOne(t, inv, k, Live, p);
      && BoundKept(h, q.host)
      && |q.outcomes| == |p.outcomes| + 1 && p.outcomes <= q.outcomes
      && (BoundAt(h, t.bdf) ==> (q.outcomes[|p.outcomes|].result == Failed <==> !Settled(t, inv)))
  {
    SnapshotFinds(inv, h, t.bdf);
  }

  /** Restore submits a bind without an unbind before it. Under a kernel that refuses to
      bind a bound device it therefore moves no device that has a driver when it starts,
      whatever else is on record, and it reports Failed for exactly those of them that it
      had to move. */
  lemma {:induction false} BoundDevicesStayPut(ts: seq<VfioTransition>, inv: Inventory, k: Kernel, h: HostMap,
                                               p: Progress)
    requires RefusesBound(k) && SnapshotOf(inv, h) && BoundKept(h, p.host)
    ensures var q := RestoreAll(ts, inv, k, Live, p);
      && BoundKept(h, q.host)
      && |q.outcomes| == |p.outcomes| + |ts| && p.outcomes <= q.outcomes
      && forall i :: 0 <= i < |ts| && BoundAt(h, ts[i].bdf) ==>
           (q.outcomes[|p.outcomes| + i].result == Failed <==> !Settled(ts[i], inv))
  {
    if ts != [] {
      var p1 := RestoreOne(ts[0], inv, k, Live, p);
      BoundStep(ts[0], inv, k, h, p);
      BoundDevicesStayPut(ts[1..], inv, k, h, p1);
      var q := RestoreAll(ts, inv, k, Live, p);
      assert q.outcomes[|p.outcomes|] == p1.outcomes[|p.outcomes|];
      forall i | 0 <= i < |ts| && BoundAt(h, ts[i].bdf)
        ensures q.outcomes[|p.outcomes| + i].result == Failed <==> !Settled(ts[i], inv)
      {
        if i > 0 {
          assert q.outcomes[|p1.outcomes| + (i - 1)].result == Failed <==> !Settled(ts[1..][i - 1], inv);
        }
      }
    }
  }

  /** What a live restore does to one device under a kernel that accepts exactly the writes
      that fit, whatever it answers for the others: the device gets the driver d on record if
      and only if it is seen and has no driver. */
  lemma {:induction false} HonestDevice(ts: seq<VfioTransition>, inv: Inventory, k: Kernel, h: HostMap, p: Progress,
                                        b: string, d: Option<string>)
    requires Honest(k) && SnapshotOf(inv, h) && p.host.Keys == h.Keys
    requires b in h && forall t :: t in ts && t.bdf == b ==> Target(t) == d
    requires p.host[b] == h[b] || (h[b].driver.None? && d.Some? && p.host[b] == h[b].(driver := d))
    ensures var q := RestoreAll(ts, inv, k, Live, p);
      && b in q.host
      && q.host[b] == if Named(ts, b) && FindByBdf(inv, b).Some? && h[b].driver.None? && d.Some?
                      then h[b].(driver := d) else p.host[b]
  {
    if ts != [] {
      NamedHead(ts, b);
      SnapshotFinds(inv, h, b);
      HonestStep(ts[0], inv, k, p, b);
      HonestDevice(ts[1..], inv, k, h, RestoreOne(ts[0], inv, k, Live, p), b, d);
    }
  }

  lemma HonestStep(t: VfioTransition, inv: Inventory, k: Kernel, p: Progress, b: string)
    requires Honest(k) && b in p.host
    ensures var q := RestoreOne(t, inv, k, Live, p);
      var found := FindByBdf(inv, b);
      && q.host.Keys == p.host.Keys
      && q.host[b] ==
         if t.bdf == b && Target(t).Some? && found.Some? && found.value.driver != Target(t) && p.host[b].driver.None?
         then p.host[b].(driver := Target(t)) else p.host[b]
  {}

  /** Teardown under a kernel that accepts exactly the writes that fit, with no assumption on
      the restore's outcomes: after a staging that stopped anywhere, a device with a clean
      driver name is as before if and only if staging had not changed it, or it is on record,
      is still unbound and the restore's scan saw it. */
  lemma HonestRestoreIff(actions: seq<VfioAction>, inv: Inventory, k: Kernel, h0: HostMap, n: nat, s: Exec,
                         inv2: Inventory, k2: Kernel, q: Progress, b: string)
    requires ValidHost(h0) && SnapshotOf(inv, h0)
    requires s == RunActions(actions, inv, k, Exec(h0, n, [])).0 && SnapshotOf(inv2, s.host)
    requires Honest(k2) && q == RestoreAll(Ordered(inv2, s.log), inv2, k2, Live, Progress(s.host, s.writes, []))
    requires b in h0 && (h0[b].HostBound() ==> CleanName(h0[b].driver.value))
    ensures b in q.host && b in s.host
    ensures q.host[b] == h0[b] <==>
            || s.host[b] == h0[b]
            || (Recorded(s.log, h0[b]) && s.host[b].driver.None? && FindByBdf(inv2, b).Some?)
  {
    RunRecords(actions, inv, k, h0, n, s, inv2);
    RecordsNameOnce(Ordered(inv2, s.log), h0, b);
    HonestDevice(Ordered(inv2, s.log), inv2, k2, s.host, Progress(s.host, s.writes, []), b, Target(RecordOf(h0[b])));
  }

  /** A device whose bind to vfio-pci was refused is on record, so such a teardown brings it
      back if and only if the restore's scan sees it, or it had no driver to begin with; but
      not if an earlier bind of the same plan had put it on vfio-pci. */
  lemma RefusedBindComesBack(fs: seq<PciFunction>, j: nat, inv: Inventory, k: Kernel, h0: HostMap, n: nat, s: Exec,
                             inv2: Inventory, k2: Kernel, q: Progress)
    requires ValidHost(h0) && SnapshotOf(inv, h0) && FromSnapshot(fs, inv) && j < |fs|
    requires RunActions(Unbinds(fs) + Binds(fs[..j]), inv, k, Exec(h0, n, [])).1
    requires !RunActions(Unbinds(fs) + Binds(fs[..j + 1]), inv, k, Exec(h0, n, [])).1
    requires s == RunActions(PlanOf(fs), inv, k, Exec(h0, n, [])).0 && SnapshotOf(inv2, s.host)
    requires Honest(k2) && q == RestoreAll(Ordered(inv2, s.log), inv2, k2, Live, Progress(s.host, s.writes, []))
    requires fs[j].HostBound() ==> CleanName(fs[j].driver.value)
    ensures fs[j].bdf in q.host
    ensures q.host[fs[j].bdf] == fs[j] <==>
            fs[j] !in fs[..j] && (fs[j].driver.None? || FindByBdf(inv2, fs[j].bdf).Some?)
  {
    RefusedBind(fs, j, inv, k, Exec(h0, n, []));
    RunRecords(PlanOf(fs), inv, k, h0, n, s, inv2);
    assert h0[fs[j].bdf] == fs[j];
    HonestRestoreIff(PlanOf(fs), inv, k, h0, n, s, inv2, k2, q, fs[j].bdf);
  }

  /** So after a staging that succeeded, teardown under any kernel that refuses to bind bound
      devices brings nothing back: the host stays as staging left it. */
  lemma StagedStaysStaged(fs: seq<PciFunction>, inv: Inventory, k: Kernel, h0: HostMap, n: nat, s: Exec,
                          inv2: Inventory, k2: Kernel, q: Progress)
    requires ValidHost(h0) && SnapshotOf(inv, h0) && FromSnapshot(fs, inv)
    requires (s, true) == RunActions(PlanOf(fs), inv, k, Exec(h0, n, []))
    requires RefusesBound(k2) && SnapshotOf(inv2, s.host)
    requires q == RestoreAll(Ordered(inv2, s.log), inv2, k2, Live, Progress(s.host, s.writes, []))
    ensures q.host == s.host
  {
    PlanRunOk(fs, inv, k, Exec(h0, n, []));
    RunRecords(PlanOf(fs), inv, k, h0, n, s, inv2);
    var ts, p := Ordered(inv2, s.log), Progress(s.host, s.writes, []);
    BoundDevicesStayPut(ts, inv2, k2, s.host, p);
    forall b | b in s.host ensures q.host[b] == s.host[b] {
      if s.host[b].driver.None? {
        RecordsOfPlan(fs, h0, RecordOf(h0[b]));
        RecordsNameOnce(ts, h0, b);
        UnnamedStays(ts, inv2, k2, p, b);
      }
    }
  }

  lemma {:induction false} UnnamedStays(ts: seq<VfioTransition>, inv: Inventory, k: Kernel, p: Progress, b: string)
    requires b in p.host && !Named(ts, b)
    ensures var q := RestoreAll(ts, inv, k, Live, p); b in q.host && q.host[b] == p.host[b]
  {
    if ts != [] {
      NamedHead(ts, b);
      LiveStepElsewhere(ts[0], inv, k, p, b);
      UnnamedStays(ts[1..], inv, k, RestoreOne(ts[0], inv, k, Live, p), b);
    }
  }

  /** A kernel that accepts exactly the writes that fit refuses to bind bound devices. */
  lemma HonestRefusesBound(k: Kernel)
    requires Honest(k)
    ensures RefusesBound(k)
  {
    forall n, h: HostMap, w: Write | w.Bind? && w.bdf in h && h[w.bdf].driver.Some? ensures !k(n, h, w) {
      assert !Ready(h, w);
    }
  }
}
