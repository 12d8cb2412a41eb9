/** Execution: the host's driver bindings, the kernel that may refuse any write, and
    the step-by-step staging with its transition log. */
module VfioExecute {
  import opened Prelude
  import opened Pci
  import opened Isolation
  import opened VfioPlan

  /** A sysfs write to a driver's unbind or bind file. */
  datatype Write = Unbind(bdf: string, driver: string) | Bind(bdf: string, driver: string)

  type HostMap = map<string, PciFunction>

  /** The environment: whether the n-th write is accepted in a given host. */
  type Kernel = (nat, HostMap, Write) -> bool

  /** What an accepted write does. A refused write changes nothing. */
  function Effect(h: HostMap, w: Write): HostMap {
    if w.bdf !in h then h
    else h[w.bdf := h[w.bdf].(driver := if w.Unbind? then None else Some(w.driver))]
  }

  /** The device is in the state the write needs. */
  predicate Ready(h: HostMap, w: Write) {
    w.bdf in h && h[w.bdf].driver == if w.Unbind? then Some(w.driver) else None
  }

  /** A kernel that refuses a write exactly when the device is not in the needed state. */
  ghost predicate Honest(k: Kernel) {
    forall n, h, w :: k(n, h, w) <==> Ready(h, w)
  }

  ghost predicate ValidHost(h: HostMap) {
    forall b :: b in h ==> h[b].bdf == b
  }

  /** inv lists functions of h with their current drivers; a scan may miss some. */
  ghost predicate SnapshotOf(inv: Inventory, h: HostMap) {
    UniqueBdfs(inv) && forall f :: f in inv ==> f.bdf in h && h[f.bdf] == f
  }

  ghost predicate CompleteSnapshotOf(inv: Inventory, h: HostMap) {
    SnapshotOf(inv, h) && forall b :: b in h ==> h[b] in inv
  }

  lemma SnapshotFinds(inv: Inventory, h: HostMap, b: string)
    requires SnapshotOf(inv, h)
    ensures FindByBdf(inv, b).Some? ==> b in h && FindByBdf(inv, b).value == h[b]
    ensures CompleteSnapshotOf(inv, h) && ValidHost(h) && b in h ==> FindByBdf(inv, b) == Some(h[b])
  {}

  datatype VfioTransition = VfioTransition(bdf: string, fromDriver: Option<string>, iommuGroup: Option<nat>)

  /** The live host. */
  class Host {
    const kernel: Kernel
    var writes: nat
    var functions: HostMap

    constructor (kernel: Kernel, functions: HostMap)
      ensures this.kernel == kernel && this.functions == functions && writes == 0
    {
      this.kernel := kernel;
      this.functions := functions;
      writes := 0;
    }

    /** Try one write. */
    method Submit(w: Write) returns (ok: bool)
      modifies this
      ensures ok == kernel(old(writes), old(functions), w)
      ensures functions == if ok then Effect(old(functions), w) else old(functions)
      ensures writes == old(writes) + 1
    {
      ok := kernel(writes, functions, w);
      if ok && w.bdf in functions {
        var f := functions[w.bdf];
        functions := functions[w.bdf := f.(driver := if w.Unbind? then None else Some(w.driver))];
      }
      writes := writes + 1;
    }

    /** Read the inventory. The whole scan or single functions may be unreadable. */
    method Scan() returns (r: Option<Inventory>)
      requires ValidHost(functions)
      ensures r.Some? ==> SnapshotOf(r.value, functions)
    {
      if * {
        return None;
      }
      var todo, inv: Inventory := functions.Keys, [];
      while todo != {}
        invariant todo <= functions.Keys
        invariant SnapshotOf(inv, functions)
        invariant forall f :: f in inv ==> f.bdf !in todo
      {
        var b :| b in todo;
        todo := todo - {b};
        if * {
          forall f | f in inv ensures f.bdf != b {}
          inv := inv + [functions[b]];
        }
      }
      return Some(inv);
    }
  }

  // ---------- Executing actions ----------

  datatype Exec = Exec(host: HostMap, writes: nat, log: seq<VfioTransition>)

  function SubmitTo(k: Kernel, s: Exec, w: Write): (Exec, bool) {
    var ok := k(s.writes, s.host, w);
    (s.(host := if ok then Effect(s.host, w) else s.host, writes := s.writes + 1), ok)
  }

  /** The write an action needs, judged by the snapshot f: none when f is unbound (for an
      unbind) or on vfio-pci (for either kind). */
  function WriteFor(kind: ActionKind, f: PciFunction): Option<Write> {
    if f.OnVfio() then None
    else if kind == BindToVfio then Some(Bind(f.bdf, VFIO))
    else if f.driver.Some? then Some(Unbind(f.bdf, f.driver.value))
    else None
  }

  /** A bind of a function that is not on vfio-pci logs its driver before the write. */
  function LogFor(kind: ActionKind, f: PciFunction): seq<VfioTransition> {
    if kind == BindToVfio && !f.OnVfio() then [VfioTransition(f.bdf, f.driver, f.iommuGroup)] else []
  }

  function RunAction(a: VfioAction, inv: Inventory, k: Kernel, s: Exec): (Exec, bool) {
    match FindByBdf(inv, a.bdf)
    case None => (s, false)
    case Some(f) =>
      var s1 := s.(log := s.log + LogFor(a.kind, f));
      match WriteFor(a.kind, f)
      case None => (s1, true)
      case Some(w) => SubmitTo(k, s1, w)
  }

  /** Run the actions in order and stop at the first failure. */
  function RunActions(actions: seq<VfioAction>, inv: Inventory, k: Kernel, s: Exec): (Exec, bool) {
    if actions == [] then (s, true)
    else
      var (s1, ok) := RunAction(actions[0], inv, k, s);
      if ok then RunActions(actions[1..], inv, k, s1) else (s1, false)
  }

  lemma {:induction false} RunActionsAppend(a: seq<VfioAction>, b: seq<VfioAction>, inv: Inventory, k: Kernel, s: Exec)
    ensures RunActions(a + b, inv, k, s) ==
            var (s1, ok) := RunActions(a, inv, k, s);
            if ok then RunActions(b, inv, k, s1) else (s1, false)
  {
    if a == [] {
      assert a + b == b;
    } else {
      assert (a + b)[1..] == a[1..] + b;
      var (s1, ok) := RunAction(a[0], inv, k, s);
      if ok {
        RunActionsAppend(a[1..], b, inv, k, s1);
      }
    }
  }

  /** The host went from (h, n) to (h', n') by at most the write w, which was answered ok. */
  ghost predicate Answered(w: Option<Write>, k: Kernel, h: HostMap, n: nat, h': HostMap, n': nat, ok: bool) {
    match w
    case None => ok && h' == h && n' == n
    case Some(w) => ok == k(n, h, w) && h' == (if ok then Effect(h, w) else h) && n' == n + 1
  }

  method UnbindCurrentDriver(host: Host, f: PciFunction) returns (ok: bool)
    modifies host
    ensures Answered(WriteFor(UnbindFromCurrentDriver, f), host.kernel, old(host.functions), old(host.writes),
                     host.functions, host.writes, ok)
  {
    if f.driver.None? {
      return true;
    }
    var driver := f.driver.value;
    if driver == VFIO {
      return true;
    }
    ok := host.Submit(Unbind(f.bdf, driver));
  }

  method BindToVfioPci(host: Host, f: PciFunction) returns (ok: bool)
    modifies host
    ensures Answered(WriteFor(BindToVfio, f), host.kernel, old(host.functions), old(host.writes), host.functions,
                     host.writes, ok)
  {
    if f.driver == Some(VFIO) {
      return true;
    }
    ok := host.Submit(Bind(f.bdf, VFIO));
  }

  /** Execute a plan against the live host, extending the transition log. */
  method ExecutePlan(actions: seq<VfioAction>, inv: Inventory, host: Host, transitions: seq<VfioTransition>)
      returns (r: Result<(), VfioError>, transitions': seq<VfioTransition>)
    modifies host
    ensures (Exec(host.functions, host.writes, transitions'), r.Ok?)
            == RunActions(actions, inv, host.kernel, Exec(old(host.functions), old(host.writes), transitions))
  {
    transitions' := transitions;
    var i := 0;
    while i < |actions|
      invariant 0 <= i <= |actions|
      invariant RunActions(actions, inv, host.kernel, Exec(old(host.functions), old(host.writes), transitions))
                == RunActions(actions[i..], inv, host.kernel, Exec(host.functions, host.writes, transitions'))
    {
      var action := actions[i];
      assert actions[i..][0] == action && actions[i..][1..] == actions[i + 1..];
      var found := FindByBdf(inv, action.bdf);
      if found.None? {
        return Err(UnknownDevice(action.bdf)), transitions';
      }
      var f, ok := found.value, true;
      assert transitions' + [] == transitions';
      match action.kind {
        case UnbindFromCurrentDriver =>
          ok := UnbindCurrentDriver(host, f);
        case BindToVfio =>
          if f.driver != Some(VFIO) {
            transitions' := transitions' + [VfioTransition(action.bdf, f.driver, f.iommuGroup)];
          }
          ok := BindToVfioPci(host, f);
      }
      if !ok {
        return Err(WriteFailed(action.bdf)), transitions';
      }
      i := i + 1;
    }
    return Ok(()), transitions';
  }

  // ---------- What every run keeps ----------

  ghost predicate Recorded(log: seq<VfioTransition>, f: PciFunction) {
    VfioTransition(f.bdf, f.driver, f.iommuGroup) in log
  }

  /** The write-ahead invariant between the host h0 at the snapshot and a later state s
      whose log has grown from n entries. */
  ghost predicate WriteAhead(h0: HostMap, n: nat, s: Exec)
    requires n <= |s.log|
  {
    var added := s.log[n..];
    && s.host.Keys == h0.Keys
    && (forall b :: b in h0 ==> s.host[b].SameDevice(h0[b]))
    // a device that reached vfio-pci has its snapshot driver on record
    && (forall b :: b in h0 && s.host[b].OnVfio() && !h0[b].OnVfio() ==> Recorded(added, h0[b]))
    // a device is on its snapshot driver, unbound, or on vfio-pci
    && (forall b :: b in h0 ==> s.host[b].driver in {h0[b].driver, None, Some(VFIO)})
    // a device that was on vfio-pci stays there and is never recorded
    && (forall b :: b in h0 && h0[b].OnVfio() ==> s.host[b] == h0[b])
    && (forall t :: t in added ==> t.bdf in h0 && t == VfioTransition(t.bdf, h0[t.bdf].driver, h0[t.bdf].iommuGroup)
                                   && !h0[t.bdf].OnVfio())
  }

  lemma StepKeepsWriteAhead(a: VfioAction, inv: Inventory, k: Kernel, h0: HostMap, n: nat, s: Exec)
    requires ValidHost(h0) && SnapshotOf(inv, h0)
    requires n <= |s.log| && WriteAhead(h0, n, s)
    ensures var s' := RunAction(a, inv, k, s).0; s.log <= s'.log && WriteAhead(h0, n, s')
    ensures var s' := RunAction(a, inv, k, s).0; forall b :: b in s.host && b != a.bdf ==>
      b in s'.host && s'.host[b] == s.host[b]
  {
    var found := FindByBdf(inv, a.bdf);
    if found.Some? {
      var f := found.value;
      assert h0[f.bdf] == f;
      LogKeepsWriteAhead(a.kind, f, h0, n, s);
      var s1 := s.(log := s.log + LogFor(a.kind, f));
      var w := WriteFor(a.kind, f);
      if w.Some? && k(s1.writes, s1.host, w.value) {
        WriteKeepsWriteAhead(a.kind, f, w.value, h0, n, s1);
      }
    }
  }

  /** Logging before the write keeps the invariant. */
  lemma LogKeepsWriteAhead(kind: ActionKind, f: PciFunction, h0: HostMap, n: nat, s: Exec)
    requires f.bdf in h0 && h0[f.bdf] == f && n <= |s.log| && WriteAhead(h0, n, s)
    ensures WriteAhead(h0, n, s.(log := s.log + LogFor(kind, f)))
    ensures LogFor(kind, f) != [] ==> Recorded((s.log + LogFor(kind, f))[n..], f)
  {
    var add := LogFor(kind, f);
    var log := s.log + add;
    assert log[n..] == s.log[n..] + add;
    assert add != [] ==> add[0] in log[n..];
    forall b | b in h0 && s.host[b].OnVfio() && !h0[b].OnVfio() ensures Recorded(log[n..], h0[b]) {
      assert Recorded(s.log[n..], h0[b]);
    }
  }

  /** So does the write, once its device is on record. */
  lemma WriteKeepsWriteAhead(kind: ActionKind, f: PciFunction, w: Write, h0: HostMap, n: nat, s: Exec)
    requires f.bdf in h0 && h0[f.bdf] == f && n <= |s.log| && WriteAhead(h0, n, s)
    requires WriteFor(kind, f) == Some(w) && (kind == BindToVfio ==> Recorded(s.log[n..], f))
    ensures forall m: nat :: WriteAhead(h0, n, s.(host := Effect(s.host, w), writes := m))
  {}

  /** After every run of every action list under every kernel, aborted or not: the log
      only grew, the write-ahead invariant holds, and devices outside the list are
      untouched. A prefix of a plan is itself an action list, so this covers every point
      of an execution. */
  lemma {:induction false} RunKeepsWriteAhead(actions: seq<VfioAction>, inv: Inventory, k: Kernel, h0: HostMap, n: nat,
                                              s: Exec)
    requires ValidHost(h0) && SnapshotOf(inv, h0)
    requires n <= |s.log| && WriteAhead(h0, n, s)
    ensures var s' := RunActions(actions, inv, k, s).0; s.log <= s'.log && WriteAhead(h0, n, s')
    ensures var s' := RunActions(actions, inv, k, s).0;
      forall b :: b in h0 && (forall a :: a in actions ==> a.bdf != b) ==> s'.host[b] == s.host[b]
  {
    if actions != [] {
      StepKeepsWriteAhead(actions[0], inv, k, h0, n, s);
      var (s1, ok) := RunAction(actions[0], inv, k, s);
      assert actions == [actions[0]] + actions[1..];
      if ok {
        RunKeepsWriteAhead(actions[1..], inv, k, h0, n, s1);
      }
    }
  }

  // ---------- What a plan's run does ----------

  /** The transitions a complete run of PlanOf(fs) records, in order. */
  function Records(fs: seq<PciFunction>): seq<VfioTransition> {
    if fs == [] then []
    else LogFor(BindToVfio, fs[0]) + Records(fs[1..])
  }

  function SetDrivers(h: HostMap, bdfs: set<string>, driver: Option<string>): HostMap {
    map b | b in h :: if b in bdfs then h[b].(driver := driver) else h[b]
  }

  /** The host with the given devices on vfio-pci. */
  function Staged(h: HostMap, bdfs: set<string>): HostMap {
    SetDrivers(h, bdfs, Some(VFIO))
  }

  lemma SetDriversOne(h: HostMap, b: string, driver: Option<string>)
    ensures SetDrivers(h, {b}, driver) == if b in h then h[b := h[b].(driver := driver)] else h
    ensures b in h && h[b].driver == driver ==> SetDrivers(h, {b}, driver) == h
    ensures SetDrivers(h, {}, driver) == h
  {}

  lemma SetDriversTwice(h: HostMap, a: set<string>, b: set<string>, driver: Option<string>)
    ensures SetDrivers(SetDrivers(h, a, driver), b, driver) == SetDrivers(h, a + b, driver)
  {}

  function HostBoundBdfs(fs: seq<PciFunction>): set<string> {
    set f | f in fs && f.HostBound() :: f.bdf
  }

  ghost predicate FromSnapshot(fs: seq<PciFunction>, inv: Inventory) {
    UniqueBdfs(inv) && forall f :: f in fs ==> f in inv
  }

  lemma RunSingle(a: VfioAction, inv: Inventory, k: Kernel, s: Exec)
    ensures RunActions([a], inv, k, s) == RunAction(a, inv, k, s)
    ensures WritesReady([a], inv, k, s) <==>
            var found := FindByBdf(inv, a.bdf);
            found.Some? && WriteFor(a.kind, found.value).Some? ==> Ready(s.host, WriteFor(a.kind, found.value).value)
  {
    assert [a][1..] == [];
  }

  /** The unbind action of the first function, if it has one. */
  function FirstUnbind(fs: seq<PciFunction>): seq<VfioAction>
    requires fs != []
  {
    if fs[0].HostBound() then [VfioAction(fs[0].bdf, UnbindFromCurrentDriver)] else []
  }

  lemma FirstUnbindRun(fs: seq<PciFunction>, inv: Inventory, k: Kernel, s: Exec)
    requires fs != [] && FromSnapshot(fs, inv)
    ensures var (s1, ok) := RunActions(FirstUnbind(fs), inv, k, s);
      && s1.log == s.log
      && (ok ==> s1.host == if fs[0].HostBound() then SetDrivers(s.host, {fs[0].bdf}, None) else s.host)
      && (fs[0].HostBound() && Ready(s.host, Unbind(fs[0].bdf, fs[0].driver.value)) ==>
            WritesReady(FirstUnbind(fs), inv, k, s))
  {
    var f := fs[0];
    FindUnique(inv, f);
    SetDriversOne(s.host, f.bdf, None);
    if f.HostBound() {
      RunSingle(FirstUnbind(fs)[0], inv, k, s);
    }
  }

  lemma {:induction false} UnbindsRun(fs: seq<PciFunction>, inv: Inventory, k: Kernel, s: Exec)
    requires FromSnapshot(fs, inv)
    ensures var (s', ok) := RunActions(Unbinds(fs), inv, k, s);
      s'.log == s.log && (ok ==> s'.host == SetDrivers(s.host, HostBoundBdfs(fs), None))
  {
    SetDriversOne(s.host, "", None);
    if fs != [] {
      var f := fs[0];
      assert fs == [f] + fs[1..];
      RunActionsAppend(FirstUnbind(fs), Unbinds(fs[1..]), inv, k, s);
      FirstUnbindRun(fs, inv, k, s);
      var (s1, ok) := RunActions(FirstUnbind(fs), inv, k, s);
      if ok {
        UnbindsRun(fs[1..], inv, k, s1);
        assert HostBoundBdfs(fs) == (if f.HostBound() then {f.bdf} else {}) + HostBoundBdfs(fs[1..]);
        SetDriversTwice(s.host, {f.bdf}, HostBoundBdfs(fs[1..]), None);
        assert {} + HostBoundBdfs(fs[1..]) == HostBoundBdfs(fs[1..]);
      }
    }
  }

  lemma {:induction false} BindsRun(fs: seq<PciFunction>, inv: Inventory, k: Kernel, s: Exec)
    requires FromSnapshot(fs, inv)
    requires forall f :: f in fs && f.OnVfio() && f.bdf in s.host ==> s.host[f.bdf].OnVfio()
    ensures var (s', ok) := RunActions(Binds(fs), inv, k, s);
      ok ==> s'.host == Staged(s.host, Addresses(fs)) && s'.log == s.log + Records(fs)
  {
    SetDriversOne(s.host, "", Some(VFIO));
    if fs == [] {
      assert Addresses(fs) == {};
    } else {
      var f := fs[0];
      assert fs == [f] + fs[1..];
      FindUnique(inv, f);
      assert Binds(fs)[1..] == Binds(fs[1..]);
      var (s1, ok) := RunAction(Binds(fs)[0], inv, k, s);
      SetDriversOne(s.host, f.bdf, Some(VFIO));
      if ok {
        assert s1.host == Staged(s.host, {f.bdf});
        BindsRun(fs[1..], inv, k, s1);
        assert Addresses(fs) == {f.bdf} + Addresses(fs[1..]);
        SetDriversTwice(s.host, {f.bdf}, Addresses(fs[1..]), Some(VFIO));
        Regroup(s.log, LogFor(BindToVfio, f), Records(fs[1..]));
      }
    }
  }

  /** A run of PlanOf(fs) that succeeds puts exactly the selected functions on vfio-pci
      and records exactly those that were not there, with their drivers. This needs no
      distinctness and holds for every kernel. */
  lemma PlanRunOk(fs: seq<PciFunction>, inv: Inventory, k: Kernel, s: Exec)
    requires SnapshotOf(inv, s.host) && FromSnapshot(fs, inv)
    requires RunActions(PlanOf(fs), inv, k, s).1
    ensures var s' := RunActions(PlanOf(fs), inv, k, s).0;
      s'.host == Staged(s.host, Addresses(fs)) && s'.log == s.log + Records(fs)
  {
    RunActionsAppend(Unbinds(fs), Binds(fs), inv, k, s);
    UnbindsRun(fs, inv, k, s);
    var s1 := RunActions(Unbinds(fs), inv, k, s).0;
    forall f | f in fs && f.OnVfio() && f.bdf in s1.host ensures s1.host[f.bdf].OnVfio() {
      VfioNotHostBound(fs, f, inv);
    }
    BindsRun(fs, inv, k, s1);
    StagedAfterUnbind(s.host, HostBoundBdfs(fs), Addresses(fs));
  }

  lemma VfioNotHostBound(fs: seq<PciFunction>, f: PciFunction, inv: Inventory)
    requires FromSnapshot(fs, inv) && f in fs && f.OnVfio()
    ensures f.bdf !in HostBoundBdfs(fs)
  {
    if g :| g in fs && g.HostBound() && g.bdf == f.bdf {
      SameBdfSameFunction(inv, f, g);
    }
  }

  lemma StagedAfterUnbind(h: HostMap, a: set<string>, b: set<string>)
    requires a <= b
    ensures Staged(SetDrivers(h, a, None), b) == Staged(h, b)
  {}

  // ---------- Record before bind ----------

  lemma {:induction false} BindsLog(fs: seq<PciFunction>, inv: Inventory, k: Kernel, s: Exec)
    requires FromSnapshot(fs, inv)
    ensures var (s', ok) := RunActions(Binds(fs), inv, k, s); ok ==> s'.log == s.log + Records(fs)
  {
    if fs != [] {
      FindUnique(inv, fs[0]);
      assert fs == [fs[0]] + fs[1..] && Binds(fs)[1..] == Binds(fs[1..]);
      var (s1, ok) := RunAction(Binds(fs)[0], inv, k, s);
      if ok {
        BindsLog(fs[1..], inv, k, s1);
        Regroup(s.log, LogFor(BindToVfio, fs[0]), Records(fs[1..]));
      }
    }
  }

  lemma {:induction false} RecordsSnoc(fs: seq<PciFunction>, f: PciFunction)
    ensures Records(fs + [f]) == Records(fs) + LogFor(BindToVfio, f)
  {
    if fs == [] {
      assert fs + [f] == [f] && [f][1..] == [];
    } else {
      assert (fs + [f])[1..] == fs[1..] + [f];
      RecordsSnoc(fs[1..], f);
      Regroup(LogFor(BindToVfio, fs[0]), Records(fs[1..]), LogFor(BindToVfio, f));
    }
  }

  /** A bind is on record before it is tried: if a plan's run gets as far as the bind of
      fs[j], then after that bind, whether or not the kernel accepts it, the log has grown by
      the records of fs[..j + 1], and fs[j] is among them unless it was on vfio-pci. */
  lemma RecordBeforeBind(fs: seq<PciFunction>, j: nat, inv: Inventory, k: Kernel, s: Exec)
    requires FromSnapshot(fs, inv) && j < |fs|
    requires RunActions(Unbinds(fs) + Binds(fs[..j]), inv, k, s).1
    ensures var s' := RunActions(Unbinds(fs) + Binds(fs[..j + 1]), inv, k, s).0;
      s'.log == s.log + Records(fs[..j + 1]) && (!fs[j].OnVfio() ==> Recorded(s'.log, fs[j]))
  {
    var f := fs[j];
    var bind := VfioAction(f.bdf, BindToVfio);
    FindUnique(inv, f);
    BindsSnoc(fs, j);
    RunActionsAppend(Unbinds(fs), Binds(fs[..j]), inv, k, s);
    RunActionsAppend(Unbinds(fs) + Binds(fs[..j]), [bind], inv, k, s);
    Regroup(Unbinds(fs), Binds(fs[..j]), [bind]);
    UnbindsRun(fs, inv, k, s);
    var s1, s2 := RunActions(Unbinds(fs), inv, k, s).0, RunActions(Unbinds(fs) + Binds(fs[..j]), inv, k, s).0;
    BindsLog(fs[..j], inv, k, s1);
    RunSingle(bind, inv, k, s2);
    RecordsSnoc(fs[..j], f);
    assert fs[..j + 1] == fs[..j] + [f];
    Regroup(s.log, Records(fs[..j]), LogFor(BindToVfio, f));
    if !f.OnVfio() {
      assert LogFor(BindToVfio, f)[0] == VfioTransition(f.bdf, f.driver, f.iommuGroup);
    }
  }

  lemma BindsSnoc(fs: seq<PciFunction>, j: nat)
    requires j < |fs|
    ensures Binds(fs[..j + 1]) == Binds(fs[..j]) + [VfioAction(fs[j].bdf, BindToVfio)]
    ensures Binds(fs) == Binds(fs[..j + 1]) + Binds(fs[j + 1..])
  {}

  /** So if the kernel refuses the bind of fs[j], the run of the whole plan ends there, with
      fs[j] on record; and it is unbound unless an earlier bind of the plan named it too. */
  lemma RefusedBind(fs: seq<PciFunction>, j: nat, inv: Inventory, k: Kernel, s: Exec)
    requires SnapshotOf(inv, s.host) && FromSnapshot(fs, inv) && j < |fs|
    requires RunActions(Unbinds(fs) + Binds(fs[..j]), inv, k, s).1
    requires !RunActions(Unbinds(fs) + Binds(fs[..j + 1]), inv, k, s).1
    ensures var (s', ok) := RunActions(PlanOf(fs), inv, k, s);
      && !ok && s'.log == s.log + Records(fs[..j + 1]) && Recorded(s'.log, fs[j])
      && fs[j].bdf in s'.host
      && s'.host[fs[j].bdf].driver == if fs[j] in fs[..j] then Some(VFIO) else None
  {
    var f := fs[j];
    var bind := VfioAction(f.bdf, BindToVfio);
    RecordBeforeBind(fs, j, inv, k, s);
    BindsSnoc(fs, j);
    Regroup(Unbinds(fs), Binds(fs[..j + 1]), Binds(fs[j + 1..]));
    RunActionsAppend(Unbinds(fs) + Binds(fs[..j + 1]), Binds(fs[j + 1..]), inv, k, s);
    Regroup(Unbinds(fs), Binds(fs[..j]), [bind]);
    RunActionsAppend(Unbinds(fs) + Binds(fs[..j]), [bind], inv, k, s);
    var s2 := RunActions(Unbinds(fs) + Binds(fs[..j]), inv, k, s).0;
    RunSingle(bind, inv, k, s2);
    FindUnique(inv, f);
    HostBeforeBind(fs, j, inv, k, s);
  }

  /** The host when a plan's run gets to the bind of fs[j]. */
  lemma HostBeforeBind(fs: seq<PciFunction>, j: nat, inv: Inventory, k: Kernel, s: Exec)
    requires SnapshotOf(inv, s.host) && FromSnapshot(fs, inv) && j < |fs| && !fs[j].OnVfio()
    requires RunActions(Unbinds(fs) + Binds(fs[..j]), inv, k, s).1
    ensures var s' := RunActions(Unbinds(fs) + Binds(fs[..j]), inv, k, s).0;
      fs[j].bdf in s'.host && s'.host[fs[j].bdf].driver == if fs[j] in fs[..j] then Some(VFIO) else None
  {
    var f := fs[j];
    RunActionsAppend(Unbinds(fs), Binds(fs[..j]), inv, k, s);
    UnbindsRun(fs, inv, k, s);
    var s1 := RunActions(Unbinds(fs), inv, k, s).0;
    forall g | g in fs[..j] && g.OnVfio() && g.bdf in s1.host ensures s1.host[g.bdf].OnVfio() {
      VfioNotHostBound(fs, g, inv);
    }
    BindsRun(fs[..j], inv, k, s1);
    assert f.bdf in Addresses(fs[..j]) <==> f in fs[..j] by {
      if g :| g in fs[..j] && g.bdf == f.bdf {
        SameBdfSameFunction(inv, f, g);
      }
    }
    assert f.HostBound() ==> f.bdf in HostBoundBdfs(fs);
  }

  // ---------- When the writes of a plan are legitimate ----------

  /** Every write that the run issues, up to where it stops, finds its device in the
      state it needs. */
  ghost predicate WritesReady(actions: seq<VfioAction>, inv: Inventory, k: Kernel, s: Exec) {
    actions == [] ||
    var a := actions[0];
    var found := FindByBdf(inv, a.bdf);
    var (s1, ok) := RunAction(a, inv, k, s);
    && (found.Some? && WriteFor(a.kind, found.value).Some? ==> Ready(s.host, WriteFor(a.kind, found.value).value))
    && (ok ==> WritesReady(actions[1..], inv, k, s1))
  }

  lemma {:induction false} WritesReadyAppend(a: seq<VfioAction>, b: seq<VfioAction>, inv: Inventory, k: Kernel, s: Exec)
    ensures WritesReady(a + b, inv, k, s) <==>
            WritesReady(a, inv, k, s) &&
            (RunActions(a, inv, k, s).1 ==> WritesReady(b, inv, k, RunActions(a, inv, k, s).0))
  {
    if a == [] {
      assert a + b == b;
    } else {
      assert (a + b)[1..] == a[1..] + b;
      var (s1, ok) := RunAction(a[0], inv, k, s);
      if ok {
        WritesReadyAppend(a[1..], b, inv, k, s1);
      }
    }
  }

  /** No function that is off vfio-pci is selected twice. */
  ghost predicate NoRepeat(fs: seq<PciFunction>) {
    forall i, j :: 0 <= i < j < |fs| && !fs[i].OnVfio() ==> fs[i].bdf != fs[j].bdf
  }

  lemma NoRepeatTail(fs: seq<PciFunction>)
    requires fs != [] && NoRepeat(fs)
    ensures NoRepeat(fs[1..])
    ensures !fs[0].OnVfio() ==> forall g :: g in fs[1..] ==> g.bdf != fs[0].bdf
  {
    forall i, j | 0 <= i < j < |fs[1..]| && !fs[1..][i].OnVfio() ensures fs[1..][i].bdf != fs[1..][j].bdf {
      assert fs[1..][i] == fs[i + 1] && fs[1..][j] == fs[j + 1];
    }
  }

  lemma {:induction false} UnbindsReady(fs: seq<PciFunction>, inv: Inventory, k: Kernel, s: Exec)
    requires FromSnapshot(fs, inv) && NoRepeat(fs)
    requires forall f :: f in fs ==> f.bdf in s.host && s.host[f.bdf].driver == f.driver
    ensures WritesReady(Unbinds(fs), inv, k, s)
  {
    if fs != [] {
      var f := fs[0];
      NoRepeatTail(fs);
      WritesReadyAppend(FirstUnbind(fs), Unbinds(fs[1..]), inv, k, s);
      FirstUnbindRun(fs, inv, k, s);
      var (s1, ok) := RunActions(FirstUnbind(fs), inv, k, s);
      if ok {
        UnbindsReady(fs[1..], inv, k, s1);
      }
    }
  }

  lemma {:induction false} BindsReady(fs: seq<PciFunction>, inv: Inventory, k: Kernel, s: Exec)
    requires FromSnapshot(fs, inv) && NoRepeat(fs)
    requires forall f :: f in fs && !f.OnVfio() ==> f.bdf in s.host && s.host[f.bdf].driver == None
    ensures WritesReady(Binds(fs), inv, k, s)
  {
    if fs != [] {
      var f := fs[0];
      NoRepeatTail(fs);
      FindUnique(inv, f);
      assert Binds(fs)[1..] == Binds(fs[1..]);
      var (s1, ok) := RunAction(Binds(fs)[0], inv, k, s);
      if ok {
        BindsReady(fs[1..], inv, k, s1);
      }
    }
  }

  /** Without a repeated off-vfio function, every write of the plan is issued to a device
      in the state it needs, whatever the kernel answers. */
  lemma PlanWritesReady(fs: seq<PciFunction>, inv: Inventory, k: Kernel, s: Exec)
    requires SnapshotOf(inv, s.host) && FromSnapshot(fs, inv) && NoRepeat(fs)
    ensures WritesReady(PlanOf(fs), inv, k, s)
  {
    WritesReadyAppend(Unbinds(fs), Binds(fs), inv, k, s);
    UnbindsReady(fs, inv, k, s);
    UnbindsRun(fs, inv, k, s);
    var (s1, ok) := RunActions(Unbinds(fs), inv, k, s);
    if ok {
      forall f | f in fs && !f.OnVfio() ensures f.bdf in s1.host && s1.host[f.bdf].driver == None {}
      BindsReady(fs, inv, k, s1);
    }
  }

  lemma {:induction false} ReadyRunsSucceed(actions: seq<VfioAction>, inv: Inventory, k: Kernel, s: Exec)
    requires Honest(k) && forall a :: a in actions ==> FindByBdf(inv, a.bdf).Some?
    ensures RunActions(actions, inv, k, s).1 <==> WritesReady(actions, inv, k, s)
  {
    if actions != [] {
      assert actions == [actions[0]] + actions[1..];
      var (s1, ok) := RunAction(actions[0], inv, k, s);
      if ok {
        ReadyRunsSucceed(actions[1..], inv, k, s1);
      }
    }
  }

  /** Under an honest kernel the plan runs to the end if and only if no off-vfio function
      is selected twice. */
  lemma HonestPlanSucceedsIff(fs: seq<PciFunction>, inv: Inventory, k: Kernel, s: Exec)
    requires Honest(k) && SnapshotOf(inv, s.host) && FromSnapshot(fs, inv)
    ensures RunActions(PlanOf(fs), inv, k, s).1 <==> NoRepeat(fs)
  {
    forall a | a in PlanOf(fs) ensures FindByBdf(inv, a.bdf).Some? {
      UnbindMember(fs, a);
      var f :| f in fs && f.bdf == a.bdf;
      FindUnique(inv, f);
    }
    ReadyRunsSucceed(PlanOf(fs), inv, k, s);
    if NoRepeat(fs) {
      PlanWritesReady(fs, inv, k, s);
    } else if RunActions(PlanOf(fs), inv, k, s).1 {
      var i, j :| 0 <= i < j < |fs| && !fs[i].OnVfio() && fs[i].bdf == fs[j].bdf;
      RunActionsAppend(Unbinds(fs), Binds(fs), inv, k, s);
      var s1 := RunActions(Unbinds(fs), inv, k, s).0;
      SecondBindRefused(fs, i, j, inv, k, s1);
    }
  }

  /** An honest kernel refuses the second bind of the same device. */
  lemma SecondBindRefused(fs: seq<PciFunction>, i: nat, j: nat, inv: Inventory, k: Kernel, s: Exec)
    requires Honest(k) && FromSnapshot(fs, inv)
    requires i < j < |fs| && !fs[i].OnVfio() && fs[i].bdf == fs[j].bdf
    ensures !RunActions(Binds(fs), inv, k, s).1
  {
    var f := fs[i];
    SameBdfSameFunction(inv, f, fs[j]);
    FindUnique(inv, f);
    SplitBinds(fs, j);
    RunActionsAppend(Binds(fs[..j]), Binds(fs[j..]), inv, k, s);
    var (s1, ok) := RunActions(Binds(fs[..j]), inv, k, s);
    if ok {
      assert f in fs[..j];
      BoundAfterBinds(fs[..j], f, inv, k, s);
      assert Binds(fs[j..])[0] == VfioAction(f.bdf, BindToVfio);
    }
  }

  lemma SplitBinds(fs: seq<PciFunction>, j: nat)
    requires j <= |fs|
    ensures Binds(fs) == Binds(fs[..j]) + Binds(fs[j..])
  {}

  lemma {:induction false} BoundAfterBinds(fs: seq<PciFunction>, f: PciFunction, inv: Inventory, k: Kernel, s: Exec)
    requires Honest(k) && FromSnapshot(fs, inv) && f in inv && !f.OnVfio()
    requires RunActions(Binds(fs), inv, k, s).1
    requires f in fs || (f.bdf in s.host && s.host[f.bdf].OnVfio())
    ensures var s' := RunActions(Binds(fs), inv, k, s).0; f.bdf in s'.host && s'.host[f.bdf].OnVfio()
  {
    if fs != [] {
      FindUnique(inv, fs[0]);
      assert fs == [fs[0]] + fs[1..];
      assert Binds(fs)[1..] == Binds(fs[1..]);
      var (s1, _) := RunAction(Binds(fs)[0], inv, k, s);
      BoundAfterBinds(fs[1..], f, inv, k, s1);
    }
  }
}
