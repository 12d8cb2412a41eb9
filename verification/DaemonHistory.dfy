/** Whole histories of the daemon: any sequence of commands and ticks over all its VMs, and
    what each VM's own run is in it. */
module DaemonHistory {
  import opened Prelude
  import opened Config
  import opened Text
  import opened Pci
  import opened VfioExecute
  import opened VfioRestore
  import opened VfioStaging
  import opened Lifecycle
  import opened HostLife
  import opened Daemon
  import opened DaemonState
  import opened DaemonHost

  type Entries = map<string, VmEntry>

  datatype Call = Command(args: seq<string>, at: World) | Round(turns: Turns)

  /** A call, the VMs after it and the events that went into its snapshot, if it made one. */
  datatype Entry = Entry(call: Call, vms: Vms, batches: Snapshot)

  /** What Registry.HandleVmCommand and Registry.BuildSnapshot promise, on the VMs' values. */
  ghost predicate Happens(k: Kernel, entries: Entries, before: Vms, e: Entry) {
    match e.call
    case Command(args, at) => CommandTakes(entries, args, at, before, e.vms) && e.batches == map[]
    case Round(turns) =>
      && turns.Consistent() && IsOrder(turns.order, before.Keys)
      && e.vms.Keys == before.Keys && e.batches.Keys <= before.Keys
      && OneTickEach(k, turns, before, e.vms, e.batches)
  }

  function Latest(history: seq<Entry>): Vms {
    if history == [] then map[] else history[|history| - 1].vms
  }

  /** A history of a daemon that starts without VMs. */
  ghost predicate History(k: Kernel, entries: Entries, history: seq<Entry>) {
    history == [] ||
    var front, last := history[..|history| - 1], history[|history| - 1];
    History(k, entries, front) && Happens(k, entries, Latest(front), last)
  }

  // ---------- The run of one VM ----------

  /** The turn of a VM in a round, if it has one. */
  function TurnOf(order: seq<string>, name: string): (i: Option<nat>)
    ensures i.Some? ==> i.value < |order| && order[i.value] == name
    ensures i.None? <==> name !in order
  {
    if order == [] then None
    else if order[|order| - 1] == name then Some(|order| - 1)
    else
      assert order == order[..|order| - 1] + [order[|order| - 1]];
      TurnOf(order[..|order| - 1], name)
  }

  /** What a call is for one VM: at most one action. */
  function ActionOf(name: string, call: Call): seq<Action> {
    match call
    case Command(args, at) =>
      if |args| < 2 || args[1] != name then []
      else if IsStart(args[0]) then [Action(at, StartCommand)]
      else if args[0] == "stop" then [Action(at, StopCommand)]
      else []
    case Round(turns) =>
      var i := TurnOf(turns.order, name);
      if i.None? || !turns.Consistent() then []
      else [Action(turns.met[i.value], Tick(turns.envs[i.value], turns.exits(name)))]
  }

  function RunOf(name: string, history: seq<Entry>): seq<Action> {
    if history == [] then []
    else RunOf(name, history[..|history| - 1]) + ActionOf(name, history[|history| - 1].call)
  }

  /** Everything that snapshots carried for one VM. */
  function Carried(name: string, history: seq<Entry>): seq<IpcEvent> {
    if history == [] then []
    else Carried(name, history[..|history| - 1]) + BatchOf(history[|history| - 1].batches, name)
  }

  /** The VM with no host in view. */
  function Bared(vm: Option<Vm>): Option<Vm> {
    Met(vm, NOWHERE)
  }

  lemma MetAgain(vm: Option<Vm>, a: World, b: World)
    ensures Met(Met(vm, a), b) == Met(vm, b)
  {}

  /** What an action does depends on the VM, not on the host it was last seen on. */
  lemma ApplyBared(k: Kernel, entry: VmEntry, vm: Option<Vm>, a: Action)
    ensures Apply(k, entry, Bared(vm), a) == Apply(k, entry, vm, a)
  {
    MetAgain(vm, NOWHERE, a.at);
  }

  /** The run after one more call. */
  lemma RunStep(k: Kernel, entry: VmEntry, run: seq<Action>, a: Action)
    ensures After(k, entry, run + [a]) == Apply(k, entry, After(k, entry, run), a).0
    ensures Sent(k, entry, run + [a]) == Sent(k, entry, run) + Apply(k, entry, After(k, entry, run), a).1
  {
    assert (run + [a])[..|run|] == run;
  }

  /** One call, for one VM: its state and batch after the call are those of its action. */
  lemma CallIsAction(k: Kernel, entries: Entries, before: Vms, e: Entry, name: string, vm: Option<Vm>)
    requires Happens(k, entries, before, e) && name in entries
    requires Bared(vm) == Lookup(before, name, NOWHERE)
    ensures var acts := ActionOf(name, e.call);
      if acts == [] then Lookup(e.vms, name, NOWHERE) == Bared(vm) && BatchOf(e.batches, name) == []
      else
        |acts| == 1 &&
        (Lookup(e.vms, name, NOWHERE), BatchOf(e.batches, name))
        == (Bared(Apply(k, entries[name], vm, acts[0]).0), Apply(k, entries[name], vm, acts[0]).1)
  {
    match e.call
    case Command(args, at) =>
      MetAgain(vm, NOWHERE, at);
      assert Lookup(before, name, at) == Met(vm, at);
      assert Lookup(e.vms, name, at) == Commanded(entries, args, name, Met(vm, at), at);
      LookupMet(e.vms, name, at);
      LookupMet(before, name, at);
    case Round(turns) =>
      var i := TurnOf(turns.order, name);
      if i.Some? {
        ApplyBared(k, entries[name], vm, ActionOf(name, e.call)[0]);
        TickIsAction(k, entries[name], turns, before, e, name, i.value);
      } else {
        NoTurn(turns.order, before.Keys, name);
      }
  }

  lemma LookupMet(vms: Vms, name: string, at: World)
    ensures Lookup(vms, name, NOWHERE) == Bared(Lookup(vms, name, at))
  {}

  lemma NoTurn(order: seq<string>, names: set<string>, name: string)
    requires IsOrder(order, names) && name !in order
    ensures name !in names
  {}

  lemma TickIsAction(k: Kernel, entry: VmEntry, turns: Turns, before: Vms, e: Entry, name: string, i: nat)
    requires OneTickEach(k, turns, before, e.vms, e.batches) && TurnOf(turns.order, name) == Some(i)
    ensures name in before && name in e.vms
    ensures var (next, batch) := Apply(k, entry, Some(before[name]),
                                       Action(turns.met[i], Tick(turns.envs[i], turns.exits(name))));
      && next.Some? && Bared(next) == Lookup(e.vms, name, NOWHERE) && batch == BatchOf(e.batches, name)
      && turns.met[i + 1] == World(next.value.m.host, next.value.m.writes)
  {
    assert TickTakes(k, turns.envs[i], turns.exits(name), before[name], turns.met[i],
                     e.vms[name], turns.met[i + 1], BatchOf(e.batches, name));
  }

  lemma RunsOn(k: Kernel, entries: Entries, before: Vms, e: Entry, name: string, run: seq<Action>)
    requires Happens(k, entries, before, e) && name in entries
    requires Bared(After(k, entries[name], run)) == Lookup(before, name, NOWHERE)
    ensures var longer := run + ActionOf(name, e.call);
      && Lookup(e.vms, name, NOWHERE) == Bared(After(k, entries[name], longer))
      && Sent(k, entries[name], longer) == Sent(k, entries[name], run) + BatchOf(e.batches, name)
  {
    var acts, sent := ActionOf(name, e.call), Sent(k, entries[name], run);
    CallIsAction(k, entries, before, e, name, After(k, entries[name], run));
    if acts == [] {
      assert run + [] == run && sent + [] == sent;
    } else {
      assert acts == [acts[0]];
      RunStep(k, entries[name], run, acts[0]);
    }
  }

  /** In a history of the whole daemon each VM goes through its own run: it ends as the run
      does, and the snapshots carried for it exactly what the run sent. */
  lemma {:induction false} HistoryIsRuns(k: Kernel, entries: Entries, history: seq<Entry>, name: string)
    requires History(k, entries, history) && name in entries
    ensures Lookup(Latest(history), name, NOWHERE) == Bared(After(k, entries[name], RunOf(name, history)))
    ensures Carried(name, history) == Sent(k, entries[name], RunOf(name, history))
  {
    if history != [] {
      var front, last := history[..|history| - 1], history[|history| - 1];
      HistoryIsRuns(k, entries, front, name);
      RunsOn(k, entries, Latest(front), last, name, RunOf(name, front));
    }
  }

  ghost predicate ValidWorlds(history: seq<Entry>) {
    forall e :: e in history ==>
      match e.call
      case Command(args, at) => ValidHost(at.host)
      case Round(turns) => forall w :: w in turns.met ==> ValidHost(w.host)
  }

  lemma {:induction false} RunWorlds(name: string, history: seq<Entry>)
    requires ValidWorlds(history)
    ensures ValidHosts(RunOf(name, history))
  {
    if history != [] {
      var front, last := history[..|history| - 1], history[|history| - 1];
      assert last in history && forall e :: e in front ==> e in history;
      RunWorlds(name, front);
    }
  }

  /** Exactly-once, in-order delivery for the whole daemon: in every history of commands and
      ticks over any number of VMs, the snapshots carried for each VM the concatenation of
      its incarnations' event logs, kind and message preserved. */
  lemma AllDelivered(k: Kernel, entries: Entries, history: seq<Entry>, name: string)
    requires History(k, entries, history) && ValidWorlds(history) && name in entries
    ensures var retired := Retired(k, entries[name], RunOf(name, history));
      Carries(Carried(name, history), retired + Log(Lookup(Latest(history), name, NOWHERE)))
  {
    HistoryIsRuns(k, entries, history, name);
    RunWorlds(name, history);
    ExactlyOnce(k, entries[name], RunOf(name, history));
  }

  // ---------- VMs that share the host ----------

  /** No device is configured for two VMs. */
  ghost predicate Disjoint(entries: Entries) {
    forall a, b, d :: a in entries && b in entries && a != b ==>
      !(Configured(entries[a].cfg, d) && Configured(entries[b].cfg, d))
  }

  function HostAfter(h0: HostMap, history: seq<Entry>): HostMap {
    if history == [] then h0
    else
      match history[|history| - 1].call
      case Command(args, at) => at.host
      case Round(turns) => if turns.Consistent() then turns.met[|turns.order|].host else h0
  }

  /** The host that a call finds. */
  function HostFound(call: Call): HostMap {
    match call
    case Command(args, at) => at.host
    case Round(turns) => if turns.Consistent() then turns.met[0].host else map[]
  }

  /** What is given of the host besides: that others leave the devices themselves alone, and
      that the kernel reports driver names that restoring keeps. */
  datatype Given = Given(topology: bool, cleanNames: bool)

  ghost predicate FitHost(h: HostMap, g: Given) {
    ValidHost(h) && (g.cleanNames ==> CleanHost(h))
  }

  ghost predicate FitHosts(acts: seq<Action>, g: Given) {
    forall a :: a in acts ==> FitHost(a.at.host, g)
  }

  /** Others may rebind any device that no VM is configured for; with `g.topology`, that is
      all they do. */
  ghost predicate Foreign(entries: Entries, h: HostMap, h': HostMap, g: Given) {
    && (forall name :: name in entries ==> SameConfigured(entries[name].cfg, h, h'))
    && (g.topology ==> SameDevices(h, h'))
  }

  /** Between the daemon's calls nobody else rebinds a configured device. */
  ghost predicate Orderly(entries: Entries, h0: HostMap, history: seq<Entry>, g: Given) {
    history == [] ||
    var front, last := history[..|history| - 1], history[|history| - 1];
    && Orderly(entries, h0, front, g)
    && FitHost(HostFound(last.call), g)
    && Foreign(entries, HostAfter(h0, front), HostFound(last.call), g)
  }

  /** A VM's run is its own affair, and its devices are in the host h as the run left them. */
  ghost predicate Aligned(k: Kernel, entry: VmEntry, h0: HostMap, run: seq<Action>, h: HostMap, g: Given) {
    && Undisturbed(k, entry, h0, run) && FitHosts(run, g)
    && SameConfigured(entry.cfg, HostOf(h0, After(k, entry, run)), h)
    && (g.topology ==> TopologyKept(k, entry, h0, run) && SameDevices(HostOf(h0, After(k, entry, run)), h))
  }

  lemma AlignedLater(k: Kernel, entry: VmEntry, h0: HostMap, run: seq<Action>, h: HostMap, h': HostMap, g: Given)
    requires Aligned(k, entry, h0, run, h, g)
    requires SameConfigured(entry.cfg, h, h') && (g.topology ==> SameDevices(h, h'))
    ensures Aligned(k, entry, h0, run, h', g)
  {}

  /** A run that acts on the host as it is goes on undisturbed. */
  lemma AlignedAction(k: Kernel, entry: VmEntry, h0: HostMap, run: seq<Action>, a: Action, g: Given)
    requires Aligned(k, entry, h0, run, a.at.host, g) && FitHost(a.at.host, g)
    ensures Undisturbed(k, entry, h0, run + [a]) && FitHosts(run + [a], g)
    ensures g.topology ==> TopologyKept(k, entry, h0, run + [a])
  {
    assert (run + [a])[..|run|] == run;
  }

  lemma AlignedCommand(k: Kernel, entry: VmEntry, h0: HostMap, run: seq<Action>, a: Action, g: Given)
    requires Aligned(k, entry, h0, run, a.at.host, g) && FitHost(a.at.host, g) && !a.what.Tick?
    ensures Aligned(k, entry, h0, run + [a], a.at.host, g)
  {
    AlignedAction(k, entry, h0, run, a, g);
    RunStep(k, entry, run, a);
  }

  // ---------- A round of ticks ----------

  /** The host that the i-th turn of a round meets, or that the last one left. */
  function HostAt(turns: Turns, i: nat): HostMap {
    if i < |turns.met| then turns.met[i].host else map[]
  }

  /** The run of a VM in the middle of a round, when the first i turns are over. */
  function RunAt(name: string, run: seq<Action>, turns: Turns, i: nat): seq<Action>
  {
    var t := TurnOf(turns.order, name);
    if t.Some? && t.value < i && turns.Consistent()
    then run + [Action(turns.met[t.value], Tick(turns.envs[t.value], turns.exits(name)))]
    else run
  }

  lemma TurnIs(order: seq<string>, names: set<string>, i: nat)
    requires IsOrder(order, names) && i < |order|
    ensures TurnOf(order, order[i]) == Some(i)
  {}

  /** What the turn of one VM means for it and for the others. */
  ghost predicate TurnTaken(k: Kernel, entry: VmEntry, h0: HostMap, run: seq<Action>, h: HostMap, h': HostMap,
                            g: Given) {
    && FitHost(h', g) && SameDevices(h, h')
    && Aligned(k, entry, h0, run, h', g)
    && forall other: VmConfig ::
         (forall b :: !(Configured(entry.cfg, b) && Configured(other, b))) ==> SameConfigured(other, h, h')
  }

  /** What a tick of one VM means for the host of all: it stays fit, and devices of other VMs
      are as before. */
  lemma TickOfOne(k: Kernel, entry: VmEntry, h0: HostMap, run: seq<Action>, at: World, env: Env, exited: bool, g: Given)
    requires Aligned(k, entry, h0, run, at.host, g) && FitHost(at.host, g) && After(k, entry, run).Some?
    ensures var a := Action(at, Tick(env, exited));
      var next := After(k, entry, run + [a]);
      next.Some? && TurnTaken(k, entry, h0, run + [a], at.host, next.value.m.host, g)
  {
    var a, vm := Action(at, Tick(env, exited)), After(k, entry, run).value;
    var met := Relocate(vm, at);
    AlignedAction(k, entry, h0, run, a, g);
    RunStep(k, entry, run, a);
    TickKeepsDevices(k, env, exited, met);
    if g.cleanNames {
      RunIsClean(k, entry, h0, run + [a]);
    }
    RunCleared(k, entry, h0, run);
    forall other: VmConfig | forall b :: !(Configured(entry.cfg, b) && Configured(other, b))
      ensures SameConfigured(other, at.host, TickOf(k, env, exited, met).0.m.host)
    {
      DisjointVmsDoNotDisturb(k, entry, run, at, env, exited, other);
    }
  }

  lemma RunIsClean(k: Kernel, entry: VmEntry, h0: HostMap, run: seq<Action>)
    requires Undisturbed(k, entry, h0, run) && CleanHosts(run) && After(k, entry, run).Some?
    ensures CleanHost(After(k, entry, run).value.m.host)
  {
    RunStaysWithin(k, entry, h0, run);
    HeldIsClean(entry, h0, After(k, entry, run).value);
  }

  lemma HeldIsClean(entry: VmEntry, h0: HostMap, vm: Vm)
    requires Held(entry, h0, vm)
    ensures CleanHost(vm.m.host)
  {
    var base: HostMap :| HeldFrom(entry, h0, base, vm);
    VfioIsClean();
    forall b | b in vm.m.host
      ensures vm.m.host[b].bdf == b && (vm.m.host[b].driver.Some? ==> CleanName(vm.m.host[b].driver.value))
    {
      assert DeviceContained(entry.cfg, base[b], vm.m.host[b]);
    }
  }

  lemma VfioIsClean()
    ensures CleanName(VFIO)
  {
    TrimSolid(VFIO);
  }

  /** All VMs in the middle of a round. */
  ghost predicate RoundAligned(k: Kernel, entries: Entries, h0: HostMap, history: seq<Entry>, turns: Turns, i: nat,
                               g: Given) {
    && FitHost(HostAt(turns, i), g)
    && forall name :: name in entries ==>
         Aligned(k, entries[name], h0, RunAt(name, RunOf(name, history), turns, i), HostAt(turns, i), g)
  }

  lemma {:induction false} KnownVms(k: Kernel, entries: Entries, history: seq<Entry>)
    requires History(k, entries, history)
    ensures Latest(history).Keys <= entries.Keys
  {
    if history != [] {
      var front, last := history[..|history| - 1], history[|history| - 1];
      KnownVms(k, entries, front);
      if last.call.Command? {
        forall name | name in last.vms ensures name in entries {
          assert Lookup(last.vms, name, last.call.at).Some?;
        }
      }
    }
  }

  /** The VM whose turn it is has been started. */
  lemma OwnVm(k: Kernel, entries: Entries, history: seq<Entry>, turns: Turns, i: nat)
    requires History(k, entries, history) && IsOrder(turns.order, Latest(history).Keys) && i < |turns.order|
    ensures var own := turns.order[i];
      && own in entries && own in Latest(history) && TurnOf(turns.order, own) == Some(i)
      && Bared(After(k, entries[own], RunOf(own, history))) == Lookup(Latest(history), own, NOWHERE)
  {
    KnownVms(k, entries, history);
    OrderMembers(turns.order, Latest(history).Keys);
    TurnIs(turns.order, Latest(history).Keys, i);
    HistoryIsRuns(k, entries, history, turns.order[i]);
  }

  /** The host that a VM leaves to the next is the one its run ends on. */
  lemma LeftHost(k: Kernel, entry: VmEntry, turns: Turns, before: Vms, e: Entry, name: string, i: nat,
                 run: seq<Action>)
    requires OneTickEach(k, turns, before, e.vms, e.batches) && TurnOf(turns.order, name) == Some(i)
    requires Bared(After(k, entry, run)) == Lookup(before, name, NOWHERE)
    ensures turns.Consistent()
    ensures var next := After(k, entry, run + [Action(turns.met[i], Tick(turns.envs[i], turns.exits(name)))]);
      After(k, entry, run).Some? && next.Some? && HostAt(turns, i + 1) == next.value.m.host
  {
    var a := Action(turns.met[i], Tick(turns.envs[i], turns.exits(name)));
    TickIsAction(k, entry, turns, before, e, name, i);
    RunStep(k, entry, run, a);
    ApplyBared(k, entry, After(k, entry, run), a);
    ApplyBared(k, entry, Some(before[name]), a);
  }

  /** The VM whose turn it is ticks on the host it meets. */
  lemma OwnTurn(k: Kernel, entry: VmEntry, h0: HostMap, turns: Turns, before: Vms, e: Entry, own: string, i: nat,
                run: seq<Action>, g: Given)
    requires OneTickEach(k, turns, before, e.vms, e.batches) && TurnOf(turns.order, own) == Some(i)
    requires Bared(After(k, entry, run)) == Lookup(before, own, NOWHERE)
    requires FitHost(HostAt(turns, i), g) && Aligned(k, entry, h0, run, HostAt(turns, i), g)
    ensures turns.Consistent()
    ensures TurnTaken(k, entry, h0, run + [Action(turns.met[i], Tick(turns.envs[i], turns.exits(own)))],
                      HostAt(turns, i), HostAt(turns, i + 1), g)
  {
    LeftHost(k, entry, turns, before, e, own, i, run);
    TickOfOne(k, entry, h0, run, turns.met[i], turns.envs[i], turns.exits(own), g);
  }

  /** The others do not notice. */
  lemma OtherTurn(k: Kernel, entry: VmEntry, h0: HostMap, name: string, run: seq<Action>, turns: Turns, i: nat,
                  g: Given)
    requires TurnOf(turns.order, name) != Some(i)
    requires Aligned(k, entry, h0, RunAt(name, run, turns, i), HostAt(turns, i), g)
    requires SameConfigured(entry.cfg, HostAt(turns, i), HostAt(turns, i + 1))
    requires SameDevices(HostAt(turns, i), HostAt(turns, i + 1))
    ensures Aligned(k, entry, h0, RunAt(name, run, turns, i + 1), HostAt(turns, i + 1), g)
  {
    assert RunAt(name, run, turns, i + 1) == RunAt(name, run, turns, i);
    AlignedLater(k, entry, h0, RunAt(name, run, turns, i), HostAt(turns, i), HostAt(turns, i + 1), g);
  }

  lemma TurnAligned(k: Kernel, entries: Entries, h0: HostMap, history: seq<Entry>, e: Entry, turns: Turns, i: nat,
                    g: Given)
    requires History(k, entries, history) && Happens(k, entries, Latest(history), e) && e.call == Round(turns)
    requires Disjoint(entries) && i < |turns.order| && RoundAligned(k, entries, h0, history, turns, i, g)
    ensures RoundAligned(k, entries, h0, history, turns, i + 1, g)
  {
    var own := turns.order[i];
    OwnVm(k, entries, history, turns, i);
    OwnTurn(k, entries[own], h0, turns, Latest(history), e, own, i, RunOf(own, history), g);
    forall name | name in entries
      ensures Aligned(k, entries[name], h0, RunAt(name, RunOf(name, history), turns, i + 1), HostAt(turns, i + 1), g)
    {
      if name != own {
        OtherTurn(k, entries[name], h0, name, RunOf(name, history), turns, i, g);
      }
    }
  }

  lemma {:induction false} RoundStaysAligned(k: Kernel, entries: Entries, h0: HostMap, history: seq<Entry>, e: Entry,
                                             turns: Turns, i: nat, g: Given)
    requires History(k, entries, history) && Happens(k, entries, Latest(history), e) && e.call == Round(turns)
    requires Disjoint(entries) && i <= |turns.order| && RoundAligned(k, entries, h0, history, turns, 0, g)
    ensures RoundAligned(k, entries, h0, history, turns, i, g)
  {
    if i > 0 {
      RoundStaysAligned(k, entries, h0, history, e, turns, i - 1, g);
      TurnAligned(k, entries, h0, history, e, turns, i - 1, g);
    }
  }

  // ---------- Whole histories ----------

  ghost predicate AllAligned(k: Kernel, entries: Entries, h0: HostMap, history: seq<Entry>, h: HostMap, g: Given) {
    forall name :: name in entries ==> Aligned(k, entries[name], h0, RunOf(name, history), h, g)
  }

  lemma CommandAlignedOne(k: Kernel, entry: VmEntry, h0: HostMap, name: string, run: seq<Action>, call: Call, g: Given)
    requires call.Command? && FitHost(call.at.host, g) && Aligned(k, entry, h0, run, call.at.host, g)
    ensures Aligned(k, entry, h0, run + ActionOf(name, call), call.at.host, g)
  {
    var acts := ActionOf(name, call);
    if acts == [] {
      assert run + [] == run;
    } else {
      assert acts == [acts[0]] && acts[0].at == call.at;
      AlignedCommand(k, entry, h0, run, acts[0], g);
    }
  }

  lemma CommandAligned(k: Kernel, entries: Entries, h0: HostMap, front: seq<Entry>, e: Entry, g: Given)
    requires e.call.Command? && FitHost(HostFound(e.call), g)
    requires AllAligned(k, entries, h0, front, HostFound(e.call), g)
    ensures AllAligned(k, entries, h0, front + [e], HostAfter(h0, front + [e]), g)
  {
    assert (front + [e])[..|front|] == front;
    forall name | name in entries
      ensures Aligned(k, entries[name], h0, RunOf(name, front + [e]), HostAfter(h0, front + [e]), g)
    {
      CommandAlignedOne(k, entries[name], h0, name, RunOf(name, front), e.call, g);
    }
  }

  lemma RunAtEnds(name: string, front: seq<Entry>, e: Entry, turns: Turns)
    requires turns.Consistent() && e.call == Round(turns)
    ensures var run := RunOf(name, front);
      RunAt(name, run, turns, 0) == run && RunAt(name, run, turns, |turns.order|) == RunOf(name, front + [e])
  {
    assert (front + [e])[..|front|] == front;
    assert RunOf(name, front) + [] == RunOf(name, front);
  }

  lemma RoundEnds(k: Kernel, entries: Entries, h0: HostMap, front: seq<Entry>, e: Entry, turns: Turns, g: Given)
    requires History(k, entries, front) && Happens(k, entries, Latest(front), e) && e.call == Round(turns)
    requires Disjoint(entries) && FitHost(HostFound(e.call), g)
    requires AllAligned(k, entries, h0, front, HostFound(e.call), g)
    ensures AllAligned(k, entries, h0, front + [e], HostAfter(h0, front + [e]), g)
  {
    forall name | name in entries
      ensures Aligned(k, entries[name], h0, RunAt(name, RunOf(name, front), turns, 0), HostAt(turns, 0), g)
    {
      RunAtEnds(name, front, e, turns);
    }
    RoundStaysAligned(k, entries, h0, front, e, turns, |turns.order|, g);
    forall name | name in entries
      ensures Aligned(k, entries[name], h0, RunOf(name, front + [e]), HostAfter(h0, front + [e]), g)
    {
      RunAtEnds(name, front, e, turns);
    }
  }

  /** In every history of a daemon whose VMs have no device in common, each VM's run is
      undisturbed: neither the other VMs nor others touch its devices. So what is proved of
      undisturbed runs holds for every VM of the daemon. */
  lemma {:induction false} EveryRunUndisturbed(k: Kernel, entries: Entries, h0: HostMap, history: seq<Entry>, g: Given)
    requires History(k, entries, history) && Disjoint(entries) && Orderly(entries, h0, history, g)
    ensures AllAligned(k, entries, h0, history, HostAfter(h0, history), g)
  {
    if history != [] {
      var front, last := history[..|history| - 1], history[|history| - 1];
      assert history == front + [last];
      EveryRunUndisturbed(k, entries, h0, front, g);
      forall name | name in entries
        ensures Aligned(k, entries[name], h0, RunOf(name, front), HostFound(last.call), g)
      {
        AlignedLater(k, entries[name], h0, RunOf(name, front), HostAfter(h0, front), HostFound(last.call), g);
      }
      if last.call.Command? {
        CommandAligned(k, entries, h0, front, last, g);
      } else {
        RoundEnds(k, entries, h0, front, last, last.call.turns, g);
      }
    }
  }

  /** Whatever fails, after every history every device configured for some VM is on the driver
      it had before the daemon's first call, on none, or on vfio-pci. */
  lemma DaemonStaysWithin(k: Kernel, entries: Entries, h0: HostMap, history: seq<Entry>, name: string)
    requires History(k, entries, history) && Disjoint(entries) && Orderly(entries, h0, history, Given(false, true))
    requires name in entries
    ensures Within(entries[name].cfg, h0, HostAfter(h0, history))
  {
    EveryRunUndisturbed(k, entries, h0, history, Given(false, true));
    RunStaysWithin(k, entries[name], h0, RunOf(name, history));
  }

  /** A VM with a QEMU handle runs on ready devices also after others used the host. */
  lemma ReadyLater(k: Kernel, entry: VmEntry, h0: HostMap, run: seq<Action>, h: HostMap)
    requires Aligned(k, entry, h0, run, h, Given(true, false))
    requires RunsQemu(After(k, entry, run))
    ensures var seen := StagingScan(k, entry, run);
      && seen.Some? && Anchored(seen.value, h)
      && (forall b :: b in h && Configured(entry.cfg, b) && FindByBdf(seen.value, b).Some? ==> h[b].OnVfio())
      && (EnforcesExclusivity(entry.cfg) ==> SeenMatesReady(entry.cfg, seen.value, h))
    ensures CompleteStagings(run) ==> DevicesReady(entry.cfg, h)
    ensures CompleteStagings(run) && EnforcesExclusivity(entry.cfg) ==> GroupsReady(entry.cfg, h)
  {
    RunsOnClearedDevices(k, entry, h0, run);
    RunGrounded(k, entry, h0, run, CompleteStagings(run));
    RunValidHost(k, entry, h0, run);
    var left, seen := After(k, entry, run).value.m.host, StagingScan(k, entry, run).value;
    MetClearedBy(entry.cfg, seen, left, h);
    AnchoredLater(seen, left, h);
    ClearedHost(entry.cfg, seen, h);
    if CompleteStagings(run) {
      CoveredHostReady(entry.cfg, seen, h);
    }
  }

  /** In every history, a VM with a QEMU handle runs on a host that is ready for it after the
      last call of all, whoever made it: the configured devices that its staging scan saw are
      on vfio-pci, and under enforced exclusivity so is every function that shares a group with
      one of them and that the scan saw; with complete staging scans, so is every configured
      device of the host and every function in their groups. */
  lemma DaemonRunsOnReadyHosts(k: Kernel, entries: Entries, h0: HostMap, history: seq<Entry>, name: string)
    requires History(k, entries, history) && Disjoint(entries) && Orderly(entries, h0, history, Given(true, false))
    requires name in entries && RunsQemu(Lookup(Latest(history), name, NOWHERE))
    ensures var h, seen := HostAfter(h0, history), StagingScan(k, entries[name], RunOf(name, history));
      && seen.Some? && Anchored(seen.value, h)
      && (forall b :: b in h && Configured(entries[name].cfg, b) && FindByBdf(seen.value, b).Some? ==> h[b].OnVfio())
      && (EnforcesExclusivity(entries[name].cfg) ==> SeenMatesReady(entries[name].cfg, seen.value, h))
    ensures var h, run := HostAfter(h0, history), RunOf(name, history);
      && (CompleteStagings(run) ==> DevicesReady(entries[name].cfg, h))
      && (CompleteStagings(run) && EnforcesExclusivity(entries[name].cfg) ==> GroupsReady(entries[name].cfg, h))
  {
    EveryRunUndisturbed(k, entries, h0, history, Given(true, false));
    HistoryIsRuns(k, entries, history, name);
    ReadyLater(k, entries[name], h0, RunOf(name, history), HostAfter(h0, history));
  }

  /** In every history, if none of the writes that a VM's ticks make is refused and its
      restores see the devices they have to move, then whenever the VM is in Cleanup or Idle,
      or was never started, its configured devices are home on the host of all. */
  lemma DaemonReturnsHome(k: Kernel, entries: Entries, h0: HostMap, history: seq<Entry>, name: string)
    requires History(k, entries, history) && Disjoint(entries) && Orderly(entries, h0, history, Given(false, true))
    requires name in entries && RunUnrefused(k, entries[name], RunOf(name, history))
    requires IsOver(Lookup(Latest(history), name, NOWHERE))
    ensures AtHome(entries[name].cfg, h0, HostAfter(h0, history))
  {
    EveryRunUndisturbed(k, entries, h0, history, Given(false, true));
    HistoryIsRuns(k, entries, history, name);
    RunReturnsHome(k, entries[name], h0, RunOf(name, history));
  }
}
