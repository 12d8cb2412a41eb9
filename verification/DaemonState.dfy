/** The daemon's registry of VMs: operator commands, and the tick that drives every VM and
    collects its new events. */
module DaemonState {
  import opened Prelude
  import opened CpuList
  import opened CpuPlan
  import opened VfioExecute
  import opened Lifecycle
  import opened VmMachine
  import opened Daemon

  /** No host in particular. */
  const NOWHERE: World := World(map[], 0)

  class DaemonVm {
    const sm: VmStateMachine
    var desired: IpcState
    var cursor: nat

    constructor (sm: VmStateMachine)
      ensures this.sm == sm && desired == Stopped && cursor == 0
    {
      this.sm := sm;
      desired, cursor := Stopped, 0;
    }

    /** The VM on this host. */
    function View(at: World): Vm
      reads this, sm, sm.rt
    {
      Vm(Machine(sm.state, sm.rt.Value(), at.host, at.writes), desired, cursor)
    }

    method DetectGuestExit(exited: bool, ghost at: World)
      modifies this, sm.rt
      ensures View(at) == DetectExit(exited, old(View(at)))
    {
      if sm.state == Steady && sm.rt.qemu.Some? && exited {
        sm.rt.qemu := None;
        desired := Stopped;
      }
    }

    method DriveTowardsDesired(env: Env, host: Host) returns (ghost used: Env)
      requires ValidHost(host.functions)
      modifies this, sm, sm.rt, host
      ensures SameCalls(env, used) && ValidHost(host.functions)
      ensures View(World(host.functions, host.writes))
              == Drive(host.kernel, used, old(View(World(host.functions, host.writes))))
    {
      used := env;
      var error: Option<Failure>;
      if desired == Running || desired == Starting {
        if sm.state == Steady {
          desired := Running;
        } else if sm.state.BringUp() {
          error, used := sm.Step(env, host);
          if error.Some? {
            sm.rt.PushEvent(Error, StepFailed(error.value));
            desired := Stopped;
          }
        }
      } else if sm.state != Idle {
        error, used := sm.StepShutdown(env, host);
        if error.Some? {
          sm.rt.PushEvent(Error, StepFailed(error.value));
        }
      }
    }

    /** Detect a guest exit, then take one step. */
    method Advance(env: Env, exited: bool, host: Host) returns (ghost used: Env)
      requires ValidHost(host.functions)
      modifies this, sm, sm.rt, host
      ensures SameCalls(env, used) && ValidHost(host.functions)
      ensures View(World(host.functions, host.writes))
              == Driven(host.kernel, used, exited, old(View(World(host.functions, host.writes))))
    {
      DetectGuestExit(exited, World(host.functions, host.writes));
      used := DriveTowardsDesired(env, host);
    }

    method TakeEvents(ghost at: World) returns (batch: seq<IpcEvent>)
      modifies this
      ensures (View(at), batch) == Flush(old(View(at)))
      ensures old(cursor) <= |old(sm.rt.events)| ==> Carries(batch, old(sm.rt.events)[old(cursor)..])
    {
      batch := [];
      var events := sm.rt.events;
      if |events| <= cursor {
        return;
      }
      for i := cursor to |events|
        invariant batch == ToIpcEvents(events[cursor..i])
      {
        assert events[cursor..i + 1] == events[cursor..i] + [events[i]];
        batch := batch + [ToIpcEvent(events[i])];
      }
      assert events[cursor..|events|] == events[cursor..];
      cursor := |events|;
    }
  }

  method MakeVm(entry: VmEntry, ghost at: World) returns (r: Option<DaemonVm>)
    ensures r.None? <==> NewVm(entry, at.host, at.writes).None?
    ensures r.Some? ==> fresh(r.value) && fresh(r.value.sm) && fresh(r.value.sm.rt)
    ensures r.Some? ==> NewVm(entry, at.host, at.writes) == Some(r.value.View(at))
  {
    var hostCpus := ParseCpuList(entry.hostCpus);
    if hostCpus.None? {
      return None;
    }
    var vmCpus := ParseCpuList(entry.vmCpus);
    if vmCpus.None? {
      return None;
    }
    var rt := new VmRuntime(entry.cfg, VmCpuLayout(hostCpus.value, vmCpus.value));
    var sm := new VmStateMachine(rt);
    var vm := new DaemonVm(sm);
    return Some(vm);
  }

  // ---------- The registry ----------

  datatype Reply =
    | Usage | NoConfig | NotFound(name: string) | BadCpuList(name: string)
    | WantedStarting(action: string, name: string) | WantedShuttingDown(name: string) | NotActive(name: string)
    | Listing(names: set<string>) | Status(name: string, state: IpcState, desired: IpcState) | Unknown(word: string)

  predicate IsStart(word: string) {
    word == "start" || word == "restart"
  }

  /** What `vm <args>` makes of the VM called name. Only a start or stop that names it and
      finds it in the configuration has an effect; `restart` is `start`. */
  function Commanded(entries: map<string, VmEntry>, args: seq<string>, name: string, vm: Option<Vm>,
                     at: World): Option<Vm> {
    if |args| < 2 || args[1] != name || name !in entries then vm
    else if IsStart(args[0]) then StartOf(entries[name], vm, at.host, at.writes)
    else if args[0] == "stop" then StopOf(vm)
    else vm
  }

  /** Which words do what to the VM they name. */
  lemma CommandWords(entries: map<string, VmEntry>, word: string, name: string, vm: Option<Vm>, at: World)
    requires name in entries
    ensures var next := Commanded(entries, [word, name], name, vm, at);
      if word == "start" || word == "restart" then next == StartOf(entries[name], vm, at.host, at.writes)
      else if word == "stop" then
        if vm.None? then next.None?
        else next.Some? && !WantedUp(next.value) && next.value.m == vm.value.m && next.value.cursor == vm.value.cursor
      else next == vm
  {}

  type Vms = map<string, Vm>

  /** The events a snapshot carries, VM by VM. */
  type Snapshot = map<string, seq<IpcEvent>>

  /** A round of ticks: the order of the VMs, how their calls went, whose guest exited, and
      the host each of them met, with the host that the last one left at the end. */
  datatype Turns = Turns(order: seq<string>, envs: seq<Env>, exits: string -> bool, met: seq<World>)
  {
    predicate Consistent() {
      |envs| == |order| && |met| == |order| + 1
    }
  }

  /** The host as a run sees it. */
  ghost function At(host: Host): World
    reads host
  {
    World(host.functions, host.writes)
  }

  /** What a VM does in a tick, given its calls and whether its guest exited. */
  type Move = (Env, bool, Vm) -> Vm

  ghost predicate Drives(move: Move, k: Kernel) {
    forall env, exited, vm {:trigger Driven(k, env, exited, vm)} :: move(env, exited, vm) == Driven(k, env, exited, vm)
  }

  ghost function MoveOf(k: Kernel): (move: Move)
    ensures Drives(move, k)
  {
    (env: Env, exited: bool, vm: Vm) => Driven(k, env, exited, vm)
  }

  /** One VM takes its step on the host it meets. */
  ghost function OneMoved(move: Move, name: string, env: Env, exited: bool, s: (Vms, World)): (Vms, World)
    requires name in s.0
  {
    var vm := move(env, exited, Relocate(s.0[name], s.1));
    (s.0[name := Relocate(vm, NOWHERE)], World(vm.m.host, vm.m.writes))
  }

  /** The VMs take their steps in this order, one after the other, through these states. */
  ghost predicate Round(move: Move, order: seq<string>, envs: seq<Env>, exits: string -> bool,
                        states: seq<(Vms, World)>) {
    && |states| == |envs| + 1 <= |order| + 1
    && forall i :: 0 <= i < |envs| ==>
         order[i] in states[i].0 && states[i + 1] == OneMoved(move, order[i], envs[i], exits(order[i]), states[i])
  }

  lemma RoundSnoc(move: Move, order: seq<string>, envs: seq<Env>, exits: string -> bool, states: seq<(Vms, World)>,
                  env: Env, next: (Vms, World))
    requires Round(move, order, envs, exits, states) && |envs| < |order| && order[|envs|] in states[|envs|].0
    requires next == OneMoved(move, order[|envs|], env, exits(order[|envs|]), states[|envs|])
    ensures Round(move, order, envs + [env], exits, states + [next])
  {}

  /** Each VM's calls were answered as its environment says. */
  ghost predicate CallsMatch(order: seq<string>, envs: string -> Env, used: seq<Env>) {
    |used| <= |order| && forall i :: 0 <= i < |used| ==> SameCalls(envs(order[i]), used[i])
  }

  lemma CallsMatchSnoc(order: seq<string>, envs: string -> Env, used: seq<Env>, env: Env)
    requires CallsMatch(order, envs, used) && |used| < |order| && SameCalls(envs(order[|used|]), env)
    ensures CallsMatch(order, envs, used + [env])
  {}

  /** The VMs after their events were collected, as far as `taken` says. */
  ghost function Collected(vms: Vms, taken: set<string>): Vms {
    map name | name in vms :: if name in taken then Flush(vms[name]).0 else vms[name]
  }

  /** What they had to send; a VM without new events has no entry. */
  ghost function Batches(vms: Vms, taken: set<string>): Snapshot {
    map name | name in vms && name in taken && Flush(vms[name]).1 != [] :: Flush(vms[name]).1
  }

  lemma CollectOne(vms: Vms, taken: set<string>, name: string)
    requires name in vms && name !in taken
    ensures Collected(vms, taken + {name}) == Collected(vms, taken)[name := Flush(vms[name]).0]
    ensures Batches(vms, taken + {name}) ==
            if Flush(vms[name]).1 == [] then Batches(vms, taken) else Batches(vms, taken)[name := Flush(vms[name]).1]
  {}

  ghost function Firsts(order: seq<string>, n: nat): set<string>
    requires n <= |order|
  {
    set i | 0 <= i < n :: order[i]
  }

  /** Every name once. */
  ghost predicate IsOrder(order: seq<string>, names: set<string>) {
    && names == Firsts(order, |order|)
    && forall i, j :: 0 <= i < j < |order| ==> order[i] != order[j]
  }

  lemma CollectNone(vms: Vms, order: seq<string>)
    ensures Collected(vms, Firsts(order, 0)) == vms && Batches(vms, Firsts(order, 0)) == map[]
  {}

  lemma FirstsNext(order: seq<string>, n: nat)
    requires n < |order| && forall i, j :: 0 <= i < j < |order| ==> order[i] != order[j]
    ensures order[n] !in Firsts(order, n) && Firsts(order, n + 1) == Firsts(order, n) + {order[n]}
  {}

  lemma OrderMembers(order: seq<string>, names: set<string>)
    requires IsOrder(order, names)
    ensures forall i :: 0 <= i < |order| ==> order[i] in names
  {
    forall i | 0 <= i < |order| ensures order[i] in names {
      assert order[i] in Firsts(order, |order|);
    }
  }

  lemma OrderSnoc(order: seq<string>, names: set<string>, name: string)
    requires IsOrder(order, names) && name !in names
    ensures IsOrder(order + [name], names + {name})
  {
    var longer := order + [name];
    forall i, j | 0 <= i < j < |longer| ensures longer[i] != longer[j] {
      if j == |order| {
        assert order[i] in Firsts(order, |order|);
      }
    }
    FirstsNext(longer, |order|);
    assert forall i :: 0 <= i < |order| ==> longer[i] == order[i];
    assert Firsts(longer, |order|) == Firsts(order, |order|);
  }

  /** The names in some order; nothing here depends on which. */
  method PickOrder(names: set<string>) returns (order: seq<string>)
    ensures IsOrder(order, names)
  {
    order := [];
    var todo := names;
    while todo != {}
      invariant todo <= names && IsOrder(order, names - todo)
      decreases |todo|
    {
      var name :| name in todo;
      OrderSnoc(order, names - todo, name);
      assert names - todo + {name} == names - (todo - {name});
      todo := todo - {name};
      order := order + [name];
    }
  }

  /** What `vm <args>` does to the VMs, when the host is `at`. */
  ghost predicate CommandTakes(entries: map<string, VmEntry>, args: seq<string>, at: World, before: Vms, after: Vms) {
    forall name :: Lookup(after, name, at) == Commanded(entries, args, name, Lookup(before, name, at), at)
  }

  function Lookup(vms: Vms, name: string, at: World): Option<Vm> {
    if name in vms then Some(Relocate(vms[name], at)) else None
  }

  class Registry {
    const config: Option<map<string, VmEntry>>
    var vms: map<string, DaemonVm>

    constructor (config: Option<map<string, VmEntry>>)
      ensures this.config == config && vms == map[] && Valid()
    {
      this.config := config;
      vms := map[];
    }

    /** No two VMs share an object, and every VM is configured. */
    ghost predicate Valid()
      reads this
    {
      && (forall a, b :: a in vms && b in vms && a != b ==> Apart(vms[a], vms[b]))
      && (forall a :: a in vms ==> config.Some? && a in config.value)
    }

    ghost predicate Apart(a: DaemonVm, b: DaemonVm) {
      a != b && a.sm != b.sm && a.sm.rt != b.sm.rt
    }

    ghost function Footprint(): set<object>
      reads this
    {
      (set a | a in vms :: vms[a] as object)
      + (set a | a in vms :: vms[a].sm as object)
      + (set a | a in vms :: vms[a].sm.rt as object)
    }

    ghost function Slot(name: string, at: World): Option<Vm>
      reads this, Footprint()
    {
      if name in vms then Some(vms[name].View(at)) else None
    }

    method StartVm(action: string, name: string, ghost at: World) returns (reply: Reply)
      requires Valid() && config.Some? && name in config.value
      modifies this, Footprint()
      ensures Valid()
      ensures Slot(name, at) == StartOf(config.value[name], old(Slot(name, at)), at.host, at.writes)
      ensures forall other :: other != name ==> Slot(other, at) == old(Slot(other, at))
    {
      if name !in vms || vms[name].sm.state == Idle {
        var made := MakeVm(config.value[name], at);
        if made.None? {
          return BadCpuList(name);
        }
        vms := vms[name := made.value];
      }
      vms[name].desired := Starting;
      return WantedStarting(action, name);
    }

    method StopVm(name: string, ghost at: World) returns (reply: Reply)
      requires Valid()
      modifies Footprint()
      ensures Valid() && vms == old(vms)
      ensures Slot(name, at) == StopOf(old(Slot(name, at)))
      ensures forall other :: other != name ==> Slot(other, at) == old(Slot(other, at))
    {
      if name !in vms {
        return NotActive(name);
      }
      vms[name].desired := ShuttingDown;
      return WantedShuttingDown(name);
    }

    method HandleVmCommand(args: seq<string>, ghost at: World) returns (reply: Reply)
      requires Valid()
      modifies this, Footprint()
      ensures Valid()
      ensures config.None? ==> vms == old(vms)
      ensures config.Some? ==> CommandTakes(config.value, args, at, old(Bare()), Bare())
    {
      reply := Dispatch(args, at);
      SlotsAreLookups(at);
    }

    /** A slot is what the bare VMs say, seen at that host; before and after. */
    twostate lemma SlotsAreLookups(at: World)
      ensures forall name :: Slot(name, at) == Lookup(Bare(), name, at)
      ensures forall name :: old(Slot(name, at)) == Lookup(old(Bare()), name, at)
    {}

    method Dispatch(args: seq<string>, ghost at: World) returns (reply: Reply)
      requires Valid()
      modifies this, Footprint()
      ensures Valid()
      ensures config.None? ==> vms == old(vms)
      ensures config.Some? ==>
        forall name :: Slot(name, at) == Commanded(config.value, args, name, old(Slot(name, at)), at)
    {
      if args == [] {
        return Usage;
      }
      if config.None? {
        return NoConfig;
      }
      if args[0] == "list" {
        return Listing(config.value.Keys);
      }
      if !IsStart(args[0]) && args[0] != "stop" && args[0] != "status" {
        return Unknown(args[0]);
      }
      if |args| < 2 {
        return Usage;
      }
      var name := args[1];
      if name !in config.value {
        return NotFound(name);
      }
      if IsStart(args[0]) {
        reply := StartVm(args[0], name, at);
      } else if args[0] == "stop" {
        reply := StopVm(name, at);
      } else if name in vms {
        reply := Status(name, ToIpcState(vms[name].sm.state), vms[name].desired);
      } else {
        reply := Status(name, Stopped, Stopped);
      }
    }
  
    /** All VMs, with no host in view. */
    ghost function Bare(): Vms
      reads this, Footprint()
    {
      map name | name in vms :: vms[name].View(NOWHERE)
    }

    /** Only the VM called name and its objects changed: Bare changes at name only. */
    twostate lemma OthersUntouched(name: string)
      requires old(Valid()) && vms == old(vms) && name in vms
      requires forall a :: a in vms && a != name ==> vms[a].View(NOWHERE) == old(vms[a].View(NOWHERE))
      ensures Bare() == old(Bare())[name := vms[name].View(NOWHERE)]
    {}

    method AdvanceNamed(ghost move: Move, name: string, env: Env, exited: bool, host: Host) returns (ghost used: Env)
      requires Valid() && ValidHost(host.functions) && name in vms && Drives(move, host.kernel)
      modifies vms[name], vms[name].sm, vms[name].sm.rt, host
      ensures ValidHost(host.functions) && SameCalls(env, used)
      ensures vms[name].View(At(host)) == move(used, exited, old(vms[name].View(At(host))))
      ensures forall a :: a in vms && a != name ==> vms[a].View(NOWHERE) == old(vms[a].View(NOWHERE))
    {
      used := vms[name].Advance(env, exited, host);
    }

    method AdvanceOne(ghost move: Move, name: string, env: Env, exited: bool, host: Host) returns (ghost used: Env)
      requires Valid() && ValidHost(host.functions) && name in vms && Drives(move, host.kernel)
      modifies vms[name], vms[name].sm, vms[name].sm.rt, host
      ensures ValidHost(host.functions) && SameCalls(env, used)
      ensures (Bare(), At(host)) == OneMoved(move, name, used, exited, (old(Bare()), old(At(host))))
    {
      used := AdvanceNamed(move, name, env, exited, host);
      OthersUntouched(name);
    }

    /** Step i of a round. */
    method AdvanceNext(ghost move: Move, order: seq<string>, i: nat, envs: string -> Env, exits: string -> bool,
                       host: Host,
                       ghost used: seq<Env>, ghost states: seq<(Vms, World)>)
        returns (ghost used': seq<Env>, ghost states': seq<(Vms, World)>)
      requires Valid() && ValidHost(host.functions) && Drives(move, host.kernel)
      requires i < |order| && order[i] in vms
      requires |used| == i && CallsMatch(order, envs, used) && Round(move, order, used, exits, states)
      requires states[i] == (Bare(), At(host))
      modifies vms[order[i]], vms[order[i]].sm, vms[order[i]].sm.rt, host
      ensures ValidHost(host.functions)
      ensures |used'| == i + 1 && CallsMatch(order, envs, used') && Round(move, order, used', exits, states')
      ensures states'[0] == states[0] && states'[i + 1] == (Bare(), At(host))
    {
      ghost var env := AdvanceOne(move, order[i], envs(order[i]), exits(order[i]), host);
      CallsMatchSnoc(order, envs, used, env);
      RoundSnoc(move, order, used, exits, states, env, (Bare(), At(host)));
      used', states' := used + [env], states + [(Bare(), At(host))];
    }

    /** Drive every VM one step, in the order given; the host passes from one to the next. */
    method AdvanceAll(ghost move: Move, order: seq<string>, envs: string -> Env, exits: string -> bool, host: Host)
        returns (ghost used: seq<Env>, ghost states: seq<(Vms, World)>)
      requires Valid() && ValidHost(host.functions) && Drives(move, host.kernel)
      requires forall i :: 0 <= i < |order| ==> order[i] in vms
      modifies Footprint(), host
      ensures vms == old(vms) && ValidHost(host.functions)
      ensures |used| == |order| && CallsMatch(order, envs, used) && Round(move, order, used, exits, states)
      ensures states[0] == (old(Bare()), old(At(host))) && states[|order|] == (Bare(), At(host))
    {
      used, states := [], [(Bare(), At(host))];
      for i := 0 to |order|
        invariant vms == old(vms) && ValidHost(host.functions)
        invariant |used| == i && CallsMatch(order, envs, used) && Round(move, order, used, exits, states)
        invariant states[0] == (old(Bare()), old(At(host))) && states[i] == (Bare(), At(host))
      {
        used, states := AdvanceNext(move, order, i, envs, exits, host, used, states);
      }
    }

    method TakeNamed(name: string) returns (batch: seq<IpcEvent>)
      requires Valid() && name in vms
      modifies vms[name]
      ensures Bare() == old(Bare())[name := Flush(old(Bare())[name]).0]
      ensures batch == Flush(old(Bare())[name]).1
    {
      batch := vms[name].TakeEvents(NOWHERE);
      OthersUntouched(name);
    }

    /** TakeNamed for a VM not in `taken`. */
    method TakeNext(name: string, ghost start: Vms, ghost taken: set<string>) returns (batch: seq<IpcEvent>)
      requires Valid() && name in vms && name !in taken && start.Keys == vms.Keys && Bare() == Collected(start, taken)
      modifies vms[name]
      ensures Bare() == Collected(start, taken + {name})
      ensures Batches(start, taken + {name}) ==
              if batch == [] then Batches(start, taken) else Batches(start, taken)[name := batch]
    {
      CollectOne(start, taken, name);
      batch := TakeNamed(name);
    }

    method TakeInOrder(order: seq<string>, i: nat, ghost start: Vms, batches: Snapshot, ghost host: Host)
        returns (batches': Snapshot)
      requires Valid() && IsOrder(order, vms.Keys) && i < |order| && start.Keys == vms.Keys
      requires Bare() == Collected(start, Firsts(order, i)) && batches == Batches(start, Firsts(order, i))
      modifies vms[order[i]]
      ensures vms == old(vms) && At(host) == old(At(host))
      ensures Bare() == Collected(start, Firsts(order, i + 1)) && batches' == Batches(start, Firsts(order, i + 1))
    {
      FirstsNext(order, i);
      var batch := TakeNext(order[i], start, Firsts(order, i));
      batches' := if batch != [] then batches[order[i] := batch] else batches;
    }

    method TakeAll(order: seq<string>, ghost start: Vms, ghost names: set<string>, ghost host: Host)
        returns (batches: Snapshot)
      requires Valid() && IsOrder(order, names) && names == vms.Keys && start == Bare()
      modifies Footprint()
      ensures vms == old(vms) && At(host) == old(At(host))
      ensures Bare() == Collected(start, names) && batches == Batches(start, names)
    {
      batches := map[];
      CollectNone(start, order);
      ghost var vms0, at0 := vms, At(host);
      for i := 0 to |order|
        invariant vms == vms0 && At(host) == at0
        invariant Bare() == Collected(start, Firsts(order, i)) && batches == Batches(start, Firsts(order, i))
      {
        batches := TakeInOrder(order, i, start, batches, host);
      }
    }

    method DriveAndCollect(ghost move: Move, order: seq<string>, envs: string -> Env, exits: string -> bool, host: Host)
        returns (batches: Snapshot, ghost used: seq<Env>, ghost states: seq<(Vms, World)>)
      requires Valid() && ValidHost(host.functions) && Drives(move, host.kernel)
      requires IsOrder(order, vms.Keys)
      modifies Footprint(), host
      ensures vms == old(vms) && ValidHost(host.functions)
      ensures |used| == |order| && CallsMatch(order, envs, used) && Round(move, order, used, exits, states)
      ensures states[0] == (old(Bare()), old(At(host)))
      ensures Bare() == Collected(states[|order|].0, vms.Keys)
      ensures At(host) == states[|order|].1
      ensures batches == Batches(states[|order|].0, vms.Keys)
    {
      OrderMembers(order, vms.Keys);
      used, states := AdvanceAll(move, order, envs, exits, host);
      batches := TakeAll(order, states[|order|].0, vms.Keys, host);
    }

    method TickInOrder(order: seq<string>, envs: string -> Env, exits: string -> bool, host: Host)
        returns (batches: Snapshot, ghost turns: Turns)
      requires Valid() && ValidHost(host.functions) && IsOrder(order, vms.Keys)
      modifies Footprint(), host
      ensures vms == old(vms) && ValidHost(host.functions)
      ensures turns.Consistent() && turns.order == order && turns.exits == exits && CallsMatch(order, envs, turns.envs)
      ensures turns.met[0] == old(At(host)) && turns.met[|order|] == At(host)
      ensures batches.Keys <= vms.Keys
      ensures OneTickEach(host.kernel, turns, old(Bare()), Bare(), batches)
    {
      ghost var move := MoveOf(host.kernel);
      ghost var states, used;
      batches, used, states := DriveAndCollect(move, order, envs, exits, host);
      turns := Turns(order, used, exits, Worlds(states));
      RoundIsOneTickEach(host.kernel, move, turns, states);
    }

    /** One tick of the daemon. Every VM is driven in turn, the host passing from one to the
        next; then every VM's new events go into the snapshot and its cursor moves past
        them. For every VM that is exactly one tick as TickOf describes it. */
    method BuildSnapshot(envs: string -> Env, exits: string -> bool, host: Host)
        returns (batches: Snapshot, ghost turns: Turns)
      requires Valid() && ValidHost(host.functions)
      modifies Footprint(), host
      ensures vms == old(vms) && ValidHost(host.functions)
      ensures turns.Consistent() && IsOrder(turns.order, vms.Keys)
      ensures turns.exits == exits && CallsMatch(turns.order, envs, turns.envs)
      ensures turns.met[0] == old(At(host)) && turns.met[|turns.order|] == At(host)
      ensures batches.Keys <= vms.Keys
      ensures OneTickEach(host.kernel, turns, old(Bare()), Bare(), batches)
    {
      var order := PickOrder(vms.Keys);
      batches, turns := TickInOrder(order, envs, exits, host);
    }
  }

  // ---------- A round is one tick per VM ----------

  lemma {:induction false} RoundLeavesAlone(move: Move, order: seq<string>, envs: seq<Env>, exits: string -> bool,
                                            states: seq<(Vms, World)>,
                                            name: string, i: nat, j: nat)
    requires Round(move, order, envs, exits, states) && i <= j <= |envs| && name in states[i].0
    requires forall n :: i <= n < j ==> order[n] != name
    ensures name in states[j].0 && states[j].0[name] == states[i].0[name]
  {
    if i < j {
      RoundLeavesAlone(move, order, envs, exits, states, name, i, j - 1);
    }
  }

  lemma FlushBare(vm: Vm)
    ensures Flush(Relocate(vm, NOWHERE)) == (Relocate(Flush(vm).0, NOWHERE), Flush(vm).1)
  {}

  /** After a round and the collection of events, the i-th VM has made exactly one tick: the
      one that TickOf describes, from its state before the round, on the host it met; and it
      left the host to the next. */
  lemma RoundIsTicks(k: Kernel, move: Move, order: seq<string>, envs: seq<Env>, exits: string -> bool,
                     states: seq<(Vms, World)>, i: nat)
    requires Drives(move, k) && Round(move, order, envs, exits, states) && |envs| == |order|
    requires IsOrder(order, states[0].0.Keys) && i < |order|
    ensures order[i] in states[0].0 && order[i] in states[|order|].0
    ensures var name := order[i];
      var (next, batch) := TickOf(k, envs[i], exits(name), Relocate(states[0].0[name], states[i].1));
      && Flush(states[|order|].0[name]) == (Relocate(next, NOWHERE), batch)
      && states[i + 1].1 == World(next.m.host, next.m.writes)
  {
    var name := order[i];
    OrderMembers(order, states[0].0.Keys);
    RoundLeavesAlone(move, order, envs, exits, states, name, 0, i);
    var met := Relocate(states[0].0[name], states[i].1);
    var driven := Driven(k, envs[i], exits(name), met);
    assert move(envs[i], exits(name), met) == driven;
    assert states[i + 1] == OneMoved(move, name, envs[i], exits(name), states[i]);
    RoundLeavesAlone(move, order, envs, exits, states, name, i + 1, |order|);
    FlushBare(driven);
  }

  /** A tick takes a VM from `vm` to `after`, on the host it meets, leaving the host at `left`. */
  ghost predicate TickTakes(k: Kernel, env: Env, exited: bool, vm: Vm, met: World, after: Vm, left: World,
                            batch: seq<IpcEvent>) {
    var (next, sent) := TickOf(k, env, exited, Relocate(vm, met));
    after == Relocate(next, NOWHERE) && left == World(next.m.host, next.m.writes) && batch == sent
  }

  function BatchOf(batches: Snapshot, name: string): seq<IpcEvent> {
    if name in batches then batches[name] else []
  }

  /** Every VM whose turn it was went from `before` to `after` by one tick on the host it met,
      left the host to the next, and has its batch in the snapshot. */
  ghost predicate OneTickEach(k: Kernel, turns: Turns, before: Vms, after: Vms, batches: Snapshot) {
    turns.Consistent() && forall i :: 0 <= i < |turns.order| ==>
      && turns.order[i] in before && turns.order[i] in after
      && TickTakes(k, turns.envs[i], turns.exits(turns.order[i]), before[turns.order[i]], turns.met[i],
                   after[turns.order[i]], turns.met[i + 1], BatchOf(batches, turns.order[i]))
  }

  ghost function Worlds(states: seq<(Vms, World)>): (r: seq<World>)
    ensures |r| == |states| && forall i :: 0 <= i < |r| ==> r[i] == states[i].1
  {
    seq(|states|, i requires 0 <= i < |states| => states[i].1)
  }

  lemma RoundIsOneTickEach(k: Kernel, move: Move, turns: Turns, states: seq<(Vms, World)>)
    requires turns.Consistent() && Drives(move, k) && Round(move, turns.order, turns.envs, turns.exits, states)
    requires IsOrder(turns.order, states[0].0.Keys) && turns.met == Worlds(states)
    ensures var last, names := states[|turns.order|].0, states[0].0.Keys;
      OneTickEach(k, turns, states[0].0, Collected(last, names), Batches(last, names))
  {
    var last, names := states[|turns.order|].0, states[0].0.Keys;
    forall i | 0 <= i < |turns.order|
      ensures turns.order[i] in states[0].0 && turns.order[i] in Collected(last, names)
      ensures TickTakes(k, turns.envs[i], turns.exits(turns.order[i]), states[0].0[turns.order[i]], turns.met[i],
                        Collected(last, names)[turns.order[i]], turns.met[i + 1],
                        BatchOf(Batches(last, names), turns.order[i]))
    {
      RoundIsTicks(k, move, turns.order, turns.envs, turns.exits, states, i);
    }
  }
}
