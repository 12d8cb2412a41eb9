/** Deriving the host CPU list from the NUMA topology and the VM's CPUs. */
module HostCpus {
  import opened Prelude
  import opened Sorting

  datatype NumaTopology = NumaTopology(nodeCpus: map<nat, seq<nat>>, onlineCpus: seq<nat>)

  datatype DeriveError = EmptyVmCpus | NoNodeForVm | NothingLeft

  predicate Touches(node: seq<nat>, cpus: seq<nat>) {
    exists c :: c in node && c in cpus
  }

  /** A CPU on some node that holds none of the VM's CPUs. */
  ghost predicate OnHostNode(topo: NumaTopology, vm: seq<nat>, c: nat) {
    exists n :: n in topo.nodeCpus && !Touches(topo.nodeCpus[n], vm) && c in topo.nodeCpus[n]
  }

  ghost predicate HasHostNode(topo: NumaTopology, vm: seq<nat>) {
    exists n :: n in topo.nodeCpus && !Touches(topo.nodeCpus[n], vm)
  }

  ghost predicate HasVmNode(topo: NumaTopology, vm: seq<nat>) {
    exists n :: n in topo.nodeCpus && Touches(topo.nodeCpus[n], vm)
  }

  /** The CPUs the derivation is after: those of the nodes without VM CPUs, or, when every
      node has some, the online CPUs outside the VM's set. */
  ghost predicate IsHostCpu(topo: NumaTopology, vm: seq<nat>, c: nat) {
    if HasHostNode(topo, vm) then OnHostNode(topo, vm, c) else c in topo.onlineCpus && c !in vm
  }

  method NodesForCpus(topo: NumaTopology, cpus: seq<nat>) returns (nodes: set<nat>)
    ensures forall n :: n in nodes <==> n in topo.nodeCpus && Touches(topo.nodeCpus[n], cpus)
  {
    nodes := {};
    var todo := topo.nodeCpus.Keys;
    while todo != {}
      invariant todo <= topo.nodeCpus.Keys
      invariant forall n :: n in nodes <==> n in topo.nodeCpus && n !in todo && Touches(topo.nodeCpus[n], cpus)
    {
      var n :| n in todo;
      todo := todo - {n};
      if exists c :: c in topo.nodeCpus[n] && c in cpus {
        nodes := nodes + {n};
      }
    }
  }

  /** Whenever a list is derived it is non-empty, increasing, and free of VM CPUs, even if
      node lists overlap; the errors are exactly an empty VM list, a VM list that no node
      knows, and an empty result. */
  method DeriveHostCpus(topo: NumaTopology, vm: seq<nat>) returns (r: Result<seq<nat>, DeriveError>)
    ensures r.Ok? ==> r.value != [] && Increasing(r.value)
    ensures r.Ok? ==> forall c :: c in r.value ==> c !in vm
    ensures r.Ok? ==> forall c :: c in r.value <==> IsHostCpu(topo, vm, c)
    ensures r.Ok? <==> vm != [] && HasVmNode(topo, vm) && exists c :: IsHostCpu(topo, vm, c)
  {
    if vm == [] {
      return Err(EmptyVmCpus);
    }
    var vmNodes := NodesForCpus(topo, vm);
    if vmNodes == {} {
      return Err(NoNodeForVm);
    }
    assert HasVmNode(topo, vm) by {
      var n :| n in vmNodes;
    }
    var hostNodes := topo.nodeCpus.Keys - vmNodes;
    var v: seq<nat> := [];
    if hostNodes != {} {
      assert HasHostNode(topo, vm) by {
        var n :| n in hostNodes;
      }
      v := CpusOfNodes(topo, hostNodes);
    } else {
      forall n | n in topo.nodeCpus ensures Touches(topo.nodeCpus[n], vm) {
        assert n !in hostNodes;
      }
      v := Without(topo.onlineCpus, vm);
    }
    assert forall c :: c in v <==> IsHostCpu(topo, vm, c);
    var hostCpus := Dedup(Sort(v));
    assert forall c :: c in hostCpus <==> c in v by {
      assert forall c :: c in Sort(v) <==> c in multiset(Sort(v));
      assert forall c :: c in v <==> c in multiset(v);
    }
    if hostCpus == [] {
      return Err(NothingLeft);
    }
    assert hostCpus[0] in hostCpus;
    return Ok(hostCpus);
  }

  method CpusOfNodes(topo: NumaTopology, nodes: set<nat>) returns (v: seq<nat>)
    requires nodes <= topo.nodeCpus.Keys
    ensures forall c :: c in v <==> exists n :: n in nodes && c in topo.nodeCpus[n]
  {
    v := [];
    var todo := nodes;
    while todo != {}
      invariant todo <= nodes
      invariant forall c :: c in v <==> exists n :: n in nodes && n !in todo && c in topo.nodeCpus[n]
    {
      var n :| n in todo;
      todo := todo - {n};
      v := v + topo.nodeCpus[n];
    }
  }

  method Without(cpus: seq<nat>, vm: seq<nat>) returns (v: seq<nat>)
    ensures forall c :: c in v <==> c in cpus && c !in vm
  {
    v := [];
    for i := 0 to |cpus|
      invariant forall c :: c in v <==> c in cpus[..i] && c !in vm
    {
      assert cpus[..i + 1] == cpus[..i] + [cpus[i]];
      if cpus[i] !in vm {
        v := v + [cpus[i]];
      }
    }
    assert cpus[..|cpus|] == cpus;
  }
}
