/** The CPU plan: how a VM's CPUs are spread over the host's NUMA nodes. */
module CpuPlan {
  import opened Prelude
  import opened Sorting

  datatype HostNumaNode = HostNumaNode(nodeId: nat, cpus: seq<nat>)

  datatype VmCpuLayout = VmCpuLayout(host: seq<nat>, vm: seq<nat>)

  datatype CpuPlanNode = CpuPlanNode(nodeId: nat, hostCpus: seq<nat>, vmCpus: seq<nat>)

  datatype CpuPlan = CpuPlan(
    topology: seq<HostNumaNode>,
    layout: VmCpuLayout,
    nodes: seq<CpuPlanNode>,
    vmSpansNodes: bool,
    dominantNode: Option<nat>)
  {
    function Node(id: nat): (r: Option<CpuPlanNode>)
      ensures r.Some? ==> r.value in nodes && r.value.nodeId == id
      ensures r.None? ==> forall n :: n in nodes ==> n.nodeId != id
    {
      FindNode(nodes, id)
    }

    /** All VM CPUs of the plan in numeric order. */
    function VmCpus(): seq<nat> {
      Sort(Flatten(nodes))
    }
  }

  function FindNode(nodes: seq<CpuPlanNode>, id: nat): (r: Option<CpuPlanNode>)
    ensures r.Some? ==> r.value in nodes && r.value.nodeId == id
    ensures r.None? ==> forall n :: n in nodes ==> n.nodeId != id
  {
    if nodes == [] then None
    else if nodes[0].nodeId == id then Some(nodes[0])
    else
      assert nodes == [nodes[0]] + nodes[1..];
      FindNode(nodes[1..], id)
  }

  function Flatten(nodes: seq<CpuPlanNode>): seq<nat> {
    if nodes == [] then [] else nodes[0].vmCpus + Flatten(nodes[1..])
  }

  // ---------- Building ----------

  /** The elements of s that also occur in keep, in order. */
  function Intersect(s: seq<nat>, keep: seq<nat>): (r: seq<nat>)
    ensures forall x :: x in r <==> x in s && x in keep
    ensures Increasing(s) ==> Increasing(r)
  {
    if s == [] then []
    else
      var rest := Intersect(s[1..], keep);
      assert s == [s[0]] + s[1..];
      IncreasingCons(s[0], s[1..]);
      IncreasingCons(s[0], rest);
      if s[0] in keep then [s[0]] + rest else rest
  }

  function PlanNode(node: HostNumaNode, vm: seq<nat>): CpuPlanNode {
    CpuPlanNode(node.nodeId, SortDedup(node.cpus), Intersect(SortDedup(node.cpus), vm))
  }

  function PlanNodes(topology: seq<HostNumaNode>, vm: seq<nat>): seq<CpuPlanNode> {
    seq(|topology|, i requires 0 <= i < |topology| => PlanNode(topology[i], vm))
  }

  function Occupied(nodes: seq<CpuPlanNode>): nat {
    if nodes == [] then 0
    else Occupied(nodes[..|nodes| - 1]) + if nodes[|nodes| - 1].vmCpus != [] then 1 else 0
  }

  /** The dominant node so far and its VM CPU count, folding from the left. */
  function Dominant(nodes: seq<CpuPlanNode>): (Option<nat>, nat) {
    if nodes == [] then (None, 0)
    else
      var (best, count) := Dominant(nodes[..|nodes| - 1]);
      var last := nodes[|nodes| - 1];
      if |last.vmCpus| > count then (Some(last.nodeId), |last.vmCpus|) else (best, count)
  }

  function CpuPlanOf(topology: seq<HostNumaNode>, layout: VmCpuLayout): CpuPlan {
    var nodes := PlanNodes(topology, layout.vm);
    CpuPlan(topology, layout, nodes, Occupied(nodes) > 1, Dominant(nodes).0)
  }

  lemma FoldSnoc(nodes: seq<CpuPlanNode>, n: CpuPlanNode)
    ensures Occupied(nodes + [n]) == Occupied(nodes) + if n.vmCpus != [] then 1 else 0
    ensures Dominant(nodes + [n]) ==
            if |n.vmCpus| > Dominant(nodes).1 then (Some(n.nodeId), |n.vmCpus|) else Dominant(nodes)
  {
    assert (nodes + [n])[..|nodes|] == nodes;
  }

  lemma FoldNext(all: seq<CpuPlanNode>, i: nat, n: CpuPlanNode)
    requires i < |all| && all[i] == n
    ensures all[..i] + [n] == all[..i + 1]
    ensures Occupied(all[..i + 1]) == Occupied(all[..i]) + if n.vmCpus != [] then 1 else 0
    ensures Dominant(all[..i + 1]) ==
            if |n.vmCpus| > Dominant(all[..i]).1 then (Some(n.nodeId), |n.vmCpus|) else Dominant(all[..i])
  {
    FoldSnoc(all[..i], n);
    assert all[..i] + [n] == all[..i + 1];
  }

  method BuildCpuPlan(topology: seq<HostNumaNode>, layout: VmCpuLayout) returns (plan: CpuPlan)
    ensures plan == CpuPlanOf(topology, layout)
  {
    var nodes: seq<CpuPlanNode>, vmNodeCount: nat := [], 0;
    var dominantNode: Option<nat>, dominantCount: nat := None, 0;
    ghost var all := PlanNodes(topology, layout.vm);
    for i := 0 to |topology|
      invariant nodes == all[..i]
      invariant vmNodeCount == Occupied(nodes)
      invariant (dominantNode, dominantCount) == Dominant(nodes)
    {
      var hostCpus := Dedup(Sort(topology[i].cpus));
      var vmCpus := Intersect(hostCpus, layout.vm);
      if vmCpus != [] {
        vmNodeCount := vmNodeCount + 1;
        if |vmCpus| > dominantCount {
          dominantCount := |vmCpus|;
          dominantNode := Some(topology[i].nodeId);
        }
      }
      var node := CpuPlanNode(topology[i].nodeId, hostCpus, vmCpus);
      FoldNext(all, i, node);
      nodes := nodes + [node];
    }
    assert all[..|topology|] == all;
    plan := CpuPlan(topology, layout, nodes, vmNodeCount > 1, dominantNode);
  }

  // ---------- What the derived fields mean ----------

  /** One plan node for each topology node, with its id: the host CPUs are the node's, and the
      VM CPUs those of them that belong to the VM, both increasing and without duplicates. */
  lemma PlanNodesAre(topology: seq<HostNumaNode>, layout: VmCpuLayout)
    ensures var nodes := CpuPlanOf(topology, layout).nodes;
      && |nodes| == |topology|
      && forall i :: 0 <= i < |nodes| ==>
           && nodes[i].nodeId == topology[i].nodeId
           && Increasing(nodes[i].hostCpus) && Increasing(nodes[i].vmCpus)
           && (forall c :: c in nodes[i].hostCpus <==> c in topology[i].cpus)
           && (forall c :: c in nodes[i].vmCpus <==> c in topology[i].cpus && c in layout.vm)
  {}

  /** The dominant node is the first of maximal VM CPU count, if any node has VM CPUs. */
  lemma {:induction false} DominantIsFirstMaximum(nodes: seq<CpuPlanNode>)
    ensures var (best, count) := Dominant(nodes);
      && (forall n :: n in nodes ==> |n.vmCpus| <= count)
      && (best.None? <==> count == 0)
      && (best.Some? ==> exists i :: 0 <= i < |nodes| && nodes[i].nodeId == best.value && |nodes[i].vmCpus| == count
                           && forall j :: 0 <= j < i ==> |nodes[j].vmCpus| < count)
  {
    if nodes != [] {
      var k := |nodes| - 1;
      var front := nodes[..k];
      DominantIsFirstMaximum(front);
      assert nodes == front + [nodes[k]];
      var (best, count) := Dominant(front);
      if |nodes[k].vmCpus| > count {
        assert forall j :: 0 <= j < k ==> nodes[j] in front;
      } else if best.Some? {
        var i :| 0 <= i < |front| && front[i].nodeId == best.value && |front[i].vmCpus| == count
                 && forall j :: 0 <= j < i ==> |front[j].vmCpus| < count;
        assert nodes[i] == front[i] && forall j :: 0 <= j < i ==> nodes[j] == front[j];
      }
    }
  }

  ghost predicate DistinctIds(nodes: seq<CpuPlanNode>) {
    forall i, j :: 0 <= i < j < |nodes| ==> nodes[i].nodeId != nodes[j].nodeId
  }

  lemma FindAt(nodes: seq<CpuPlanNode>, i: nat)
    requires DistinctIds(nodes) && i < |nodes|
    ensures FindNode(nodes, nodes[i].nodeId) == Some(nodes[i])
  {
    assert nodes[i] in nodes;
    var found := FindNode(nodes, nodes[i].nodeId).value;
    var j :| 0 <= j < |nodes| && nodes[j] == found;
  }

  lemma DominantFound(nodes: seq<CpuPlanNode>)
    requires DistinctIds(nodes)
    ensures match Dominant(nodes).0
      case None => forall n :: n in nodes ==> n.vmCpus == []
      case Some(id) =>
        FindNode(nodes, id).Some? && forall n :: n in nodes ==> |n.vmCpus| <= |FindNode(nodes, id).value.vmCpus|
  {
    var (best, count) := Dominant(nodes);
    DominantIsFirstMaximum(nodes);
    if best.Some? {
      var i :| 0 <= i < |nodes| && nodes[i].nodeId == best.value && |nodes[i].vmCpus| == count;
      FindAt(nodes, i);
    }
  }

  /** With distinct node ids, looking up the dominant node finds a node of maximal VM CPU
      count; there is no dominant node exactly when no node holds VM CPUs. */
  lemma DominantNodeIsFound(plan: CpuPlan)
    requires plan == CpuPlanOf(plan.topology, plan.layout) && DistinctIds(plan.nodes)
    ensures match plan.dominantNode
      case None => forall n :: n in plan.nodes ==> n.vmCpus == []
      case Some(id) =>
        plan.Node(id).Some? && forall n :: n in plan.nodes ==> |n.vmCpus| <= |plan.Node(id).value.vmCpus|
  {
    DominantFound(plan.nodes);
  }

  /** The VM spans nodes exactly when two nodes hold some of its CPUs. */
  lemma {:induction false} SpansMeansTwoNodes(nodes: seq<CpuPlanNode>)
    ensures Occupied(nodes) > 0 <==> exists i :: 0 <= i < |nodes| && nodes[i].vmCpus != []
    ensures Occupied(nodes) > 1 <==>
      exists i, j :: 0 <= i < j < |nodes| && nodes[i].vmCpus != [] && nodes[j].vmCpus != []
  {
    if nodes != [] {
      var k := |nodes| - 1;
      var front := nodes[..k];
      SpansMeansTwoNodes(front);
      assert forall i :: 0 <= i < k ==> nodes[i] == front[i];
      if i :| 0 <= i < k && front[i].vmCpus != [] {
        assert nodes[i].vmCpus != [];
      }
      if i, j :| 0 <= i < j < k && front[i].vmCpus != [] && front[j].vmCpus != [] {
        assert nodes[i].vmCpus != [] && nodes[j].vmCpus != [];
      }
    }
  }

  // ---------- Validation ----------

  datatype Finding = HostCpuOutsideTopology(cpu: nat) | VmCpuOutsideTopology(cpu: nat)

  ghost predicate InTopology(topology: seq<HostNumaNode>, cpu: nat) {
    exists n :: n in topology && cpu in n.cpus
  }

  /** A plan is structurally sound when its topology is empty or covers all listed CPUs. */
  ghost predicate Sound(plan: CpuPlan) {
    plan.topology == [] ||
    forall cpu :: cpu in plan.layout.host || cpu in plan.layout.vm ==> InTopology(plan.topology, cpu)
  }

  method ValidateCpuPlan(plan: CpuPlan) returns (findings: seq<Finding>)
    ensures findings == [] <==> Sound(plan)
    ensures plan.topology != [] ==> forall cpu ::
      && (HostCpuOutsideTopology(cpu) in findings <==> cpu in plan.layout.host && !InTopology(plan.topology, cpu))
      && (VmCpuOutsideTopology(cpu) in findings <==> cpu in plan.layout.vm && !InTopology(plan.topology, cpu))
  {
    findings := [];
    if plan.topology == [] {
      return;
    }
    var topo := TopologyCpus(plan.topology);
    var host, vm := plan.layout.host, plan.layout.vm;
    for i := 0 to |host|
      invariant forall f :: f in findings ==> f.HostCpuOutsideTopology?
      invariant forall cpu :: HostCpuOutsideTopology(cpu) in findings <==> cpu in host[..i] && cpu !in topo
    {
      assert host[..i + 1] == host[..i] + [host[i]];
      if host[i] !in topo {
        findings := findings + [HostCpuOutsideTopology(host[i])];
      }
    }
    assert host[..|host|] == host;
    for i := 0 to |vm|
      invariant forall cpu :: HostCpuOutsideTopology(cpu) in findings <==> cpu in host && cpu !in topo
      invariant forall cpu :: VmCpuOutsideTopology(cpu) in findings <==> cpu in vm[..i] && cpu !in topo
    {
      assert vm[..i + 1] == vm[..i] + [vm[i]];
      if vm[i] !in topo {
        findings := findings + [VmCpuOutsideTopology(vm[i])];
      }
    }
    assert vm[..|vm|] == vm;
    if findings != [] {
      var f := findings[0];
      assert f in findings;
      assert f == HostCpuOutsideTopology(f.cpu) || f == VmCpuOutsideTopology(f.cpu);
    }
  }

  /** The union of all node lists. */
  method TopologyCpus(topology: seq<HostNumaNode>) returns (cpus: set<nat>)
    ensures forall c :: c in cpus <==> InTopology(topology, c)
  {
    cpus := {};
    for i := 0 to |topology|
      invariant forall c :: c in cpus <==> InTopology(topology[..i], c)
    {
      ghost var before := cpus;
      var node := topology[i];
      assert topology[..i + 1] == topology[..i] + [node];
      for k := 0 to |node.cpus|
        invariant forall c :: c in cpus <==> c in before || c in node.cpus[..k]
      {
        assert node.cpus[..k + 1] == node.cpus[..k] + [node.cpus[k]];
        cpus := cpus + {node.cpus[k]};
      }
      assert node.cpus[..|node.cpus|] == node.cpus;
      forall c ensures c in cpus <==> InTopology(topology[..i + 1], c) {
        if InTopology(topology[..i], c) {
          var n :| n in topology[..i] && c in n.cpus;
          assert n in topology[..i + 1];
        }
        assert node in topology[..i + 1];
      }
    }
    assert topology[..|topology|] == topology;
  }

  // ---------- The partition ----------

  ghost predicate DisjointNodes(topology: seq<HostNumaNode>) {
    forall i, j :: 0 <= i < j < |topology| ==> forall c :: c in topology[i].cpus ==> c !in topology[j].cpus
  }

  ghost predicate NoDuplicates(s: seq<nat>) {
    forall i, j :: 0 <= i < j < |s| ==> s[i] != s[j]
  }

  lemma InTopologyCons(topology: seq<HostNumaNode>)
    requires topology != []
    ensures forall c :: InTopology(topology, c) <==> c in topology[0].cpus || InTopology(topology[1..], c)
  {
    assert topology == [topology[0]] + topology[1..];
    assert topology[0] in topology;
  }

  lemma {:induction false} FlattenContents(topology: seq<HostNumaNode>, vm: seq<nat>)
    ensures forall c :: c in Flatten(PlanNodes(topology, vm)) <==> c in vm && InTopology(topology, c)
  {
    if topology != [] {
      var nodes := PlanNodes(topology, vm);
      assert nodes[1..] == PlanNodes(topology[1..], vm);
      FlattenContents(topology[1..], vm);
      InTopologyCons(topology);
      assert Flatten(nodes) == nodes[0].vmCpus + Flatten(nodes[1..]);
    }
  }

  lemma {:induction false} FlattenNoDuplicates(topology: seq<HostNumaNode>, vm: seq<nat>)
    requires DisjointNodes(topology)
    ensures NoDuplicates(Flatten(PlanNodes(topology, vm)))
  {
    if topology != [] {
      var nodes := PlanNodes(topology, vm);
      assert nodes[1..] == PlanNodes(topology[1..], vm);
      FlattenNoDuplicates(topology[1..], vm);
      FlattenContents(topology[1..], vm);
      var a, b := nodes[0].vmCpus, Flatten(nodes[1..]);
      forall c | c in b ensures c !in a {
        var n :| n in topology[1..] && c in n.cpus;
        var j :| 0 <= j < |topology[1..]| && topology[1..][j] == n;
        assert topology[j + 1] == n;
      }
      var all := Flatten(nodes);
      forall i, j | 0 <= i < j < |all| ensures all[i] != all[j] {
        if i < |a| <= j {
          assert all[i] in a && all[j] in b;
        }
      }
    }
  }

  lemma SortedNoDuplicatesIncreases(s: seq<nat>)
    requires NoDuplicates(s)
    ensures Increasing(Sort(s))
  {
    var r := Sort(s);
    forall i, j | 0 <= i < j < |r| ensures r[i] < r[j] {
      if r[i] == r[j] {
        var x := r[i];
        TwiceInMultiset(r, i, j);
        OnceInMultiset(s, x);
      }
    }
  }

  lemma TwiceInMultiset(r: seq<nat>, i: nat, j: nat)
    requires i < j < |r| && r[i] == r[j]
    ensures multiset(r)[r[i]] >= 2
  {
    assert r == r[..i] + [r[i]] + r[i + 1..j] + [r[j]] + r[j + 1..];
  }

  lemma {:induction false} OnceInMultiset(s: seq<nat>, x: nat)
    requires NoDuplicates(s)
    ensures multiset(s)[x] <= 1
  {
    if s != [] {
      assert s == [s[0]] + s[1..];
      OnceInMultiset(s[1..], x);
      assert forall j :: 0 <= j < |s[1..]| ==> s[1..][j] == s[j + 1] && s[1..][j] != s[0];
      assert s[0] !in multiset(s[1..]);
    }
  }

  /** With pairwise disjoint node lists, the plan's VM CPUs are, in increasing order and
      without duplicates, exactly the VM CPUs that the topology knows. */
  lemma VmCpusPartition(topology: seq<HostNumaNode>, layout: VmCpuLayout)
    requires DisjointNodes(topology)
    ensures var cpus := CpuPlanOf(topology, layout).VmCpus();
      Increasing(cpus) && forall c :: c in cpus <==> c in layout.vm && InTopology(topology, c)
  {
    var flat := Flatten(PlanNodes(topology, layout.vm));
    FlattenContents(topology, layout.vm);
    FlattenNoDuplicates(topology, layout.vm);
    SortedNoDuplicatesIncreases(flat);
    forall c ensures c in Sort(flat) <==> c in flat {
      assert c in Sort(flat) <==> c in multiset(Sort(flat));
      assert c in flat <==> c in multiset(flat);
    }
  }

  /** A sound plan over a non-empty, disjoint topology loses no VM CPU. */
  lemma SoundPlanKeepsVmCpus(topology: seq<HostNumaNode>, layout: VmCpuLayout)
    requires topology != [] && DisjointNodes(topology) && Sound(CpuPlanOf(topology, layout))
    ensures CpuPlanOf(topology, layout).VmCpus() == SortDedup(layout.vm)
  {
    VmCpusPartition(topology, layout);
    IncreasingUnique(CpuPlanOf(topology, layout).VmCpus(), SortDedup(layout.vm));
  }
}
