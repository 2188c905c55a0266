/** Nodes, allocations and resources, as the estimator, the pools and the providers see them. */
module Cluster {
  import opened Ids

  /** Cpu, memory and disk; of a node, what is left after the reserved part. */
  datatype Res = Res(cpu: int, mem: int, disk: int)

  datatype TaskGroup = TaskGroup(ns: string, job: string, name: string)

  datatype Node = Node(id: Id, capacity: Res)

  datatype Alloc = Alloc(id: Id, group: TaskGroup, nodeId: Id, size: Res)

  function Sub(a: Res, b: Res): Res {
    Res(a.cpu - b.cpu, a.mem - b.mem, a.disk - b.disk)
  }

  predicate Fits(size: Res, free: Res) {
    size.cpu <= free.cpu && size.mem <= free.mem && size.disk <= free.disk
  }

  function NodeIds(nodes: seq<Node>): set<Id> {
    set i | 0 <= i < |nodes| :: nodes[i].id
  }

  function AllocIds(allocs: seq<Alloc>): set<Id> {
    set i | 0 <= i < |allocs| :: allocs[i].id
  }

  /** The nodes that carry one of the allocations. */
  function HostIds(allocs: seq<Alloc>): set<Id> {
    set i | 0 <= i < |allocs| :: allocs[i].nodeId
  }

  ghost predicate DistinctNodes(nodes: seq<Node>) {
    forall i, j :: 0 <= i < j < |nodes| ==> nodes[i].id != nodes[j].id
  }

  ghost predicate DistinctAllocs(allocs: seq<Alloc>) {
    forall i, j :: 0 <= i < j < |allocs| ==> allocs[i].id != allocs[j].id
  }

  lemma NodeIdsHas(nodes: seq<Node>, i: nat)
    requires i < |nodes|
    ensures nodes[i].id in NodeIds(nodes)
  {
  }

  lemma NodeIdsAppend(nodes: seq<Node>, n: Node)
    ensures NodeIds(nodes + [n]) == NodeIds(nodes) + {n.id}
    ensures DistinctNodes(nodes) && n.id !in NodeIds(nodes) ==> DistinctNodes(nodes + [n])
  {
    var more := nodes + [n];
    assert more[|nodes|] == n;
    forall id | id in NodeIds(nodes) ensures id in NodeIds(more) {
      var i :| 0 <= i < |nodes| && nodes[i].id == id;
      assert more[i].id == id;
    }
  }

  lemma AllocIdsAppend(allocs: seq<Alloc>, a: Alloc)
    requires DistinctAllocs(allocs) && a.id !in AllocIds(allocs)
    ensures DistinctAllocs(allocs + [a])
  {
  }
}
