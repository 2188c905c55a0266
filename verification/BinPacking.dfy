/**
 estimateRequiredNodes.go: how many new nodes the unplaced copies of a task group need. Copies go one by
 one to any planned node that still fits one, and a node is added only when none does. The scheduler's
 Select is a choice among the fitting nodes; everything here holds for every such choice.
 */
module BinPacking {
  import opened Ids
  import opened Cluster

  /** What a planned allocation list leaves free on a node. */
  function Free(node: Node, plan: seq<Alloc>): Res {
    if plan == [] then node.capacity
    else
      var rest := Free(node, plan[..|plan| - 1]);
      var last := plan[|plan| - 1];
      if last.nodeId == node.id then Sub(rest, last.size) else rest
  }

  lemma FreeAppend(node: Node, plan: seq<Alloc>, a: Alloc)
    ensures Free(node, plan + [a]) == if a.nodeId == node.id then Sub(Free(node, plan), a.size) else Free(node, plan)
  {
  }

  /** The total a planned allocation list asks of a node. */
  function Load(node: Node, plan: seq<Alloc>): Res {
    if plan == [] then Res(0, 0, 0)
    else
      var rest, last := Load(node, plan[..|plan| - 1]), plan[|plan| - 1];
      if last.nodeId != node.id then rest
      else Res(rest.cpu + last.size.cpu, rest.mem + last.size.mem, rest.disk + last.size.disk)
  }

  lemma LoadAppend(node: Node, plan: seq<Alloc>, a: Alloc)
    ensures var load := Load(node, plan);
            Load(node, plan + [a]) ==
              if a.nodeId != node.id then load
              else Res(load.cpu + a.size.cpu, load.mem + a.size.mem, load.disk + a.size.disk)
  {
    assert (plan + [a])[..|plan|] == plan;
  }

  /** What is free and what is asked are together the capacity, in cpu, memory and disk. */
  lemma {:induction false} FreeIsRest(node: Node, plan: seq<Alloc>)
    ensures Free(node, plan).cpu + Load(node, plan).cpu == node.capacity.cpu
    ensures Free(node, plan).mem + Load(node, plan).mem == node.capacity.mem
    ensures Free(node, plan).disk + Load(node, plan).disk == node.capacity.disk
  {
    if plan != [] {
      FreeIsRest(node, plan[..|plan| - 1]);
    }
  }

  /** A task group asks for some cpu and for no negative amount of anything. */
  predicate Proper(size: Res) {
    size.cpu > 0 && size.mem >= 0 && size.disk >= 0
  }

  /** How many copies fit into what is free. */
  function Copies(size: Res, free: Res): nat
    requires Proper(size)
    decreases if free.cpu > 0 then free.cpu else 0
  {
    if Fits(size, free) then 1 + Copies(size, Sub(free, size)) else 0
  }

  /** Together n copies ask for no more cpu, memory and disk than is free. */
  predicate TotalFits(n: nat, size: Res, free: Res) {
    n * size.cpu <= free.cpu && n * size.mem <= free.mem && n * size.disk <= free.disk
  }

  /** Copies is the largest number whose total size still fits. */
  lemma {:induction false} CopiesMeaning(size: Res, free: Res, n: nat)
    requires Proper(size) && n > 0
    ensures n <= Copies(size, free) <==> TotalFits(n, size, free)
    decreases n
  {
    assert n * size.cpu == (n - 1) * size.cpu + size.cpu;
    assert n * size.mem == (n - 1) * size.mem + size.mem;
    assert n * size.disk == (n - 1) * size.disk + size.disk;
    if n > 1 {
      CopiesMeaning(size, Sub(free, size), n - 1);
      assert (n - 1) * size.cpu >= 0 && (n - 1) * size.mem >= 0 && (n - 1) * size.disk >= 0;
    }
  }

  /** The copies all nodes together still take. */
  function Slack(size: Res, nodes: seq<Node>, plan: seq<Alloc>): nat
    requires Proper(size)
  {
    if nodes == [] then 0
    else Slack(size, nodes[..|nodes| - 1], plan) + Copies(size, Free(nodes[|nodes| - 1], plan))
  }

  predicate SomeFits(size: Res, nodes: seq<Node>, plan: seq<Alloc>) {
    exists j :: 0 <= j < |nodes| && Fits(size, Free(nodes[j], plan))
  }

  lemma {:induction false} SlackZeroIff(size: Res, nodes: seq<Node>, plan: seq<Alloc>)
    requires Proper(size)
    ensures Slack(size, nodes, plan) == 0 <==> !SomeFits(size, nodes, plan)
  {
    if nodes != [] {
      var front := nodes[..|nodes| - 1];
      SlackZeroIff(size, front, plan);
      assert SomeFits(size, front, plan) ==> SomeFits(size, nodes, plan) by {
        if SomeFits(size, front, plan) {
          var j :| 0 <= j < |front| && Fits(size, Free(front[j], plan));
          assert nodes[j] == front[j];
        }
      }
      assert SomeFits(size, nodes, plan) ==>
          SomeFits(size, front, plan) || Fits(size, Free(nodes[|nodes| - 1], plan)) by {
        if SomeFits(size, nodes, plan) {
          var j :| 0 <= j < |nodes| && Fits(size, Free(nodes[j], plan));
          assert j < |front| ==> front[j] == nodes[j];
        }
      }
    }
  }

  /** A copy placed elsewhere takes nothing from these nodes. */
  lemma {:induction false} SlackElsewhere(size: Res, nodes: seq<Node>, plan: seq<Alloc>, a: Alloc)
    requires Proper(size) && forall i :: 0 <= i < |nodes| ==> nodes[i].id != a.nodeId
    ensures Slack(size, nodes, plan + [a]) == Slack(size, nodes, plan)
  {
    if nodes != [] {
      SlackElsewhere(size, nodes[..|nodes| - 1], plan, a);
      FreeAppend(nodes[|nodes| - 1], plan, a);
    }
  }

  /** A copy placed on one of these nodes takes exactly one place. */
  lemma {:induction false} SlackPlaced(size: Res, nodes: seq<Node>, plan: seq<Alloc>, a: Alloc, j: nat)
    requires Proper(size) && DistinctNodes(nodes) && j < |nodes|
    requires a.nodeId == nodes[j].id && a.size == size && Fits(size, Free(nodes[j], plan))
    ensures Slack(size, nodes, plan + [a]) == Slack(size, nodes, plan) - 1
  {
    var front, last := nodes[..|nodes| - 1], nodes[|nodes| - 1];
    FreeAppend(last, plan, a);
    if j == |nodes| - 1 {
      SlackElsewhere(size, front, plan, a);
    } else {
      SlackPlaced(size, front, plan, a, j);
    }
  }

  /** A node nobody planned for is empty. */
  lemma {:induction false} FreshIsEmpty(node: Node, plan: seq<Alloc>)
    requires forall i :: 0 <= i < |plan| ==> plan[i].nodeId != node.id
    ensures Free(node, plan) == node.capacity
  {
    if plan != [] {
      FreshIsEmpty(node, plan[..|plan| - 1]);
    }
  }

  /** ceil(max(0, count - slack) / k) */
  function Needed(count: int, slack: nat, k: nat): nat
    requires k > 0 || count <= slack
  {
    if count <= slack then 0 else (count - slack + k - 1) / k
  }

  lemma NeededIs(count: int, slack: nat, k: nat, m: nat)
    requires k > 0 || count <= slack
    requires count <= slack + m * k && (m > 0 ==> slack + (m - 1) * k < count)
    ensures m == Needed(count, slack, k)
  {
    assert m > 0 ==> (m - 1) * k >= 0;
    if m > 0 {
      var x := count - slack + k - 1;
      assert (m - 1) * k == m * k - k;
      assert m * k <= x < m * k + k;
      DivIs(x, k, m);
    }
  }

  lemma {:induction false} MulStep(a: int, b: int, k: nat)
    ensures a < b ==> a * k + k <= b * k
    decreases b - a
  {
    assert b * k == (b - 1) * k + k;
    if a < b - 1 {
      MulStep(a, b - 1, k);
    }
  }

  lemma DivIs(x: int, k: nat, m: nat)
    requires k > 0 && m * k <= x < m * k + k
    ensures x / k == m
  {
    var q := x / k;
    assert q * k <= x < q * k + k;
    MulStep(q, m, k);
    MulStep(m, q, k);
  }

  lemma NeededAtMost(count: int, slack: nat, k: nat, m: nat)
    requires k > 0 && count <= slack + m * k
    ensures Needed(count, slack, k) <= m
  {
    if count > slack {
      var x := count - slack + k - 1;
      var q := x / k;
      assert q * k <= x < m * k + k;
      MulStep(m, q, k);
    }
  }

  /** An assignment of copies to nodes with these free resources that overcommits none of them. */
  ghost predicate Assignment(size: Res, frees: seq<Res>, counts: seq<nat>) {
    |counts| == |frees| && forall i :: 0 <= i < |frees| && counts[i] > 0 ==> TotalFits(counts[i], size, frees[i])
  }

  function Total(counts: seq<nat>): nat {
    if counts == [] then 0 else Total(counts[..|counts| - 1]) + counts[|counts| - 1]
  }

  /** What the planned nodes leave free, and then m empty new nodes. */
  function Frees(nodes: seq<Node>, plan: seq<Alloc>, template: Res, m: nat): (r: seq<Res>)
    ensures |r| == |nodes| + m
  {
    seq(|nodes|, i requires 0 <= i < |nodes| => Free(nodes[i], plan)) + seq(m, i => template)
  }

  lemma {:induction false} AssignmentBounded(size: Res, nodes: seq<Node>, plan: seq<Alloc>, template: Res, m: nat,
                                             counts: seq<nat>)
    requires Proper(size) && Assignment(size, Frees(nodes, plan, template, m), counts)
    ensures Total(counts) <= Slack(size, nodes, plan) + m * Copies(size, template)
    decreases |nodes| + m
  {
    var frees := Frees(nodes, plan, template, m);
    if counts != [] {
      var last := counts[|counts| - 1];
      if last > 0 {
        CopiesMeaning(size, frees[|frees| - 1], last);
      }
      if m > 0 {
        assert Frees(nodes, plan, template, m - 1) == frees[..|frees| - 1];
        AssignmentBounded(size, nodes, plan, template, m - 1, counts[..|counts| - 1]);
        assert m * Copies(size, template) == (m - 1) * Copies(size, template) + Copies(size, template);
      } else {
        assert Frees(nodes[..|nodes| - 1], plan, template, 0) == frees[..|frees| - 1];
        AssignmentBounded(size, nodes[..|nodes| - 1], plan, template, 0, counts[..|counts| - 1]);
      }
    }
  }

  /**
   Needed is the least number of new nodes: no assignment of count copies to the planned nodes and fewer
   new nodes avoids overcommitting one of them.
   */
  lemma NeededIsLeast(size: Res, nodes: seq<Node>, plan: seq<Alloc>, template: Res, count: nat, m: nat,
                      counts: seq<nat>)
    requires Proper(size) && Fits(size, template)
    requires Assignment(size, Frees(nodes, plan, template, m), counts) && Total(counts) == count
    ensures Needed(count, Slack(size, nodes, plan), Copies(size, template)) <= m
  {
    AssignmentBounded(size, nodes, plan, template, m, counts);
    NeededAtMost(count, Slack(size, nodes, plan), Copies(size, template), m);
  }

  /** stack.Select: some offered node that takes one more copy, or none exactly when there is none. */
  method Select(size: Res, nodes: seq<Node>, plan: seq<Alloc>) returns (r: Option<nat>)
    ensures r.None? <==> !SomeFits(size, nodes, plan)
    ensures r.Some? ==> r.value < |nodes| && Fits(size, Free(nodes[r.value], plan))
  {
    if j :| 0 <= j < |nodes| && Fits(size, Free(nodes[j], plan)) {
      r := Some(j);
    } else {
      r := None;
    }
  }

  /** All that is planned on the node is together within its capacity, in cpu, memory and disk. */
  predicate WithinCapacity(node: Node, plan: seq<Alloc>) {
    var load := Load(node, plan);
    load.cpu <= node.capacity.cpu && load.mem <= node.capacity.mem && load.disk <= node.capacity.disk
  }

  /** The node carries one of the allocations. */
  predicate Hosts(node: Node, allocs: seq<Alloc>) {
    exists i :: 0 <= i < |allocs| && allocs[i].nodeId == node.id
  }

  lemma HostsAppend(node: Node, allocs: seq<Alloc>, a: Alloc)
    ensures Hosts(node, allocs + [a]) <==> Hosts(node, allocs) || a.nodeId == node.id
  {
    assert (allocs + [a])[|allocs|] == a;
    if Hosts(node, allocs) {
      var i :| 0 <= i < |allocs| && allocs[i].nodeId == node.id;
      assert (allocs + [a])[i].nodeId == node.id;
    }
  }

  /** Every node that carries a new copy is within its capacity. */
  ghost predicate NoOvercommit(nodes: seq<Node>, ea: seq<Alloc>, plan: seq<Alloc>) {
    forall j :: 0 <= j < |nodes| && Hosts(nodes[j], ea) ==> WithinCapacity(nodes[j], plan)
  }

  lemma PlaceKeepsCapacity(nodes: seq<Node>, ea: seq<Alloc>, plan: seq<Alloc>, a: Alloc, k: nat)
    requires DistinctNodes(nodes) && k < |nodes| && a.nodeId == nodes[k].id
    requires Fits(a.size, Free(nodes[k], plan)) && NoOvercommit(nodes, ea, plan)
    ensures NoOvercommit(nodes, ea + [a], plan + [a])
  {
    forall j | 0 <= j < |nodes| && Hosts(nodes[j], ea + [a]) ensures WithinCapacity(nodes[j], plan + [a]) {
      HostsAppend(nodes[j], ea, a);
      LoadAppend(nodes[j], plan, a);
      FreeIsRest(nodes[j], plan);
    }
  }

  lemma OpenKeepsCapacity(nodes: seq<Node>, ea: seq<Alloc>, plan: seq<Alloc>, n: Node)
    requires NoOvercommit(nodes, ea, plan) && !Hosts(n, ea)
    ensures NoOvercommit(nodes + [n], ea, plan)
  {
  }

  /**
   Every new node but the last carries a copy; the last one does too, or the next copy can only go there.
   */
  ghost predicate NewNodesUsed(size: Res, offered: seq<Node>, en: seq<Node>, ea: seq<Alloc>, plan: seq<Alloc>) {
    && (forall j :: 0 <= j < |en| - 1 ==> Hosts(en[j], ea))
    && (en != [] && !Hosts(en[|en| - 1], ea) ==>
          !SomeFits(size, offered + en[..|en| - 1], plan) && Fits(size, Free(en[|en| - 1], plan)))
  }

  lemma PlaceKeepsUse(size: Res, offered: seq<Node>, en: seq<Node>, ea: seq<Alloc>, plan: seq<Alloc>, a: Alloc, k: nat)
    requires NewNodesUsed(size, offered, en, ea, plan)
    requires k < |offered + en| && a.nodeId == (offered + en)[k].id && Fits(size, Free((offered + en)[k], plan))
    ensures forall j :: 0 <= j < |en| ==> Hosts(en[j], ea + [a])
    ensures NewNodesUsed(size, offered, en, ea + [a], plan + [a])
  {
    forall j | 0 <= j < |en| ensures Hosts(en[j], ea + [a]) {
      HostsAppend(en[j], ea, a);
      var front := offered + en[..|en| - 1];
      if !Hosts(en[j], ea) && k < |front| {
        assert front[k] == (offered + en)[k];
        assert SomeFits(size, front, plan);
        assert false;
      }
    }
  }

  lemma OpenKeepsUse(size: Res, offered: seq<Node>, en: seq<Node>, ea: seq<Alloc>, plan: seq<Alloc>, n: Node)
    requires NewNodesUsed(size, offered, en, ea, plan)
    requires !SomeFits(size, offered + en, plan) && Fits(size, Free(n, plan))
    ensures NewNodesUsed(size, offered, en + [n], ea, plan)
    ensures SomeFits(size, offered + (en + [n]), plan)
  {
    var nodes := offered + (en + [n]);
    assert (en + [n])[..|en|] == en;
    assert nodes[|nodes| - 1] == n;
    if en != [] {
      assert (offered + en)[|offered + en| - 1] == en[|en| - 1];
    }
  }

  lemma OpenKeepsSlack(size: Res, nodes: seq<Node>, plan: seq<Alloc>, n: Node)
    requires Proper(size) && Free(n, plan) == n.capacity
    ensures Slack(size, nodes + [n], plan) == Slack(size, nodes, plan) + Copies(size, n.capacity)
  {
  }

  // ---- When the loop ends ----

  /** The loop's variables: the nodes offered, everything planned on them, and the copies placed so far. */
  datatype Loop = Loop(nodes: seq<Node>, plan: seq<Alloc>, placed: nat)

  /** One turn of the loop: place a copy on a fitting node, or open a node when there is none. */
  datatype Turn = Place(k: nat, alloc: Alloc) | Open(node: Node)

  predicate CanTake(size: Res, template: Res, s: Loop, t: Turn) {
    match t
    case Place(k, a) =>
      k < |s.nodes| && Fits(size, Free(s.nodes[k], s.plan)) && a.nodeId == s.nodes[k].id && a.size == size
    case Open(n) =>
      !SomeFits(size, s.nodes, s.plan) && n.capacity == template && n.id !in NodeIds(s.nodes) + HostIds(s.plan)
  }

  function Take(s: Loop, t: Turn): Loop {
    match t
    case Place(_, a) => Loop(s.nodes, s.plan + [a], s.placed + 1)
    case Open(n) => s.(nodes := s.nodes + [n])
  }

  /** A run of the loop for count copies, whatever Select chooses. */
  ghost predicate Turns(size: Res, template: Res, count: int, states: seq<Loop>, turns: seq<Turn>) {
    && |states| == |turns| + 1
    && forall i :: 0 <= i < |turns| ==>
         && states[i].placed < count
         && CanTake(size, template, states[i], turns[i])
         && states[i + 1] == Take(states[i], turns[i])
  }

  /** A placed copy takes one place from the slack, an opened node adds its copies to it. */
  lemma TurnSlack(size: Res, template: Res, s: Loop, t: Turn)
    requires Proper(size) && DistinctNodes(s.nodes) && CanTake(size, template, s, t)
    ensures DistinctNodes(Take(s, t).nodes)
    ensures Take(s, t).placed + Slack(size, Take(s, t).nodes, Take(s, t).plan)
         == s.placed + Slack(size, s.nodes, s.plan) + if t.Open? then Copies(size, template) else 0
  {
    match t
    case Place(k, a) => SlackPlaced(size, s.nodes, s.plan, a, k);
    case Open(n) =>
      NodeIdsAppend(s.nodes, n);
      FreshIsEmpty(n, s.plan);
      OpenKeepsSlack(size, s.nodes, s.plan, n);
  }

  /** There is always a next turn. */
  lemma NextTurn(size: Res, template: Res, s: Loop) returns (t: Turn)
    ensures CanTake(size, template, s, t)
  {
    if SomeFits(size, s.nodes, s.plan) {
      var k :| 0 <= k < |s.nodes| && Fits(size, Free(s.nodes[k], s.plan));
      t := Place(k, Alloc(Id(0), TaskGroup("", "", ""), s.nodes[k].id, size));
    } else {
      var id := FreshId(NodeIds(s.nodes) + HostIds(s.plan));
      t := Open(Node(id, template));
    }
  }

  /**
   When an empty node of the pool takes no copy, opening nodes is useless: the loop only ever places what the
   planned nodes take, however long it runs.
   */
  lemma {:induction false} OpeningCanBeUseless(size: Res, template: Res, count: int, states: seq<Loop>,
                                               turns: seq<Turn>)
    requires Proper(size) && !Fits(size, template)
    requires Turns(size, template, count, states, turns) && DistinctNodes(states[0].nodes)
    ensures var s := states[|turns|];
            && DistinctNodes(s.nodes)
            && s.placed + Slack(size, s.nodes, s.plan)
               == states[0].placed + Slack(size, states[0].nodes, states[0].plan)
    decreases |turns|
  {
    if turns != [] {
      var n := |turns| - 1;
      OpeningCanBeUseless(size, template, count, states[..n + 1], turns[..n]);
      TurnSlack(size, template, states[n], turns[n]);
    }
  }

  /** With more copies than the planned nodes take, such a loop can be made as long as one likes. */
  lemma {:induction false} NeverEnds(size: Res, template: Res, count: int, start: Loop, n: nat)
    returns (states: seq<Loop>, turns: seq<Turn>)
    requires Proper(size) && !Fits(size, template)
    requires DistinctNodes(start.nodes) && start.placed + Slack(size, start.nodes, start.plan) < count
    ensures Turns(size, template, count, states, turns) && states[0] == start && |turns| == n
  {
    if n == 0 {
      states, turns := [start], [];
    } else {
      states, turns := NeverEnds(size, template, count, start, n - 1);
      OpeningCanBeUseless(size, template, count, states, turns);
      var t := NextTurn(size, template, states[n - 1]);
      states, turns := states + [Take(states[n - 1], t)], turns + [t];
    }
  }

  /** The turns the loop can still take when an empty node takes a copy or the planned nodes take them all. */
  function TurnsLeft(size: Res, count: int, s: Loop): int {
    2 * (count - s.placed) + if SomeFits(size, s.nodes, s.plan) then 0 else 1
  }

  lemma {:induction false} EndsWithin(size: Res, template: Res, count: int, states: seq<Loop>, turns: seq<Turn>)
    requires Proper(size) && Turns(size, template, count, states, turns) && DistinctNodes(states[0].nodes)
    requires Fits(size, template) || count <= states[0].placed + Slack(size, states[0].nodes, states[0].plan)
    ensures |turns| + TurnsLeft(size, count, states[|turns|]) <= TurnsLeft(size, count, states[0])
    decreases |turns|
  {
    if turns != [] {
      var s := states[0];
      TurnSlack(size, template, s, turns[0]);
      SlackZeroIff(size, s.nodes, s.plan);
      TurnSpends(size, template, s, turns[0]);
      EndsWithin(size, template, count, states[1..], turns[1..]);
    }
  }

  lemma TurnSpends(size: Res, template: Res, s: Loop, t: Turn)
    requires CanTake(size, template, s, t) && (t.Open? ==> Fits(size, template))
    ensures t.Place? ==> SomeFits(size, s.nodes, s.plan)
    ensures t.Open? ==> SomeFits(size, Take(s, t).nodes, Take(s, t).plan)
  {
    if t.Open? {
      FreshIsEmpty(t.node, s.plan);
      assert (s.nodes + [t.node])[|s.nodes|] == t.node;
    }
  }

  /**
   What EstimateRequiredNodes demands is exactly what its loop needs to end: every run of the loop is bounded
   if and only if an empty node takes a copy or the planned nodes take all of them.
   */
  lemma EndsIff(size: Res, nodes: seq<Node>, plan: seq<Alloc>, template: Res, count: nat)
    requires Proper(size) && DistinctNodes(nodes)
    ensures Fits(size, template) || count <= Slack(size, nodes, plan) <==>
            forall states, turns :: Turns(size, template, count, states, turns) && states[0] == Loop(nodes, plan, 0) ==>
              |turns| <= 2 * count + 1
  {
    if Fits(size, template) || count <= Slack(size, nodes, plan) {
      forall states, turns | Turns(size, template, count, states, turns) && states[0] == Loop(nodes, plan, 0)
        ensures |turns| <= 2 * count + 1
      {
        EndsWithin(size, template, count, states, turns);
        PlacedAtMost(size, template, count, states, turns);
      }
    } else {
      var states, turns := NeverEnds(size, template, count, Loop(nodes, plan, 0), 2 * count + 2);
    }
  }

  lemma PlacedAtMost(size: Res, template: Res, count: nat, states: seq<Loop>, turns: seq<Turn>)
    requires Turns(size, template, count, states, turns) && states[0].placed <= count
    ensures states[|turns|].placed <= count
  {
    if turns != [] {
      assert states[|turns| - 1].placed < count;
    }
  }

  lemma NothingPlaced(size: Res, offered: seq<Node>, plan: seq<Alloc>)
    ensures NoOvercommit(offered, [], plan) && NewNodesUsed(size, offered, [], [], plan)
  {
  }

  /**
   Place count copies of one task group. `offered` and `plan` are the pool's planned nodes and allocations
   followed by those of the same scaling event; `template` is the capacity of a new node of the pool.
   */
  method EstimateRequiredNodes(offered: seq<Node>, plan: seq<Alloc>, template: Res, group: TaskGroup, size: Res,
                               count: int)
    returns (en: seq<Node>, ea: seq<Alloc>)
    requires DistinctNodes(offered) && DistinctAllocs(plan)
    requires Proper(size)
    requires Fits(size, template) || count <= Slack(size, offered, plan)
    ensures |ea| == Max(0, count)
    ensures forall i :: 0 <= i < |ea| ==> ea[i].group == group && ea[i].size == size
    ensures forall i :: 0 <= i < |ea| ==> ea[i].nodeId in NodeIds(offered + en)
    ensures forall i :: 0 <= i < |en| ==> en[i].capacity == template
    ensures DistinctNodes(offered + en) && DistinctAllocs(plan + ea)
    ensures forall i :: 0 <= i < |en| ==> Hosts(en[i], ea)
    ensures NoOvercommit(offered + en, ea, plan + ea)
    ensures |en| == Needed(count, Slack(size, offered, plan), Copies(size, template))
  {
    hide NoOvercommit, NewNodesUsed, SomeFits, Slack, Free, NodeIds, DistinctAllocs, AllocIds;
    ghost var slack, k := Slack(size, offered, plan), Copies(size, template);
    var nodes, lplan := offered, plan;
    en, ea := [], [];
    var i := 0;
    NothingPlaced(size, offered, plan);
    while i < count
      invariant 0 <= i == |ea| <= Max(0, count)
      invariant nodes == offered + en && lplan == plan + ea && DistinctNodes(nodes) && DistinctAllocs(lplan)
      invariant forall i :: 0 <= i < |ea| ==> ea[i].group == group && ea[i].size == size
      invariant forall i :: 0 <= i < |ea| ==> ea[i].nodeId in NodeIds(nodes)
      invariant forall i :: 0 <= i < |en| ==> en[i].capacity == template
      invariant NoOvercommit(nodes, ea, lplan)
      invariant i + Slack(size, nodes, lplan) == slack + |en| * k
      invariant |en| > 0 ==> slack + (|en| - 1) * k < count
      invariant NewNodesUsed(size, offered, en, ea, lplan)
      invariant i == count ==> forall j :: 0 <= j < |en| ==> Hosts(en[j], ea)
      decreases count - i, if SomeFits(size, nodes, lplan) then 0 else 1
    {
      SlackZeroIff(size, nodes, lplan);
      var rnode := Select(size, nodes, lplan);
      if rnode.None? {
        assert k == 0 ==> |en| * k == 0;
        var id := Generate(NodeIds(nodes) + HostIds(lplan));
        var added := Node(id, template);
        NodeIdsAppend(nodes, added);
        FreshIsEmpty(added, lplan);
        OpenKeepsCapacity(nodes, ea, lplan, added);
        assert CanTake(size, template, Loop(nodes, lplan, i), Open(added));
        OpenKeepsUse(size, offered, en, ea, lplan, added);
        OpenKeepsSlack(size, nodes, lplan, added);
        assert nodes + [added] == offered + (en + [added]);
        en := en + [added];
        nodes := nodes + [added];
        continue;
      }
      var node := nodes[rnode.value];
      NodeIdsHas(nodes, rnode.value);
      var allocId := Generate(AllocIds(lplan));
      var alloc := Alloc(allocId, group, node.id, size);
      assert CanTake(size, template, Loop(nodes, lplan, i), Place(rnode.value, alloc));
      AllocIdsAppend(lplan, alloc);
      SlackPlaced(size, nodes, lplan, alloc, rnode.value);
      PlaceKeepsCapacity(nodes, ea, lplan, alloc, rnode.value);
      PlaceKeepsUse(size, offered, en, ea, lplan, alloc, rnode.value);
      i := i + 1;
      lplan := lplan + [alloc];
      ea := ea + [alloc];
    }
    NeededIs(count, slack, k, |en|);
  }
}
