/** S-SPF: Dijkstra over South Node TIEs, with inherited next hops, and prefix attachment. */
module Southbound {
  import opened RiftTypes
  import opened Prefixes
  import opened Routes
  import opened Graph

  datatype PqItem = PqItem(id: SystemID, distance: Metric)

  /** The heap, seen as the items pushed and not yet popped. */
  class PriorityQueue {
    var items: seq<PqItem>

    constructor ()
      ensures items == []
    {
      items := [];
    }

    method Push(item: PqItem)
      modifies this
      ensures items == old(items) + [item]
    {
      items := items + [item];
    }

    /** Removes one item of least distance. */
    method Pop() returns (item: PqItem)
      requires items != []
      modifies this
      ensures item in old(items) && forall x :: x in old(items) ==> item.distance <= x.distance
      ensures multiset(items) == multiset(old(items)) - multiset{item}
      ensures |items| == |old(items)| - 1
    {
      var m := 0;
      for i := 1 to |items|
        invariant 0 <= m < i
        invariant forall j :: 0 <= j < i ==> items[m].distance <= items[j].distance
      {
        if items[i].distance < items[m].distance { m := i; }
      }
      item := items[m];
      assert items == items[..m] + [item] + items[m + 1..];
      items := items[..m] + items[m + 1..];
    }
  }

  // ---- Next hops ----

  function NextHopOf(a: AdjacencyInfo): NextHop { NextHop(a.neighborID, a.neighborAddr, a.ifName) }

  function Adjacent(adjacencies: map<string, AdjacencyInfo>): set<SystemID> {
    set k | k in adjacencies :: adjacencies[k].neighborID
  }

  function DirectHops(adjacencies: map<string, AdjacencyInfo>): set<NextHop> {
    set k | k in adjacencies :: NextHopOf(adjacencies[k])
  }

  /** The lookup by neighbour ID; of parallel adjacencies the last one visited stays. */
  method AdjacencyLookup(adjacencies: map<string, AdjacencyInfo>) returns (byNeighbor: map<SystemID, AdjacencyInfo>)
    ensures byNeighbor.Keys == Adjacent(adjacencies)
    ensures forall n :: n in byNeighbor ==> byNeighbor[n] in adjacencies.Values && byNeighbor[n].neighborID == n
  {
    byNeighbor := map[];
    var todo := adjacencies.Keys;
    while todo != {}
      invariant todo <= adjacencies.Keys
      invariant forall n :: n in byNeighbor ==> byNeighbor[n] in adjacencies.Values && byNeighbor[n].neighborID == n
      invariant forall k :: k in adjacencies && k !in todo ==> adjacencies[k].neighborID in byNeighbor
    {
      var k :| k in todo;
      todo := todo - {k};
      byNeighbor := byNeighbor[adjacencies[k].neighborID := adjacencies[k]];
    }
    forall n ensures n in byNeighbor <==> n in Adjacent(adjacencies) {
      if n in byNeighbor {
        var k :| k in adjacencies && adjacencies[k] == byNeighbor[n];
      }
    }
  }

  // ---- Termination on every input: recorded distances only fall, and they are int32 ----

  function Weight(tree: Tree, v: SystemID): nat {
    if v in tree && MIN32 <= tree[v].distance <= MAX32 then tree[v].distance - MIN32 else 0x1_0000_0000
  }

  ghost function Potential(nodes: set<SystemID>, tree: Tree): nat
    decreases |nodes|
  {
    if nodes == {} then 0 else
      var v := Pick(nodes);
      assert |nodes - {v}| < |nodes|;
      Weight(tree, v) + Potential(nodes - {v}, tree)
  }

  lemma {:induction false} PotentialSplit(nodes: set<SystemID>, tree: Tree, v: SystemID)
    requires v in nodes
    ensures Potential(nodes, tree) == Weight(tree, v) + Potential(nodes - {v}, tree)
    decreases |nodes|
  {
    var x :| x in nodes && Potential(nodes, tree) == Weight(tree, x) + Potential(nodes - {x}, tree);
    if x != v {
      PotentialSplit(nodes - {x}, tree, v);
      PotentialSplit(nodes - {v}, tree, x);
      assert nodes - {x} - {v} == nodes - {v} - {x};
    }
  }

  lemma {:induction false} PotentialFrame(nodes: set<SystemID>, tree: Tree, tree': Tree)
    requires forall v :: v in nodes ==> Weight(tree, v) == Weight(tree', v)
    ensures Potential(nodes, tree) == Potential(nodes, tree')
    decreases |nodes|
  {
    if nodes != {} {
      var v := Pick(nodes);
      PotentialSplit(nodes, tree, v);
      PotentialSplit(nodes, tree', v);
      PotentialFrame(nodes - {v}, tree, tree');
    }
  }

  /** Recording or improving a node lowers the potential; merging next hops leaves it. */
  lemma RelaxPotential(nodes: set<SystemID>, tree: Tree, v: SystemID, newDist: Metric, nhs: seq<NextHop>)
    requires v in nodes && MIN32 <= newDist <= MAX32
    requires v in tree ==> MIN32 <= tree[v].distance <= MAX32
    ensures var pot, pot' := Potential(nodes, tree), Potential(nodes, Relaxed(tree, v, newDist, nhs));
            if v !in tree || newDist < tree[v].distance then pot' < pot else pot' == pot
  {
    hide Merged;
    var tree' := Relaxed(tree, v, newDist, nhs);
    PotentialSplit(nodes, tree, v);
    PotentialSplit(nodes, tree', v);
    PotentialFrame(nodes - {v}, tree, tree');
  }

  // ---- The invariant of the search ----

  /** Every node that can be recorded: ourselves and the originators in the database. */
  ghost function Universe(t: Topo): set<SystemID> {
    (set id | id in t.entries :: id.originator) + {t.self}
  }

  /**
   * settled nodes have been popped; e are the links relaxed so far, all of them except those from cur
   * to nodes in todo; unsettled nodes wait in items and are no nearer than any settled one.
   */
  ghost predicate Searching(t: Topo, tree: Tree, settled: set<SystemID>, e: Links, items: multiset<PqItem>,
                            cur: SystemID, todo: set<SystemID>) {
    && Feasible(t, tree, e) && Supported(t, tree, settled) && (PositiveCosts(t) ==> Solves(t, tree, e))
    && settled <= tree.Keys
    && NearFirst(tree, settled)
    && Waiting(tree, settled, items)
    && (forall l :: l in e ==> l.0 in settled)
    && (forall u, v :: u in settled && t.Edge(u, v) && !(u == cur && v in todo) ==> (u, v) in e)
    && (todo != {} ==> Expanding(tree, settled, e, cur, todo))
  }

  ghost predicate NearFirst(tree: Tree, settled: set<SystemID>) {
    forall u, v :: u in settled && u in tree && v in tree && v !in settled ==> tree[u].distance <= tree[v].distance
  }

  ghost predicate Waiting(tree: Tree, settled: set<SystemID>, items: multiset<PqItem>) {
    && (forall v :: v in tree && v !in settled ==> PqItem(v, tree[v].distance) in items)
    && (forall x :: x in items ==> items[x] == 1 && x.id in tree && tree[x.id].distance <= x.distance)
    && (forall x :: x in items && x.id in settled ==> tree[x.id].distance < x.distance)
  }

  ghost predicate Expanding(tree: Tree, settled: set<SystemID>, e: Links, cur: SystemID, todo: set<SystemID>) {
    && cur in settled && cur in tree
    && (forall u :: u in settled && u in tree ==> tree[u].distance <= tree[cur].distance)
    && (forall v :: v in todo ==> (cur, v) !in e)
  }

  lemma Start(t: Topo)
    ensures Searching(t, map[t.self := SpfNode(0, [])], {}, {}, multiset{PqItem(t.self, 0)}, t.self, {})
  {
    assert TreePath(t, {}, 0, t.self, [t.self]);
  }

  /** Popping a current item settles its node; all its links are then still to do. */
  lemma Settle(t: Topo, tree: Tree, settled: set<SystemID>, e: Links, items: multiset<PqItem>,
               item: PqItem, cur: SystemID, todo: set<SystemID>)
    requires Searching(t, tree, settled, e, items, cur, {})
    requires item in items && forall x :: x in items ==> item.distance <= x.distance
    requires item.distance <= tree[item.id].distance
    requires forall v :: t.Edge(item.id, v) ==> v in todo
    ensures item.id !in settled
    ensures Searching(t, tree, settled + {item.id}, e, items - multiset{item}, item.id, todo)
  {
    hide Solves, Feasible, Supported, Topo.Edge;
    SettleSupported(t, tree, settled, item.id);
    var u, settled' := item.id, settled + {item.id};
    assert tree[u].distance == item.distance;
    forall v | v in tree && v !in settled' ensures tree[u].distance <= tree[v].distance {
      assert PqItem(v, tree[v].distance) in items;
    }
    forall x | x in items - multiset{item} && x.id in settled' ensures tree[x.id].distance < x.distance {
      assert x in items;
    }
    if todo != {} {
      assert Expanding(tree, settled', e, u, todo);
    }
  }

  /** A popped item that is stale leaves the search as it was. */
  lemma Discard(t: Topo, tree: Tree, settled: set<SystemID>, e: Links, items: multiset<PqItem>,
                item: PqItem, cur: SystemID)
    requires Searching(t, tree, settled, e, items, cur, {})
    requires item.id in tree && item.distance > tree[item.id].distance
    ensures Searching(t, tree, settled, e, items - multiset{item}, cur, {})
  {
  }

  /** The queue after one relaxation to distance d. */
  function Pushed(tree: Tree, items: multiset<PqItem>, v: SystemID, d: Metric): multiset<PqItem> {
    if v !in tree || d < tree[v].distance then items + multiset{PqItem(v, d)} else items
  }

  /** What one relaxation keeps of the order between settled and waiting nodes. */
  lemma RelaxOrder(tree: Tree, settled: set<SystemID>, u: SystemID, v: SystemID, d: Metric, nhs: seq<NextHop>)
    requires settled <= tree.Keys && NearFirst(tree, settled)
    requires u in settled && forall a :: a in settled ==> tree[a].distance <= tree[u].distance
    requires tree[u].distance <= d
    ensures var tree' := Relaxed(tree, v, d, nhs);
            && u in tree' && settled <= tree'.Keys
            && (forall a :: a in settled ==> tree'[a].distance == tree[a].distance)
            && NearFirst(tree', settled)
  {
    hide Merged;
  }

  lemma RelaxWaiting(tree: Tree, settled: set<SystemID>, items: multiset<PqItem>, v: SystemID, d: Metric,
                     nhs: seq<NextHop>)
    requires settled <= tree.Keys && Waiting(tree, settled, items)
    requires v in settled ==> d >= tree[v].distance
    ensures Waiting(Relaxed(tree, v, d, nhs), settled, Pushed(tree, items, v, d))
  {
    hide Merged;
    var tree', items' := Relaxed(tree, v, d, nhs), Pushed(tree, items, v, d);
    forall x | x in items' ensures items'[x] == 1 && x.id in tree' && tree'[x.id].distance <= x.distance {
      assert x in items || x == PqItem(v, d);
    }
  }

  lemma NonNegative(t: Topo, tree: Tree, e: Links, u: SystemID, v: SystemID)
    requires Feasible(t, tree, e) && NonNegativeCosts(t) && u in tree && t.Edge(u, v)
    ensures 0 <= tree[u].distance <= tree[u].distance + t.Cost(u, v)
    ensures t.self in tree && tree[t.self].distance == 0
  {
    hide Topo.Edge, Topo.Cost;
  }

  /** Relaxing one link of the expanded node, with the item pushed when its head got nearer. */
  lemma RelaxStep(t: Topo, tree: Tree, settled: set<SystemID>, e: Links, items: multiset<PqItem>,
                  u: SystemID, v: SystemID, nhs: seq<NextHop>, todo: set<SystemID>)
    requires NonNegativeCosts(t)
    requires Searching(t, tree, settled, e, items, u, todo) && v in todo && t.Edge(u, v)
    requires Ids(nhs) == Contribution(t, tree, u, v) && nhs != []
    ensures var d := tree[u].distance + t.Cost(u, v);
            && 0 <= d
            && Searching(t, Relaxed(tree, v, d, nhs), settled, e + {(u, v)}, Pushed(tree, items, v, d), u, todo - {v})
            && Relaxed(tree, v, d, nhs)[u].distance == tree[u].distance
  {
    hide Topo.Edge, Topo.Cost, Solves, Feasible, Supported, Relaxed, Pushed, NearFirst, Waiting, Contribution, Ids;
    NonNegative(t, tree, e, u, v);
    var d := tree[u].distance + t.Cost(u, v);
    RelaxOrder(tree, settled, u, v, d, nhs);
    assert v in settled ==> d >= tree[v].distance;
    RelaxWaiting(tree, settled, items, v, d, nhs);
    assert forall w :: (v, w) in e ==> (v, w).0 in settled;
    RelaxFeasible(t, tree, e, u, v, nhs);
    RelaxSupported(t, tree, settled, u, v, nhs);
    if PositiveCosts(t) { RelaxSolves(t, tree, e, u, v, nhs); }
    var e' := e + {(u, v)};
    assert Expanding(Relaxed(tree, v, d, nhs), settled, e', u, todo - {v});
  }

  /** The expanded node, unless it is ourselves, keeps its next hops even over a free link to itself. */
  lemma StaysPut(tree: Tree, u: SystemID, v: SystemID, d: Metric, nhs: seq<NextHop>)
    requires u in tree && tree[u].distance <= d && nhs == tree[u].nextHops
    ensures Relaxed(tree, v, d, nhs)[u] == tree[u]
  {
    NothingNew(nhs, nhs);
  }

  lemma {:induction false} NothingNew(a: seq<NextHop>, b: seq<NextHop>)
    requires Ids(b) <= Ids(a)
    ensures Merged(a, b) == a
  {
    if b != [] {
      var rest := b[..|b| - 1];
      assert b == rest + [b[|b| - 1]];
      assert b[|b| - 1].id in Ids(b);
      assert Ids(rest) <= Ids(b);
      NothingNew(a, rest);
    }
  }

  /** A neighbour that is no admissible link is skipped. */
  lemma SkipStep(t: Topo, tree: Tree, settled: set<SystemID>, e: Links, items: multiset<PqItem>,
                 u: SystemID, v: SystemID, todo: set<SystemID>)
    requires Searching(t, tree, settled, e, items, u, todo) && !t.Edge(u, v)
    ensures Searching(t, tree, settled, e, items, u, todo - {v})
  {
    if todo - {v} != {} {
      assert Expanding(tree, settled, e, u, todo - {v});
    }
  }

  /** What holds of a tree on every input, whatever the costs. */
  ghost predicate Recorded(t: Topo, hops: set<NextHop>, tree: Tree) {
    && t.self in tree
    && (forall v :: v in tree ==> v == t.self || NodeTIEID(NORTH, v) in t.entries)
    && (forall v :: v in tree ==> MIN32 <= tree[v].distance <= MAX32)
    && (forall v, nh :: v in tree && nh in tree[v].nextHops ==> nh in hops)
  }

  /** What the tree promises, depending on the costs. */
  ghost predicate Right(t: Topo, tree: Tree) {
    (Summable(t) ==> Sound(t, tree)) && (Measurable(t) ==> Exact(t, tree))
  }

  lemma ExactIsRight(t: Topo, tree: Tree)
    requires Exact(t, tree)
    ensures Right(t, tree)
  {
    hide Sound, Summable, Measurable;
  }

  lemma InUniverse(t: Topo, v: SystemID)
    requires v == t.self || NodeTIEID(NORTH, v) in t.entries
    ensures v in Universe(t)
  {
    if v != t.self {
      assert NodeTIEID(NORTH, v).originator == v;
    }
  }

  // The first-hop or inherited next hops over which v is reached from current, if any.
  function HopsVia(systemID: SystemID, byNeighbor: map<SystemID, AdjacencyInfo>, current: SystemID, node: SpfNode,
                   v: SystemID): Option<seq<NextHop>> {
    if current != systemID then Some(node.nextHops)
    else if v in byNeighbor then Some([NextHop(v, byNeighbor[v].neighborAddr, byNeighbor[v].ifName)])
    else None
  }

  /** Records, improves or merges one node, pushing it when its distance fell. */
  method Relax(pq: PriorityQueue, tree0: Tree, v: SystemID, newDist: Metric, nhs: seq<NextHop>) returns (tree: Tree)
    modifies pq
    ensures tree == Relaxed(tree0, v, newDist, nhs)
    ensures multiset(pq.items) == Pushed(tree0, multiset(old(pq.items)), v, newDist)
    ensures v in tree0 && tree0[v].distance <= newDist ==> pq.items == old(pq.items)
    ensures forall x :: x in pq.items ==> x in old(pq.items) || x.id == v
  {
    tree := tree0;
    if v !in tree || newDist < tree[v].distance {
      tree := tree[v := SpfNode(newDist, nhs)];
      pq.Push(PqItem(v, newDist));
    } else if newDist == tree[v].distance {
      var merged := MergeNextHops(tree[v].nextHops, nhs);
      tree := tree[v := tree[v].(nextHops := merged)];
    }
  }

  /** The loop over the neighbours current lists in its South Node TIE. */
  method Expand(systemID: SystemID, entries: map<TIEID, Entry>, byNeighbor: map<SystemID, AdjacencyInfo>,
                pq: PriorityQueue, tree0: Tree, current: SystemID, currentDist: Metric, south: NodeElement,
                ghost t: Topo, ghost hops: set<NextHop>, ghost good: bool, ghost settled: set<SystemID>,
                  ghost e0: Links)
    returns (tree: Tree, ghost e: Links)
    requires t == Topo(systemID, byNeighbor.Keys, entries) && Recorded(t, hops, tree0) && current in tree0
    requires forall v :: v in byNeighbor ==> NextHop(v, byNeighbor[v].neighborAddr, byNeighbor[v].ifName) in hops
    requires FindNodeTIE(entries, SOUTH, current) == Some(south) && !Overloaded(south)
    requires forall x :: x in pq.items ==> x.id in tree0
    requires good ==> Summable(t) && currentDist == tree0[current].distance && current in settled
                      && Searching(t, tree0, settled, e0, multiset(pq.items), current, south.neighbors.Keys)
    modifies pq
    ensures Recorded(t, hops, tree) && tree0.Keys <= tree.Keys
    ensures forall x :: x in pq.items ==> x.id in tree
    ensures good ==> Searching(t, tree, settled, e, multiset(pq.items), current, {})
    ensures Potential(Universe(t), tree) < Potential(Universe(t), tree0) ||
            (Potential(Universe(t), tree) == Potential(Universe(t), tree0) && pq.items == old(pq.items))
  {
    hide Searching, Summable, Merged, Universe, FindNodeTIE, Pushed, Recorded, Relaxed;
    tree, e := tree0, e0;
    var node := tree0[current];
    var todo := south.neighbors.Keys;
    while todo != {}
      invariant todo <= south.neighbors.Keys
      invariant Recorded(t, hops, tree) && tree0.Keys <= tree.Keys
      invariant forall x :: x in pq.items ==> x.id in tree
      invariant good ==> Searching(t, tree, settled, e, multiset(pq.items), current, todo)
      invariant good ==>
          current in tree && tree[current].distance == node.distance && (current != systemID ==> tree[current] == node)
      invariant Potential(Universe(t), tree) < Potential(Universe(t), tree0) ||
                (Potential(Universe(t), tree) == Potential(Universe(t), tree0) && pq.items == old(pq.items))
    {
      ghost var some := Pick(todo);
      var v :| v in todo;
      var neighbor, north := south.neighbors[v], FindNodeTIE(entries, NORTH, v);
      if neighbor.level >= south.level || north.None? || current !in north.value.neighbors {
        if good { SkipStep(t, tree, settled, e, multiset(pq.items), current, v, todo); }
      } else {
        var newDist := Wrap32(currentDist + LinkCost(neighbor));
        var nhs := HopsVia(systemID, byNeighbor, current, node, v);
        if nhs.None? {
          if good { SkipStep(t, tree, settled, e, multiset(pq.items), current, v, todo); }
        } else {
          assert t.Edge(current, v);
          Recordable(t, v);
          if good {
            GoodStep(t, tree, settled, e, multiset(pq.items), current, v, nhs.value, todo);
            e := e + {(current, v)};
          }
          HopsKnown(t, hops, tree0, byNeighbor, current, v);
          RelaxRecorded(t, hops, tree, v, newDist, nhs.value);
          RelaxPotential(Universe(t), tree, v, newDist, nhs.value);
          tree := Relax(pq, tree, v, newDist, nhs.value);
        }
      }
      todo := todo - {v};
    }
  }

  lemma RelaxRecorded(t: Topo, hops: set<NextHop>, tree: Tree, v: SystemID, newDist: Metric, nhs: seq<NextHop>)
    requires Recorded(t, hops, tree) && NodeTIEID(NORTH, v) in t.entries && MIN32 <= newDist <= MAX32
    requires forall nh :: nh in nhs ==> nh in hops
    ensures Recorded(t, hops, Relaxed(tree, v, newDist, nhs))
    ensures Relaxed(tree, v, newDist, nhs).Keys == tree.Keys + {v}
    ensures v in tree ==> MIN32 <= tree[v].distance <= MAX32
    ensures v in tree && tree[v].distance < newDist ==> Relaxed(tree, v, newDist, nhs) == tree
  {
    hide Merged;
  }

  lemma HopsKnown(t: Topo, hops: set<NextHop>, tree: Tree, byNeighbor: map<SystemID, AdjacencyInfo>, u: SystemID,
                  v: SystemID)
    requires Recorded(t, hops, tree) && u in tree
    requires forall n :: n in byNeighbor ==> NextHop(n, byNeighbor[n].neighborAddr, byNeighbor[n].ifName) in hops
    ensures var nhs := HopsVia(t.self, byNeighbor, u, tree[u], v); nhs.Some? ==> forall nh :: nh in nhs.value ==>
              nh in hops
  {
  }

  lemma Recordable(t: Topo, v: SystemID)
    requires FindNodeTIE(t.entries, NORTH, v).Some?
    ensures NodeTIEID(NORTH, v) in t.entries && v in Universe(t)
  {
    InUniverse(t, v);
  }

  lemma AtExpanded(t: Topo, tree: Tree, settled: set<SystemID>, e: Links, items: multiset<PqItem>, u: SystemID,
                   todo: set<SystemID>)
    requires Searching(t, tree, settled, e, items, u, todo) && u in settled
    ensures u in tree && Feasible(t, tree, e) && Backed(t, settled, u, tree[u])
    ensures u != t.self ==> tree[u].nextHops != []
  {
    hide Solves, Feasible, Waiting, NearFirst, Expanding;
  }

  lemma GoodStep(t: Topo, tree: Tree, settled: set<SystemID>, e: Links, items: multiset<PqItem>,
                 u: SystemID, v: SystemID, nhs: seq<NextHop>, todo: set<SystemID>)
    requires Summable(t) && u in settled
    requires Searching(t, tree, settled, e, items, u, todo) && v in todo && t.Edge(u, v)
    requires if u == t.self then nhs != [] && Ids(nhs) == {v} else u in tree && nhs == tree[u].nextHops
    ensures u in tree
    ensures var d := tree[u].distance + t.Cost(u, v);
            && Wrap32(d) == d
            && Searching(t, Relaxed(tree, v, d, nhs), settled, e + {(u, v)}, Pushed(tree, items, v, d), u, todo - {v})
            && Relaxed(tree, v, d, nhs)[u].distance == tree[u].distance
            && (u != t.self ==> Relaxed(tree, v, d, nhs)[u] == tree[u])
  {
    hide Topo.Edge, Topo.Cost, Searching, Feasible, Relaxed, Pushed, Backed;
    AtExpanded(t, tree, settled, e, items, u, todo);
    SumOfPath(t, settled, u, tree[u], v);
    NonNegative(t, tree, e, u, v);
    RelaxStep(t, tree, settled, e, items, u, v, nhs, todo);
    if u != t.self { StaysPut(tree, u, v, tree[u].distance + t.Cost(u, v), nhs); }
  }

  function TopoOf(systemID: SystemID, adjacencies: map<string, AdjacencyInfo>, entries: map<TIEID, Entry>): Topo {
    Topo(systemID, Adjacent(adjacencies), entries)
  }

  /**
   * The search itself: it terminates on every input. When no cost is negative and all sums fit, nodes, distances and
   * next hops are right; when no link is free either, no next hop is missing.
   */
  method ShortestPathTree(systemID: SystemID, adjacencies: map<string, AdjacencyInfo>, entries: map<TIEID, Entry>)
    returns (tree: Tree)
    ensures Recorded(TopoOf(systemID, adjacencies, entries), DirectHops(adjacencies), tree)
    ensures Right(TopoOf(systemID, adjacencies, entries), tree)
  {
    hide Searching, Summable, Universe, FindNodeTIE, Right;
    ghost var t, hops := TopoOf(systemID, adjacencies, entries), DirectHops(adjacencies);
    ghost var good := Summable(t);
    var byNeighbor := AdjacencyLookup(adjacencies);
    forall v | v in byNeighbor ensures NextHop(v, byNeighbor[v].neighborAddr, byNeighbor[v].ifName) in hops {
      var k :| k in adjacencies && adjacencies[k] == byNeighbor[v];
      assert NextHopOf(adjacencies[k]) in hops;
    }
    tree := map[systemID := SpfNode(0, [])];
    var pq := new PriorityQueue();
    pq.Push(PqItem(systemID, 0));
    ghost var settled: set<SystemID>, e: Links, cur := {}, {}, systemID;
    assert pq.items == [PqItem(systemID, 0)];
    if good { Start(t); }
    while pq.items != []
      invariant fresh(pq)
      invariant Recorded(t, hops, tree)
      invariant forall x :: x in pq.items ==> x.id in tree
      invariant good ==> Searching(t, tree, settled, e, multiset(pq.items), cur, {})
      decreases Potential(Universe(t), tree), |pq.items|
    {
      ghost var items := multiset(pq.items);
      label popping:
      var item := pq.Pop();
      assert forall x :: x in pq.items ==> x in multiset(pq.items);
      assert forall x :: x in items ==> x in old@popping(pq.items);
      var node := tree[item.id];
      var south := FindNodeTIE(entries, SOUTH, item.id);
      if item.distance > node.distance {
        if good { Discard(t, tree, settled, e, items, item, cur); }
      } else if south.None? || Overloaded(south.value) {
        if good {
          Terminal(t, item.id);
          SettleItem(t, tree, settled, e, items, item, cur, {});
          settled, cur := settled + {item.id}, item.id;
        }
      } else {
        if good {
          Listed(t, item.id);
          SettleItem(t, tree, settled, e, items, item, cur, south.value.neighbors.Keys);
          settled, cur := settled + {item.id}, item.id;
        }
        tree, e := Expand(systemID, entries, byNeighbor, pq, tree, item.id, item.distance, south.value, t, hops, good,
          settled, e);
      }
    }
    if good { Finished(t, tree, settled, e, cur); } else { Unsummable(t, tree); }
  }

  lemma Terminal(t: Topo, u: SystemID)
    requires var south := FindNodeTIE(t.entries, SOUTH, u); south.None? || Overloaded(south.value)
    ensures forall v :: !t.Edge(u, v)
  {
  }

  lemma Listed(t: Topo, u: SystemID)
    ensures forall v :: t.Edge(u, v) ==>
              FindNodeTIE(t.entries, SOUTH, u).Some? && v in FindNodeTIE(t.entries, SOUTH, u).value.neighbors
  {
  }

  lemma SettleItem(t: Topo, tree: Tree, settled: set<SystemID>, e: Links, items: multiset<PqItem>,
                   item: PqItem, cur: SystemID, todo: set<SystemID>)
    requires Searching(t, tree, settled, e, items, cur, {})
    requires item in items && forall x :: x in items ==> item.distance <= x.distance
    requires item.id in tree && item.distance <= tree[item.id].distance
    requires forall v :: t.Edge(item.id, v) ==> v in todo
    ensures Searching(t, tree, settled + {item.id}, e, items - multiset{item}, item.id, todo)
    ensures item.distance == tree[item.id].distance
  {
    Settle(t, tree, settled, e, items, item, cur, todo);
  }

  lemma Finished(t: Topo, tree: Tree, settled: set<SystemID>, e: Links, cur: SystemID)
    requires Summable(t) && Searching(t, tree, settled, e, multiset{}, cur, {})
    ensures Right(t, tree)
  {
    hide Solves, Feasible, Supported, Topo.Edge, Topo.Cost, Sound, Exact;
    assert forall v :: v in tree ==> v in settled;
    assert Covers(t, tree, e);
    SupportedIsSound(t, tree, e, settled);
    if PositiveCosts(t) { SolvedIsExact(t, tree, e); }
  }

  lemma Unsummable(t: Topo, tree: Tree)
    requires !Summable(t)
    ensures Right(t, tree)
  {
    hide Topo.Edge, Topo.Cost;
  }

  // ---- Prefix attachment ----

  /** The offers of the North Prefix TIEs of the given recorded nodes. */
  ghost function NodeOffers(entries: map<TIEID, Entry>, tree: Tree, v: SystemID): set<Offer>
    requires v in tree
  {
    ListOffers(PrefixLists(entries, NORTH, v, PREFIX_TIE), tree[v].distance, ROUTE_NORTH_PREFIX, tree[v].nextHops)
  }

  ghost function OffersFrom(entries: map<TIEID, Entry>, tree: Tree, nodes: set<SystemID>): set<Offer> {
    set v, o | v in nodes && v in tree && tree[v].nextHops != [] && o in NodeOffers(entries, tree, v) :: o
  }

  lemma OneMoreNode(entries: map<TIEID, Entry>, tree: Tree, nodes: set<SystemID>, v: SystemID)
    requires v in tree
    ensures OffersFrom(entries, tree, nodes + {v}) ==
            OffersFrom(entries, tree, nodes) + if tree[v].nextHops != [] then NodeOffers(entries, tree, v) else {}
  {
    hide ListOffers;
  }

  /** S-SPF: the best table of the prefixes attached to the nodes of an exact tree. */
  method ComputeSouthbound(systemID: SystemID, adjacencies: map<string, AdjacencyInfo>, entries: map<TIEID, Entry>)
    returns (rib: Rib, ghost tree: Tree)
    ensures fresh(rib) && rib.Valid() && fresh(rib.routes.Values)
    ensures SouthboundResult(TopoOf(systemID, adjacencies, entries), DirectHops(adjacencies), tree, rib.View())
  {
    hide Right, BestTable, ListOffers;
    rib := new Rib();
    var found := ShortestPathTree(systemID, adjacencies, entries);
    tree := found;
    var todo := found.Keys - {systemID};
    EmptyTable();
    assert OffersFrom(entries, tree, {}) == {} && tree.Keys - {systemID} - todo == {};
    while todo != {}
      invariant todo <= tree.Keys - {systemID}
      invariant rib.Valid() && fresh(rib) && fresh(rib.routes.Values)
      invariant BestTable(rib.View(), OffersFrom(entries, tree, tree.Keys - {systemID} - todo))
    {
      ghost var some := Pick(todo);
      var v :| v in todo;
      ghost var done := tree.Keys - {systemID} - todo;
      if found[v].nextHops != [] {
        var lists := FindPrefixTIEs(entries, NORTH, v, PREFIX_TIE);
        AttachPrefixes(rib, lists, found[v].distance, ROUTE_NORTH_PREFIX, found[v].nextHops,
                       OffersFrom(entries, tree, done));
      }
      OneMoreNode(entries, tree, done, v);
      assert OffersFrom(entries, tree, done) + {} == OffersFrom(entries, tree, done);
      todo := todo - {v};
      assert tree.Keys - {systemID} - todo == done + {v};
    }
    assert tree.Keys - {systemID} - todo == tree.Keys - {systemID};
  }

  /** What S-SPF promises of its search tree and of the table it fills. */
  ghost predicate SouthboundResult(t: Topo, hops: set<NextHop>, tree: Tree, table: Table) {
    && Recorded(t, hops, tree)
    && Right(t, tree)
    && BestTable(table, OffersFrom(t.entries, tree, tree.Keys - {t.self}))
  }

  // ---- What the table means in terms of paths ----

  /** v lies at distance d on our shortest paths and attaches prefix p with the given metric. */
  ghost predicate Attaches(t: Topo, v: SystemID, d: Metric, p: string, metric: Metric) {
    && v != t.self && p != ""
    && (exists path :: Shortest(t, path, v) && PathCost(t, path) == d)
    && exists pt, pe :: pt in PrefixLists(t.entries, NORTH, v, PREFIX_TIE) && pe in pt
                        && PrefixToString(pe.prefix) == p && metric == Wrap32(pe.metric + d)
  }

  lemma AttachesIntro(t: Topo, v: SystemID, path: seq<SystemID>, pt: seq<PrefixEntry>, pe: PrefixEntry)
    requires v != t.self && Shortest(t, path, v) && PrefixToString(pe.prefix) != ""
    requires pt in PrefixLists(t.entries, NORTH, v, PREFIX_TIE) && pe in pt
    ensures Attaches(t, v, PathCost(t, path), PrefixToString(pe.prefix), Wrap32(pe.metric + PathCost(t, path)))
  {
    hide PrefixToString, Shortest, PathCost;
  }

  /**
   * Where sums fit and no cost is negative the table holds a prefix exactly when a reachable node attaches it, at the
   * least total metric, through first hops of the shortest paths to nodes achieving it: all of them if no link is free.
   */
  lemma SouthRoutes(t: Topo, hops: set<NextHop>, tree: Tree, table: Table)
    requires SouthboundResult(t, hops, tree, table) && Summable(t)
    ensures forall p :: p in table <==> exists v, d, m :: Attaches(t, v, d, p, m)
    ensures forall v, d, p, m :: Attaches(t, v, d, p, m) ==> p in table && table[p].metric <= m
    ensures forall p :: p in table ==>
              table[p].routeType == ROUTE_NORTH_PREFIX && exists v, d :: Attaches(t, v, d, p, table[p].metric)
    ensures forall p, h :: p in table && h in Ids(table[p].nextHops) ==>
              exists v, d :: Attaches(t, v, d, p, table[p].metric) && FirstHop(t, v, h)
    ensures Measurable(t) ==>
              forall p, v, d, h :: p in table && Attaches(t, v, d, p, table[p].metric) && FirstHop(t, v, h) ==>
              h in Ids(table[p].nextHops)
  {
    hide Attaches, OffersFrom, Summable, Measurable, Sound, Exact;
    var offers := OffersFrom(t.entries, tree, tree.Keys - {t.self});
    forall v, d, p, m | Attaches(t, v, d, p, m)
      ensures p in table && table[p].metric <= m && table[p].routeType == ROUTE_NORTH_PREFIX
    {
      var o := OfferOf(t, tree, v, d, p, m);
      assert Offered(table[p], offers, p);
      var o' :| o' in offers && o'.prefix == p && SameRank(o'.route, table[p]);
      var v', d' := NodeOf(t, tree, o');
    }
    forall p | p in table
      ensures table[p].routeType == ROUTE_NORTH_PREFIX && exists v, d :: Attaches(t, v, d, p, table[p].metric)
    {
      var o :| o in offers && o.prefix == p && SameRank(o.route, table[p]);
      var v, d := NodeOf(t, tree, o);
    }
    forall p, h | p in table && h in Ids(table[p].nextHops)
      ensures exists v, d :: Attaches(t, v, d, p, table[p].metric) && FirstHop(t, v, h)
    {
      assert Offered(table[p], offers, p);
      assert h in IdsAt(offers, p, table[p]);
      var o, nh :| o in offers && o.prefix == p && SameRank(o.route, table[p]) && nh in o.route.nextHops && nh.id == h;
      var v, d := NodeOf(t, tree, o);
      HopsAreFirst(t, tree, v, h);
    }
    if Measurable(t) {
      forall p, v, d, h | p in table && Attaches(t, v, d, p, table[p].metric) && FirstHop(t, v, h)
        ensures h in Ids(table[p].nextHops)
      {
        var o := OfferOf(t, tree, v, d, p, table[p].metric);
        FirstAreHops(t, tree, v, h);
        assert Offered(table[p], offers, p);
        assert h in IdsAt(offers, p, table[p]);
      }
    }
  }

  lemma HopsAreFirst(t: Topo, tree: Tree, v: SystemID, h: SystemID)
    requires Sound(t, tree) && v in tree && v != t.self && h in Ids(tree[v].nextHops)
    ensures FirstHop(t, v, h)
  {
    hide FirstHop;
  }

  lemma FirstAreHops(t: Topo, tree: Tree, v: SystemID, h: SystemID)
    requires Exact(t, tree) && v in tree && v != t.self && FirstHop(t, v, h)
    ensures h in Ids(tree[v].nextHops)
  {
    hide FirstHop, Sound;
  }

  lemma OfferOf(t: Topo, tree: Tree, v: SystemID, d: Metric, p: string, m: Metric) returns (o: Offer)
    requires Sound(t, tree) && Attaches(t, v, d, p, m)
    ensures v in tree && v != t.self && d == tree[v].distance
    ensures o == Offer(p, RouteVal(m, ROUTE_NORTH_PREFIX, tree[v].nextHops))
    ensures o in OffersFrom(t.entries, tree, tree.Keys - {t.self})
  {
    hide PrefixToString, PathCost, Topo.Edge, Topo.Cost, FirstHop;
    var path :| Shortest(t, path, v) && PathCost(t, path) == d;
    var path' :| Shortest(t, path', v) && PathCost(t, path') == tree[v].distance;
    var pt, pe :| pt in PrefixLists(t.entries, NORTH, v, PREFIX_TIE) && pe in pt
                  && PrefixToString(pe.prefix) == p && m == Wrap32(pe.metric + d);
    o := EntryOffer(pe, d, ROUTE_NORTH_PREFIX, tree[v].nextHops);
    assert o in NodeOffers(t.entries, tree, v);
  }

  lemma NodeOf(t: Topo, tree: Tree, o: Offer) returns (v: SystemID, d: Metric)
    requires Sound(t, tree) && o in OffersFrom(t.entries, tree, tree.Keys - {t.self})
    ensures v in tree && v != t.self && o.route.nextHops == tree[v].nextHops && o.route.routeType == ROUTE_NORTH_PREFIX
    ensures Attaches(t, v, d, o.prefix, o.route.metric)
  {
    hide PrefixToString, PathCost, Topo.Edge, Topo.Cost, FirstHop;
    v :| v in tree && v != t.self && o in NodeOffers(t.entries, tree, v);
    d := tree[v].distance;
    assert NodeOffers(t.entries, tree, v) ==
             ListOffers(PrefixLists(t.entries, NORTH, v, PREFIX_TIE), d, ROUTE_NORTH_PREFIX, tree[v].nextHops);
    var pt, pe := ListSource(o, PrefixLists(t.entries, NORTH, v, PREFIX_TIE), d, ROUTE_NORTH_PREFIX, tree[v].nextHops);
  }
}
