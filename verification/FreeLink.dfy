/** Why exactness asks links to cost something: with a free link the search may end without a next hop. */
module FreeLink {
  import opened RiftTypes
  import opened Routes
  import opened Graph
  import opened Southbound

  // ---- Runs of the search ----

  datatype Search = Search(tree: Tree, items: multiset<PqItem>)

  /** The links of u relaxed in the given order, as the body of the search loop does. */
  function RelaxAll(t: Topo, hops: map<SystemID, seq<NextHop>>, u: SystemID, order: seq<SystemID>, s: Search): Search
    requires u in s.tree && forall v :: v in order ==> t.Edge(u, v) && v in hops
  {
    if order == [] then s else
      var r, v := RelaxAll(t, hops, u, order[..|order| - 1], s), order[|order| - 1];
      var d := Wrap32(s.tree[u].distance + t.Cost(u, v));
      var nhs := if u == t.self then hops[v] else s.tree[u].nextHops;
      Search(Relaxed(r.tree, v, d, nhs), Pushed(r.tree, r.items, v, d))
  }

  /** One turn of the loop: a least item is popped and, unless stale, its admissible links are relaxed in some order. */
  ghost predicate Turn(t: Topo, hops: map<SystemID, seq<NextHop>>, s: Search, item: PqItem, order: seq<SystemID>,
                       s': Search) {
    && item in s.items && (forall x :: x in s.items ==> item.distance <= x.distance)
    && item.id in s.tree && item.distance == s.tree[item.id].distance
    && (forall v :: v in order <==> t.Edge(item.id, v))
    && (forall v :: v in order ==> v in hops)
    && s' == RelaxAll(t, hops, item.id, order, Search(s.tree, s.items - multiset{item}))
  }

  // ---- The fabric ----

  // Node 4 computes. It reaches 3 and 2 at cost 1, 3 reaches 2 for nothing, and 2 reaches 1 at cost 1.
  // Every node is at the level of its own ID, so each link goes to a strictly lower level.
  function Down(u: SystemID): map<SystemID, NodeNeighbor> {
    if u == 4 then map[3 := To(3, 1), 2 := To(2, 1)]
    else if u == 3 then map[2 := To(2, 0)]
    else if u == 2 then map[1 := To(1, 1)]
    else map[]
  }

  function Up(v: SystemID): map<SystemID, NodeNeighbor> {
    if v == 3 then map[4 := To(4, 1)]
    else if v == 2 then map[4 := To(4, 1), 3 := To(3, 0)]
    else if v == 1 then map[2 := To(2, 1)]
    else map[]
  }

  function To(level: Level, cost: Metric): NodeNeighbor { NodeNeighbor(level, Some(cost), 0, 0) }

  function NodeEntry(id: TIEID): Entry {
    var nbrs := if id.direction == SOUTH then Down(id.originator) else Up(id.originator);
    var el := Element(Some(NodeElement(id.originator, nbrs, None)), None, None);
    Entry(TIEPacket(TIEHeader(id, 1, None), el), DEFAULT_LIFETIME, id.originator == 4)
  }

  function Database(): map<TIEID, Entry> {
    map id | id in (set x | x in {1, 2, 3, 4} :: NodeTIEID(SOUTH, x)) +
      (set x | x in {1, 2, 3, 4} :: NodeTIEID(NORTH, x)) :: NodeEntry(id)
  }

  function Four(): Topo { Topo(4, {2, 3}, Database()) }

  function Hop(v: SystemID): NextHop { NextHop(v, 0, "") }

  const HOPS: map<SystemID, seq<NextHop>> := map v | v in {1, 2, 3} :: [Hop(v)]

  lemma Found(x: SystemID)
    ensures x in {1, 2, 3, 4} ==> FindNodeTIE(Database(), SOUTH, x) == Some(NodeElement(x, Down(x), None))
    ensures x in {1, 2, 3, 4} ==> FindNodeTIE(Database(), NORTH, x) == Some(NodeElement(x, Up(x), None))
    ensures x !in {1, 2, 3, 4} ==> FindNodeTIE(Database(), SOUTH, x) == FindNodeTIE(Database(), NORTH, x) == None
  {
    hide Down, Up;
  }

  lemma FourEdges()
    ensures forall u, v :: Four().Edge(u, v) <==> (u, v) in {(4, 3), (4, 2), (3, 2), (2, 1)}
    ensures Four().Edge(4, 3) && Four().Cost(4, 3) == 1 && Four().Edge(4, 2) && Four().Cost(4, 2) == 1
    ensures Four().Edge(3, 2) && Four().Cost(3, 2) == 0 && Four().Edge(2, 1) && Four().Cost(2, 1) == 1
  {
    hide Database, FindNodeTIE;
    forall x
      ensures x in {1, 2, 3, 4} ==> FindNodeTIE(Database(), SOUTH, x) == Some(NodeElement(x, Down(x), None))
    {
      Found(x);
    }
    forall u, v ensures Four().Edge(u, v) <==> (u, v) in {(4, 3), (4, 2), (3, 2), (2, 1)} {
      Found(u);
      Found(v);
    }
    Found(4);
    Found(3);
    Found(2);
  }

  // ---- The run ----

  function First(): Search { Search(map[4 := SpfNode(0, [])], multiset{PqItem(4, 0)}) }

  function Second(): Search {
    Search(map[4 := SpfNode(0, []), 3 := SpfNode(1, [Hop(3)]), 2 := SpfNode(1, [Hop(2)])],
      multiset{PqItem(3, 1), PqItem(2, 1)})
  }

  function Third(): Search {
    Search(Second().tree[1 := SpfNode(2, [Hop(2)])], multiset{PqItem(3, 1), PqItem(1, 2)})
  }

  function Fourth(): Search {
    Search(Third().tree[2 := SpfNode(1, [Hop(2), Hop(3)])], multiset{PqItem(1, 2)})
  }

  function Last(): Search { Search(Fourth().tree, multiset{}) }

  lemma OneMore(hops: map<SystemID, seq<NextHop>>, u: SystemID, order: seq<SystemID>, v: SystemID, s: Search)
    requires u in s.tree && forall x :: x in order + [v] ==> Four().Edge(u, x) && x in hops
    ensures forall x :: x in order ==> x in order + [v]
    ensures var r, d := RelaxAll(Four(), hops, u, order, s), Wrap32(s.tree[u].distance + Four().Cost(u, v));
            var nhs := if u == 4 then hops[v] else s.tree[u].nextHops;
            RelaxAll(Four(), hops, u, order + [v], s) == Search(Relaxed(r.tree, v, d, nhs),
              Pushed(r.tree, r.items, v, d))
  {
    hide Database, Topo.Edge, Topo.Cost, Relaxed, Pushed;
    assert (order + [v])[..|order|] == order;
  }

  lemma FirstTurn()
    ensures Turn(Four(), HOPS, First(), PqItem(4, 0), [2, 3], Second())
  {
    hide Database, Topo.Edge, Topo.Cost, RelaxAll;
    FourEdges();
    var s := Search(First().tree, multiset{});
    Nothing(4, s);
    OneMore(HOPS, 4, [], 2, s);
    OneMore(HOPS, 4, [2], 3, s);
    assert [] + [2] == [2] && [2] + [3] == [2, 3];
    assert First().items - multiset{PqItem(4, 0)} == s.items;
  }

  lemma Nothing(u: SystemID, s: Search)
    requires u in s.tree
    ensures RelaxAll(Four(), HOPS, u, [], s) == s
  {
    hide Database;
  }

  lemma SecondTurn()
    ensures Turn(Four(), HOPS, Second(), PqItem(2, 1), [1], Third())
  {
    hide Database, Topo.Edge, Topo.Cost, RelaxAll;
    FourEdges();
    var s := Search(Second().tree, multiset{PqItem(3, 1)});
    Nothing(2, s);
    OneMore(HOPS, 2, [], 1, s);
    assert [] + [1] == [1];
    assert Second().items - multiset{PqItem(2, 1)} == s.items;
  }

  lemma ThirdTurn()
    ensures Turn(Four(), HOPS, Third(), PqItem(3, 1), [2], Fourth())
  {
    hide Database, Topo.Edge, Topo.Cost, RelaxAll;
    FourEdges();
    var s := Search(Third().tree, multiset{PqItem(1, 2)});
    Nothing(3, s);
    OneMore(HOPS, 3, [], 2, s);
    assert [] + [2] == [2];
    assert Third().items - multiset{PqItem(3, 1)} == s.items;
    assert [Hop(3)][..0] == [];
    assert Merged([Hop(2)], [Hop(3)]) == [Hop(2), Hop(3)];
  }

  lemma FourthTurn()
    ensures Turn(Four(), HOPS, Fourth(), PqItem(1, 2), [], Last())
  {
    hide Database, Topo.Edge, Topo.Cost, RelaxAll;
    FourEdges();
    Nothing(1, Last());
    assert Fourth().items - multiset{PqItem(1, 2)} == multiset{};
  }

  /** Over the free link node 1 is as near through 3 as through 2. */
  lemma ThroughThree()
    ensures FirstHop(Four(), 1, 3)
  {
    FourEdges();
    hide Database, Topo.Edge, Topo.Cost;
    var t := Four();
    Extend(t, [4], 4, 3);
    Extend(t, [4] + [3], 3, 2);
    Extend(t, [4] + [3] + [2], 2, 1);
    var p := [4] + [3] + [2] + [1];
    assert p[1] == 3 && PathCost(t, p) == 2;
    forall q | PathTo(t, q, 1) ensures 2 <= PathCost(t, q) { AtLeastTwo(q); }
    assert Shortest(t, p, 1);
  }

  lemma AtLeastOne(q: seq<SystemID>)
    requires IsPath(Four(), q)
    ensures q[|q| - 1] != 4 ==> 1 <= PathCost(Four(), q)
    ensures 0 <= PathCost(Four(), q)
  {
    FourEdges();
    hide Database, Topo.Edge, Topo.Cost;
    if |q| > 1 {
      assert Four().Edge(q[|q| - 2], q[|q| - 1]);
      AtLeastOne(q[..|q| - 1]);
    }
  }

  lemma AtLeastTwo(q: seq<SystemID>)
    requires PathTo(Four(), q, 1)
    ensures 2 <= PathCost(Four(), q)
  {
    FourEdges();
    hide Database, Topo.Edge, Topo.Cost;
    assert |q| > 1;
    assert Four().Edge(q[|q| - 2], 1);
    AtLeastOne(q[..|q| - 1]);
  }

  /**
   * No cost of Four is negative and all sums fit; one link is free. The search may pop 4, 2, 3, 1:
   * node 1 then inherits from 2 before 2 gains the next hop 3, and the tree it ends with is not exact.
   */
  lemma FreeLinkLosesHop()
    ensures Four().Edge(3, 2) && Four().Cost(3, 2) == 0 && Summable(Four())
    ensures Turn(Four(), HOPS, First(), PqItem(4, 0), [2, 3], Second())
    ensures Turn(Four(), HOPS, Second(), PqItem(2, 1), [1], Third())
    ensures Turn(Four(), HOPS, Third(), PqItem(3, 1), [2], Fourth())
    ensures Turn(Four(), HOPS, Fourth(), PqItem(1, 2), [], Last())
    ensures Last().items == multiset{} && !Exact(Four(), Last().tree)
  {
    hide Four, Turn, Exact, Summable;
    FourEdges();
    FirstTurn();
    SecondTurn();
    ThirdTurn();
    FourthTurn();
    NotExact();
    AllFit();
  }

  lemma NotExact()
    ensures !Exact(Four(), Last().tree)
  {
    hide Database, FirstHop, PathTo, Shortest;
    ThroughThree();
    assert 3 !in Ids(Last().tree[1].nextHops);
  }

  lemma AllFit()
    ensures Summable(Four())
  {
    FourEdges();
    hide Database, PathCost, IsPath;
    forall p | IsPath(Four(), p) ensures PathCost(Four(), p) <= MAX32 { AtMost(p); }
  }

  /** A path falls a level at each link, and each link costs at most 1. */
  lemma AtMost(p: seq<SystemID>)
    requires IsPath(Four(), p)
    ensures p[|p| - 1] in {1, 2, 3, 4} && PathCost(Four(), p) <= 4 - p[|p| - 1]
  {
    FourEdges();
    hide Database, Topo.Edge, Topo.Cost;
    if |p| > 1 {
      assert Four().Edge(p[|p| - 2], p[|p| - 1]);
      AtMost(p[..|p| - 1]);
    }
  }
}
