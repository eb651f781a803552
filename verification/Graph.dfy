/** The admissible topology of the southbound computation and its shortest paths. */
module Graph {
  import opened RiftTypes
  import opened Routes

  // Our own ID, the neighbours we hold an adjacency with, and the database.
  datatype Topo = Topo(self: SystemID, adjacent: set<SystemID>, entries: map<TIEID, Entry>)
  {
    /** u lists v one level or more below itself and transits, v lists u back, and a first hop has an adjacency. */
    predicate Edge(u: SystemID, v: SystemID) {
      var south, north := FindNodeTIE(entries, SOUTH, u), FindNodeTIE(entries, NORTH, v);
      && south.Some? && !Overloaded(south.value)
      && v in south.value.neighbors && south.value.neighbors[v].level < south.value.level
      && north.Some? && u in north.value.neighbors
      && (u == self ==> v in adjacent)
    }

    function Cost(u: SystemID, v: SystemID): Metric
      requires Edge(u, v)
    {
      LinkCost(FindNodeTIE(entries, SOUTH, u).value.neighbors[v])
    }
  }

  datatype SpfNode = SpfNode(distance: Metric, nextHops: seq<NextHop>)
  type Tree = map<SystemID, SpfNode>

  // ---- Paths ----

  ghost predicate IsPath(t: Topo, p: seq<SystemID>) {
    |p| > 0 && p[0] == t.self && forall i :: 0 <= i < |p| - 1 ==> t.Edge(p[i], p[i + 1])
  }

  ghost predicate PathTo(t: Topo, p: seq<SystemID>, v: SystemID) {
    IsPath(t, p) && p[|p| - 1] == v
  }

  ghost function PathCost(t: Topo, p: seq<SystemID>): int
    requires IsPath(t, p)
  {
    if |p| == 1 then 0 else PathCost(t, p[..|p| - 1]) + t.Cost(p[|p| - 2], p[|p| - 1])
  }

  ghost predicate Shortest(t: Topo, p: seq<SystemID>, v: SystemID) {
    PathTo(t, p, v) && forall q :: PathTo(t, q, v) ==> PathCost(t, p) <= PathCost(t, q)
  }

  /** h is the first hop of some shortest path to v. */
  ghost predicate FirstHop(t: Topo, v: SystemID, h: SystemID) {
    exists p :: Shortest(t, p, v) && |p| > 1 && p[1] == h
  }

  ghost predicate PositiveCosts(t: Topo) {
    forall u, v :: t.Edge(u, v) ==> 1 <= t.Cost(u, v)
  }

  ghost predicate NonNegativeCosts(t: Topo) {
    forall u, v :: t.Edge(u, v) ==> 0 <= t.Cost(u, v)
  }

  /** A path through distinct nodes, except that its last node may be one of them. */
  ghost predicate NearlySimple(p: seq<SystemID>) {
    forall i, j :: 0 <= i < j < |p| - 1 ==> p[i] != p[j]
  }

  ghost predicate SumsFit(t: Topo) {
    forall p :: IsPath(t, p) && NearlySimple(p) ==> PathCost(t, p) <= MAX32
  }

  /** No link cost is negative, and no sum of link costs along a path reaches 2^31. */
  ghost predicate Summable(t: Topo) { NonNegativeCosts(t) && SumsFit(t) }

  /** Every admissible link costs at least 1, and no sum of link costs along a path reaches 2^31. */
  ghost predicate Measurable(t: Topo) { PositiveCosts(t) && SumsFit(t) }

  /**
   * The recorded nodes are exactly the reachable ones, each at its shortest distance, with next hops
   * that are first hops of its shortest paths.
   */
  ghost predicate Sound(t: Topo, tree: Tree) {
    && (forall v :: v in tree <==> exists p :: PathTo(t, p, v))
    && (forall v :: v in tree ==> exists p :: Shortest(t, p, v) && PathCost(t, p) == tree[v].distance)
    && (forall v :: v in tree && v != t.self ==> tree[v].nextHops != [])
    && (forall v, h :: v in tree && v != t.self && h in Ids(tree[v].nextHops) ==> FirstHop(t, v, h))
  }

  /** And none of these first hops is missing. */
  ghost predicate Exact(t: Topo, tree: Tree) {
    Sound(t, tree) && forall v, h :: v in tree && v != t.self && FirstHop(t, v, h) ==> h in Ids(tree[v].nextHops)
  }

  // ---- Trees that satisfy the local equations of the links in e ----

  type Links = set<(SystemID, SystemID)>

  // What a link from u contributes to the next hops of v.
  ghost function Contribution(t: Topo, tree: Tree, u: SystemID, v: SystemID): set<SystemID>
    requires u in tree
  {
    if u == t.self then {v} else Ids(tree[u].nextHops)
  }

  ghost predicate Tight(t: Topo, tree: Tree, l: (SystemID, SystemID)) {
    && t.Edge(l.0, l.1) && l.0 in tree && l.1 in tree
    && tree[l.1].distance == tree[l.0].distance + t.Cost(l.0, l.1)
  }

  ghost function Inherited(t: Topo, tree: Tree, e: Links, v: SystemID): set<SystemID> {
    set l, h | l in e && l.1 == v && Tight(t, tree, l) && h in Contribution(t, tree, l.0, v) :: h
  }

  ghost predicate Feasible(t: Topo, tree: Tree, e: Links) {
    && t.self in tree && tree[t.self].distance == 0
    && (forall v :: v in tree ==> tree[v].distance >= 0)
    && (forall l :: l in e ==> t.Edge(l.0, l.1) && l.0 in tree && l.1 in tree
                               && tree[l.1].distance <= tree[l.0].distance + t.Cost(l.0, l.1))
  }

  ghost predicate Solves(t: Topo, tree: Tree, e: Links) {
    && Feasible(t, tree, e)
    && (forall v :: v in tree && v != t.self ==>
      tree[v].nextHops != [] && Ids(tree[v].nextHops) == Inherited(t, tree, e, v))
  }

  ghost predicate Covers(t: Topo, tree: Tree, e: Links) {
    forall u, v :: u in tree && t.Edge(u, v) ==> (u, v) in e
  }

  lemma {:induction false} PathBound(t: Topo, tree: Tree, e: Links, p: seq<SystemID>)
    requires Feasible(t, tree, e) && Covers(t, tree, e) && IsPath(t, p)
    ensures p[|p| - 1] in tree && tree[p[|p| - 1]].distance <= PathCost(t, p)
  {
    if |p| > 1 {
      var q := p[..|p| - 1];
      PathBound(t, tree, e, q);
      assert t.Edge(p[|p| - 2], p[|p| - 1]);
      assert (p[|p| - 2], p[|p| - 1]) in e;
    }
  }

  lemma Extend(t: Topo, p: seq<SystemID>, u: SystemID, v: SystemID)
    requires PathTo(t, p, u) && t.Edge(u, v)
    ensures PathTo(t, p + [v], v) && PathCost(t, p + [v]) == PathCost(t, p) + t.Cost(u, v)
  {
    var q := p + [v];
    assert q[..|q| - 1] == p;
    forall i | 0 <= i < |q| - 1 ensures t.Edge(q[i], q[i + 1]) {
    }
  }

  /** p realises the recorded distance of v. */
  ghost predicate Realises(t: Topo, tree: Tree, p: seq<SystemID>, v: SystemID) {
    PathTo(t, p, v) && v in tree && PathCost(t, p) == tree[v].distance
  }

  lemma Lengthen(t: Topo, tree: Tree, p: seq<SystemID>, u: SystemID, v: SystemID)
    requires Realises(t, tree, p, u) && Tight(t, tree, (u, v))
    ensures Realises(t, tree, p + [v], v)
  {
    hide PathCost;
    Extend(t, p, u, v);
    hide IsPath, Topo.Edge, Topo.Cost;
  }

  /** A recorded next hop starts a path whose cost is the recorded distance. */
  lemma {:induction false} HopPath(t: Topo, tree: Tree, e: Links, v: SystemID, h: SystemID) returns (p: seq<SystemID>)
    requires Solves(t, tree, e) && PositiveCosts(t)
    requires v in tree && v != t.self && h in Ids(tree[v].nextHops)
    ensures Realises(t, tree, p, v) && |p| > 1 && p[1] == h
    decreases tree[v].distance
  {
    hide Ids, Topo.Edge;
    assert h in Inherited(t, tree, e, v);
    var l :| l in e && l.1 == v && Tight(t, tree, l) && h in Contribution(t, tree, l.0, v);
    assert (l.0, v) == l;
    if l.0 == t.self {
      AtSelf(t, tree, e);
      p := [t.self];
    } else {
      p := HopPath(t, tree, e, l.0, h);
    }
    Lengthen(t, tree, p, l.0, v);
    p := p + [v];
  }

  lemma AtSelf(t: Topo, tree: Tree, e: Links)
    requires Solves(t, tree, e)
    ensures Realises(t, tree, [t.self], t.self)
  {
  }

  lemma Attained(t: Topo, tree: Tree, e: Links, v: SystemID) returns (p: seq<SystemID>)
    requires Solves(t, tree, e) && PositiveCosts(t) && v in tree
    ensures Realises(t, tree, p, v)
  {
    if v == t.self {
      AtSelf(t, tree, e);
      p := [v];
    } else {
      var h := tree[v].nextHops[0].id;
      p := HopPath(t, tree, e, v, h);
    }
  }

  /** The first hop of a path of the recorded cost is a recorded next hop. */
  lemma {:induction false} HopComplete(t: Topo, tree: Tree, e: Links, p: seq<SystemID>)
    requires Solves(t, tree, e) && Covers(t, tree, e) && PositiveCosts(t)
    requires IsPath(t, p) && |p| > 1 && p[|p| - 1] in tree && PathCost(t, p) == tree[p[|p| - 1]].distance
    ensures p[|p| - 1] != t.self && p[1] in Ids(tree[p[|p| - 1]].nextHops)
  {
    var q, u, v := p[..|p| - 1], p[|p| - 2], p[|p| - 1];
    PathBound(t, tree, e, q);
    assert t.Edge(u, v) && (u, v) in e;
    assert Tight(t, tree, (u, v));
    if |p| > 2 {
      HopComplete(t, tree, e, q);
    }
    assert p[1] in Contribution(t, tree, u, v);
    assert p[1] in Inherited(t, tree, e, v);
  }

  /** The local equations over all admissible links determine the shortest paths and their first hops. */
  lemma SolvedIsExact(t: Topo, tree: Tree, e: Links)
    requires Solves(t, tree, e) && Covers(t, tree, e) && PositiveCosts(t)
    ensures Exact(t, tree)
  {
    forall p, v | PathTo(t, p, v) ensures v in tree && tree[v].distance <= PathCost(t, p) {
      PathBound(t, tree, e, p);
    }
    forall v | v in tree ensures exists p :: Shortest(t, p, v) && PathCost(t, p) == tree[v].distance {
      var p := Attained(t, tree, e, v);
      assert Shortest(t, p, v);
    }
    assert forall v :: v in tree && v != t.self ==> tree[v].nextHops != [];
    forall v, h | v in tree && v != t.self ensures h in Ids(tree[v].nextHops) <==> FirstHop(t, v, h) {
      if h in Ids(tree[v].nextHops) {
        var p := HopPath(t, tree, e, v, h);
        assert Shortest(t, p, v);
      }
      if FirstHop(t, v, h) {
        var p :| Shortest(t, p, v) && |p| > 1 && p[1] == h;
        var q := Attained(t, tree, e, v);
        HopComplete(t, tree, e, p);
      }
    }
  }

  // ---- Trees whose records are backed by paths ----

  /** p has cost d, and goes to v through distinct nodes that are settled but for v itself. */
  ghost predicate TreePath(t: Topo, settled: set<SystemID>, d: int, v: SystemID, p: seq<SystemID>) {
    && PathTo(t, p, v) && PathCost(t, p) == d
    && (forall i, j :: 0 <= i < j < |p| ==> p[i] != p[j]) && (forall i :: 0 <= i < |p| - 1 ==> p[i] in settled)
  }

  ghost predicate HasTreePath(t: Topo, settled: set<SystemID>, d: int, v: SystemID) {
    exists p :: TreePath(t, settled, d, v, p)
  }

  ghost predicate HopPathOf(t: Topo, d: int, v: SystemID, h: SystemID, p: seq<SystemID>) {
    PathTo(t, p, v) && PathCost(t, p) == d && |p| > 1 && p[1] == h
  }

  ghost predicate HasHopPath(t: Topo, d: int, v: SystemID, h: SystemID) { exists p :: HopPathOf(t, d, v, h, p) }

  ghost predicate Backed(t: Topo, settled: set<SystemID>, v: SystemID, n: SpfNode) {
    && HasTreePath(t, settled, n.distance, v)
    && (v != t.self ==> n.nextHops != [] && forall h :: h in Ids(n.nextHops) ==> HasHopPath(t, n.distance, v, h))
  }

  ghost predicate Supported(t: Topo, tree: Tree, settled: set<SystemID>) {
    forall v :: v in tree ==> Backed(t, settled, v, tree[v])
  }

  /** Distances that no link undercuts, each the cost of a path, are the shortest. */
  lemma SupportedIsSound(t: Topo, tree: Tree, e: Links, settled: set<SystemID>)
    requires Feasible(t, tree, e) && Covers(t, tree, e) && Supported(t, tree, settled)
    ensures Sound(t, tree)
  {
    forall p, v | PathTo(t, p, v) ensures v in tree && tree[v].distance <= PathCost(t, p) {
      PathBound(t, tree, e, p);
    }
    hide Feasible, Covers, PathCost, IsPath, Ids;
    forall v | v in tree ensures exists p :: Shortest(t, p, v) && PathCost(t, p) == tree[v].distance {
      assert Backed(t, settled, v, tree[v]);
      var p :| TreePath(t, settled, tree[v].distance, v, p);
      assert Shortest(t, p, v);
    }
    forall v, h | v in tree && v != t.self && h in Ids(tree[v].nextHops) ensures FirstHop(t, v, h) {
      assert Backed(t, settled, v, tree[v]);
      var p :| HopPathOf(t, tree[v].distance, v, h, p);
      assert Shortest(t, p, v);
    }
  }

  /** The sum formed for a link from a recorded node is the cost of a path. */
  lemma SumOfPath(t: Topo, settled: set<SystemID>, u: SystemID, n: SpfNode, v: SystemID)
    requires Backed(t, settled, u, n) && Summable(t) && t.Edge(u, v)
    ensures n.distance + t.Cost(u, v) <= MAX32
  {
    hide Topo.Edge, Topo.Cost;
    var p :| TreePath(t, settled, n.distance, u, p);
    Extend(t, p, u, v);
    assert NearlySimple(p + [v]);
  }

  lemma TreePathOn(t: Topo, settled: set<SystemID>, d: int, u: SystemID, v: SystemID)
    requires HasTreePath(t, settled, d, u) && u in settled && v !in settled && t.Edge(u, v)
    ensures HasTreePath(t, settled, d + t.Cost(u, v), v)
  {
    hide Topo.Edge, Topo.Cost;
    var p :| TreePath(t, settled, d, u, p);
    Extend(t, p, u, v);
    hide PathCost, IsPath;
    assert TreePath(t, settled, d + t.Cost(u, v), v, p + [v]);
  }

  lemma HopPathOn(t: Topo, settled: set<SystemID>, u: SystemID, n: SpfNode, v: SystemID, h: SystemID)
    requires Backed(t, settled, u, n) && t.Edge(u, v)
    requires if u == t.self then n.distance == 0 && h == v else h in Ids(n.nextHops)
    ensures HasHopPath(t, n.distance + t.Cost(u, v), v, h)
  {
    hide Topo.Edge, Topo.Cost, HasTreePath, Ids;
    if u == t.self {
      Extend(t, [u], u, v);
      assert HopPathOf(t, n.distance + t.Cost(u, v), v, h, [u] + [v]);
    } else {
      var p :| HopPathOf(t, n.distance, u, h, p);
      Extend(t, p, u, v);
      hide PathCost, IsPath;
      assert HopPathOf(t, n.distance + t.Cost(u, v), v, h, p + [v]);
    }
  }

  /** Relaxing a link of a settled node keeps every record backed. */
  lemma RelaxSupported(t: Topo, tree: Tree, settled: set<SystemID>, u: SystemID, v: SystemID, nhs: seq<NextHop>)
    requires Supported(t, tree, settled) && u in tree && u in settled && t.Edge(u, v) && t.self in tree
    requires tree[t.self].distance == 0
    requires Ids(nhs) == Contribution(t, tree, u, v) && nhs != []
    requires v in settled ==> v in tree && tree[v].distance <= tree[u].distance + t.Cost(u, v)
    ensures Supported(t, Relaxed(tree, v, tree[u].distance + t.Cost(u, v), nhs), settled)
  {
    hide Topo.Edge, Topo.Cost, HasTreePath, HasHopPath;
    var d := tree[u].distance + t.Cost(u, v);
    assert Backed(t, settled, u, tree[u]);
    forall h | h in Ids(nhs) ensures HasHopPath(t, d, v, h) { HopPathOn(t, settled, u, tree[u], v, h); }
    if v !in tree || d < tree[v].distance {
      TreePathOn(t, settled, tree[u].distance, u, v);
    }
    if v in tree { assert Backed(t, settled, v, tree[v]); }
  }

  lemma SettleSupported(t: Topo, tree: Tree, settled: set<SystemID>, u: SystemID)
    requires Supported(t, tree, settled)
    ensures Supported(t, tree, settled + {u})
  {
    hide PathTo, PathCost, HasHopPath;
    forall v | v in tree ensures HasTreePath(t, settled + {u}, tree[v].distance, v) {
      assert Backed(t, settled, v, tree[v]);
      var p :| TreePath(t, settled, tree[v].distance, v, p);
      assert TreePath(t, settled + {u}, tree[v].distance, v, p);
    }
  }

  lemma NoSecondEdge(t: Topo, path: seq<SystemID>)
    requires IsPath(t, path) && |path| > 1
    requires forall w, x :: t.Edge(t.self, w) ==> !t.Edge(w, x)
    ensures |path| == 2 && t.Edge(path[0], path[1])
  {
    hide Topo.Edge;
    EdgeAt(t, path, 0);
    if |path| > 2 {
      EdgeAt(t, path, 1);
    }
  }

  lemma EdgeAt(t: Topo, path: seq<SystemID>, i: nat)
    requires IsPath(t, path) && i < |path| - 1
    ensures t.Edge(path[i], path[i + 1])
  {
  }

  /** Where no link follows another and every link costs 1, all sums fit. */
  lemma FlatMeasurable(t: Topo)
    requires forall u, v :: t.Edge(u, v) ==> t.Cost(u, v) == 1
    requires forall w, x :: t.Edge(t.self, w) ==> !t.Edge(w, x)
    ensures Measurable(t) && Summable(t)
  {
    hide Topo.Edge, Topo.Cost;
    forall p | IsPath(t, p) ensures PathCost(t, p) <= 1 {
      if |p| > 1 { NoSecondEdge(t, p); }
    }
  }

  // ---- One relaxation ----

  function Relaxed(tree: Tree, v: SystemID, newDist: Metric, nhs: seq<NextHop>): Tree {
    if v !in tree || newDist < tree[v].distance then tree[v := SpfNode(newDist, nhs)]
    else if newDist == tree[v].distance then tree[v := tree[v].(nextHops := Merged(tree[v].nextHops, nhs))]
    else tree
  }

  /** Relaxing (u, v) keeps distances that no link of e undercuts. */
  lemma RelaxFeasible(t: Topo, tree: Tree, e: Links, u: SystemID, v: SystemID, nhs: seq<NextHop>)
    requires Feasible(t, tree, e) && NonNegativeCosts(t)
    requires u in tree && t.Edge(u, v)
    requires (forall w :: (v, w) !in e) || (v in tree && tree[v].distance <= tree[u].distance)
    ensures Feasible(t, Relaxed(tree, v, tree[u].distance + t.Cost(u, v), nhs), e + {(u, v)})
  {
    hide FindNodeTIE, LinkCost, Merged;
    var d := tree[u].distance + t.Cost(u, v);
    var tree', e' := Relaxed(tree, v, d, nhs), e + {(u, v)};
    assert d >= tree[u].distance >= 0;
    forall l | l in e'
      ensures l.0 in tree' && l.1 in tree' && tree'[l.1].distance <= tree'[l.0].distance + t.Cost(l.0, l.1)
    {
      assert (l.0, l.1) == l;
    }
  }

  /** Relaxing (u, v) keeps the equations as long as nothing has been inherited from v yet, or v is nearer than u. */
  lemma RelaxSolves(t: Topo, tree: Tree, e: Links, u: SystemID, v: SystemID, nhs: seq<NextHop>)
    requires Solves(t, tree, e) && PositiveCosts(t)
    requires u in tree && t.Edge(u, v) && (u, v) !in e
    requires Ids(nhs) == Contribution(t, tree, u, v) && nhs != []
    requires (forall w :: (v, w) !in e) || (v in tree && tree[v].distance <= tree[u].distance)
    ensures Solves(t, Relaxed(tree, v, tree[u].distance + t.Cost(u, v), nhs), e + {(u, v)})
  {
    RelaxFeasible(t, tree, e, u, v, nhs);
    hide Inherited, FindNodeTIE, LinkCost, Topo.Edge, Topo.Cost;
    var d := tree[u].distance + t.Cost(u, v);
    var tree', e' := Relaxed(tree, v, d, nhs), e + {(u, v)};
    assert d > tree[u].distance >= 0;
    forall w | w in tree' && w != t.self
      ensures tree'[w].nextHops != [] && Ids(tree'[w].nextHops) == Inherited(t, tree', e', w)
    {
      if w != v {
        InheritedElsewhere(t, tree, e, u, v, nhs, d, w);
      } else if v !in tree || d < tree[v].distance {
        InheritedAfresh(t, tree, e, u, v, nhs, d);
      } else {
        InheritedAtHead(t, tree, e, u, v, nhs, d);
      }
    }
    assert v != t.self || tree' == tree;
  }

  lemma InheritedAfresh(t: Topo, tree: Tree, e: Links, u: SystemID, v: SystemID, nhs: seq<NextHop>, d: Metric)
    requires Solves(t, tree, e) && t.Edge(u, v) && u in tree
    requires d == tree[u].distance + t.Cost(u, v) > tree[u].distance
    requires v !in tree || d < tree[v].distance
    requires forall x :: (v, x) !in e
    requires Ids(nhs) == Contribution(t, tree, u, v)
    ensures Ids(nhs) == Inherited(t, Relaxed(tree, v, d, nhs), e + {(u, v)}, v)
  {
    var tree', e' := Relaxed(tree, v, d, nhs), e + {(u, v)};
    assert v != u;
    assert Tight(t, tree', (u, v)) && Contribution(t, tree', u, v) == Ids(nhs);
    forall l | l in e && l.1 == v ensures !Tight(t, tree', l) {
      assert (l.0, l.1) == l;
      assert l.0 != v;
    }
  }

  lemma InheritedElsewhere(t: Topo, tree: Tree, e: Links, u: SystemID, v: SystemID, nhs: seq<NextHop>, d: Metric,
                           w: SystemID)
    requires Solves(t, tree, e) && t.Edge(u, v) && w != v && w in tree && w != t.self
    requires (forall x :: (v, x) !in e) || Relaxed(tree, v, d, nhs) == tree
    ensures Ids(tree[w].nextHops) == Inherited(t, Relaxed(tree, v, d, nhs), e + {(u, v)}, w)
  {
    var tree', e' := Relaxed(tree, v, d, nhs), e + {(u, v)};
    forall l | l in e' && l.1 == w
      ensures l in e && (Tight(t, tree, l) <==> Tight(t, tree', l))
      ensures Contribution(t, tree, l.0, w) == Contribution(t, tree', l.0, w)
    {
      assert l in e;
      assert (l.0, l.1) == l;
      assert l.0 == v ==> tree' == tree;
    }
    assert Inherited(t, tree', e', w) == Inherited(t, tree, e, w);
  }

  lemma InheritedAtHead(t: Topo, tree: Tree, e: Links, u: SystemID, v: SystemID, nhs: seq<NextHop>, d: Metric)
    requires Solves(t, tree, e) && t.Edge(u, v) && u in tree && v in tree && v != t.self
    requires d == tree[u].distance + t.Cost(u, v) >= tree[v].distance && d > tree[u].distance
    requires Ids(nhs) == Contribution(t, tree, u, v)
    requires (forall x :: (v, x) !in e) || d > tree[v].distance
    ensures Ids(Relaxed(tree, v, d, nhs)[v].nextHops) == Inherited(t, Relaxed(tree, v, d, nhs), e + {(u, v)}, v)
  {
    var tree', e' := Relaxed(tree, v, d, nhs), e + {(u, v)};
    forall l | l in e && l.1 == v
      ensures Tight(t, tree, l) <==> Tight(t, tree', l)
      ensures Contribution(t, tree, l.0, v) == Contribution(t, tree', l.0, v)
    {
      assert (l.0, l.1) == l;
      assert l.0 == v ==> tree' == tree;
    }
    assert Tight(t, tree', (u, v)) <==> d == tree[v].distance;
    assert u == v ==> d > tree[v].distance ==> tree' == tree;
    assert d == tree[v].distance ==> Contribution(t, tree', u, v) == Contribution(t, tree, u, v);
    assert Inherited(t, tree', e', v) ==
           Inherited(t, tree, e, v) + if d == tree[v].distance then Ids(nhs) else {};
  }
}
