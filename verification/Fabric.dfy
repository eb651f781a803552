/** A converged two-level fabric, and the promise of positive disaggregation in it. */
module Fabric {
  import opened RiftTypes
  import opened Prefixes
  import opened Routes
  import opened Graph
  import opened Southbound
  import opened Northbound
  import opened Disagg
  import opened Scope
  import opened Originate

  // Spines are at level 1, leaves at level 0; links join a spine and a leaf.
  datatype Net = Net(spines: set<SystemID>, leaves: set<SystemID>, links: set<(SystemID, SystemID)>,
    local: map<SystemID, seq<LocalPrefix>>)
  {
    ghost predicate Valid() {
      && spines !! leaves
      && (forall l :: l in links ==> l.0 in spines && l.1 in leaves)
      && local.Keys == spines + leaves
      && forall x, i :: x in local && 0 <= i < |local[x]| ==> local[x][i].prefix.IPv4? ==>
        MIN32 <= local[x][i].prefix.address <= MAX32
    }

    function LevelOf(x: SystemID): Level { if x in spines then 1 else 0 }

    predicate Linked(x: SystemID, y: SystemID) { (x, y) in links || (y, x) in links }
  }

  // What one node holds and computed.
  datatype Node = Node(adjs: map<string, AdjacencyInfo>, entries: map<TIEID, Entry>, tree: Tree, south: Table,
    peers: map<SystemID, set<SystemID>>, rib: Table)

  type Nodes = map<SystemID, Node>

  /** The adjacencies of x are its links, with the level of the node at the other end. */
  ghost predicate AdjacenciesUp(f: Net, x: SystemID, adjs: map<string, AdjacencyInfo>) {
    && (forall k :: k in adjs ==>
      f.Linked(x, adjs[k].neighborID) && adjs[k].neighborLevel == f.LevelOf(adjs[k].neighborID))
    && (forall y :: f.Linked(x, y) ==> exists k :: k in adjs && adjs[k].neighborID == y)
  }

  /** A walk along links from the originator of a TIE on which each hop floods it and the next node accepts it. */
  ghost predicate FloodPath(f: Net, id: TIEID, p: seq<SystemID>) {
    && |p| > 0 && p[0] == id.originator
    && forall i :: 0 <= i < |p| - 1 ==> FloodHop(f, id, p[i], p[i + 1])
  }

  ghost predicate FloodHop(f: Net, id: TIEID, x: SystemID, y: SystemID) {
    && f.Linked(x, y)
    && ShouldFloodTIE(id, x, f.LevelOf(x), f.LevelOf(y))
    && ShouldAcceptTIE(id, y, f.LevelOf(y), f.LevelOf(x))
  }

  ghost predicate Reaches(f: Net, id: TIEID, x: SystemID) {
    exists p :: FloodPath(f, id, p) && p[|p| - 1] == x
  }

  /** Every node holds exactly the TIEs that flooding carries to it, each in its originator's version. */
  ghost predicate Flooded(f: Net, nodes: Nodes) {
    forall x, id :: x in nodes ==>
      && (id in nodes[x].entries <==> id.originator in nodes && id in nodes[id.originator].entries && Reaches(f, id, x))
      && (id in nodes[x].entries ==>
        nodes[x].entries[id].packet.element == nodes[id.originator].entries[id].packet.element)
  }

  /** The disaggregation TIE carries exactly the computed prefixes; without any it is absent or empty. */
  ghost predicate DisaggOriginated(x: SystemID, n: Node) {
    var wanted := Disaggregated(SouthNeighbors(1, n.adjs), n.peers, n.south);
    var id := OwnID(SOUTH, x, POS_DISAGG_TIE);
    if id in n.entries then
      exists list :: n.entries[id].packet.element == DisaggContent(list)
        && forall pe :: pe in list <==> pe in EntriesFor(wanted)
    else wanted == {}
  }

  ghost function EntriesFor(wanted: set<DisaggPrefix>): set<PrefixEntry> {
    set d | d in wanted :: PrefixEntry(d.prefix, d.distance, false)
  }

  /** The self-originated part of a database. */
  ghost predicate Originated(f: Net, x: SystemID, n: Node) {
    var level := f.LevelOf(x);
    && (forall id :: id in n.entries && id.originator == x ==>
          id.tieNr == 1 && ((id.direction == NORTH && id.tieType in {NODE_TIE, PREFIX_TIE}) ||
                            (id.direction == SOUTH && level > 0
                              && id.tieType in {NODE_TIE, PREFIX_TIE, POS_DISAGG_TIE})))
    && OwnID(NORTH, x, NODE_TIE) in n.entries
    && NorthNodeContent(level, n.adjs, n.entries[OwnID(NORTH, x, NODE_TIE)].packet.element)
    && x in f.local
    && OwnID(NORTH, x, PREFIX_TIE) in n.entries
    && n.entries[OwnID(NORTH, x, PREFIX_TIE)].packet.element == NorthPrefixContent(f.local[x])
    && (level > 0 ==>
          && OwnID(SOUTH, x, NODE_TIE) in n.entries
          && SouthNodeContent(level, n.adjs, n.entries[OwnID(SOUTH, x, NODE_TIE)].packet.element)
          && OwnID(SOUTH, x, PREFIX_TIE) in n.entries
          && n.entries[OwnID(SOUTH, x, PREFIX_TIE)].packet.element == SouthPrefixContent()
          && DisaggOriginated(x, n))
  }

  /** The results of the computations at x for the database it holds. */
  ghost predicate Computed(f: Net, x: SystemID, n: Node) {
    if x in f.spines then
      && SouthboundResult(TopoOf(x, n.adjs, n.entries), DirectHops(n.adjs), n.tree, n.south)
      && PeerTable(x, 1, n.entries, n.peers)
    else
      NorthboundResult(n.entries, Uplinks(x, 0, n.adjs, n.entries), n.rib)
  }

  ghost predicate Converged(f: Net, nodes: Nodes) {
    && f.Valid() && nodes.Keys == f.spines + f.leaves
    && Flooded(f, nodes)
    && forall x :: x in nodes ==> Settled(f, x, nodes[x])
  }

  ghost predicate Settled(f: Net, x: SystemID, n: Node) {
    && AdjacenciesUp(f, x, n.adjs) && Originated(f, x, n) && Computed(f, x, n)
  }

  lemma SpineOriginates(f: Net, nodes: Nodes, s: SystemID)
    requires Converged(f, nodes) && s in f.spines
    ensures DisaggOriginated(s, nodes[s])
    ensures var id := OwnID(SOUTH, s, PREFIX_TIE);
        id in nodes[s].entries && nodes[s].entries[id].packet.element == SouthPrefixContent()
  {
    hide Flooded, Computed, DisaggOriginated;
    assert Settled(f, s, nodes[s]);
  }

  // ---- What flooding brings where ----

  lemma Delivered(f: Net, nodes: Nodes, id: TIEID, p: seq<SystemID>, x: SystemID)
    requires Converged(f, nodes) && x in nodes && FloodPath(f, id, p) && p[|p| - 1] == x
    requires id.originator in nodes && id in nodes[id.originator].entries
    ensures id in nodes[x].entries
    ensures nodes[x].entries[id].packet.element == nodes[id.originator].entries[id].packet.element
  {
    hide Settled, Net.Valid, FloodPath;
    assert Reaches(f, id, x);
  }

  /** A spine holds the North TIEs of its leaves, and a leaf the South TIEs of its spines. */
  lemma HoldsNeighbors(f: Net, nodes: Nodes, x: SystemID, y: SystemID, id: TIEID)
    requires Converged(f, nodes) && f.Linked(x, y) && x in nodes && y in nodes
    requires id.originator == y && id in nodes[y].entries
    requires (x in f.spines && y in f.leaves && id.direction == NORTH)
      || (x in f.leaves && y in f.spines && id.direction == SOUTH)
    ensures id in nodes[x].entries && nodes[x].entries[id].packet.element == nodes[y].entries[id].packet.element
  {
    hide Settled, Flooded;
    var p := [y, x];
    assert FloodHop(f, id, y, x);
    assert FloodPath(f, id, p) && p[|p| - 1] == x;
    Delivered(f, nodes, id, p, x);
  }

  /** A South Node TIE is reflected by a shared leaf to the other spines of that leaf. */
  lemma Reflected(f: Net, nodes: Nodes, b: SystemID, m: SystemID, a: SystemID, id: TIEID)
    requires Converged(f, nodes) && f.Linked(b, m) && f.Linked(a, m) && a in f.spines && b in f.spines && m in f.leaves
    requires id == OwnID(SOUTH, b, NODE_TIE) && id in nodes[b].entries
    ensures id in nodes[a].entries && nodes[a].entries[id].packet.element == nodes[b].entries[id].packet.element
  {
    hide Settled, Flooded;
    var p := [b, m, a];
    assert FloodHop(f, id, b, m) && FloodHop(f, id, m, a);
    assert FloodPath(f, id, p) && p[|p| - 1] == a;
    Delivered(f, nodes, id, p, a);
  }

  lemma HeldIsOriginated(f: Net, nodes: Nodes, x: SystemID, id: TIEID)
    requires Converged(f, nodes) && x in nodes && id in nodes[x].entries
    ensures id.originator in nodes && id in nodes[id.originator].entries
    ensures nodes[x].entries[id].packet.element == nodes[id.originator].entries[id].packet.element
  {
    hide Settled, Net.Valid;
  }

  // ---- The topology a spine sees ----

  /** A South Node TIE held anywhere is a spine's, and lists exactly the leaves linked to it. */
  lemma SouthView(f: Net, nodes: Nodes, x: SystemID, u: SystemID)
    requires Converged(f, nodes) && x in nodes && FindNodeTIE(nodes[x].entries, SOUTH, u).Some?
    ensures var south := FindNodeTIE(nodes[x].entries, SOUTH, u).value;
            && u in f.spines && south.level == 1 && !Overloaded(south)
            && (forall y :: y in south.neighbors <==> f.Linked(u, y))
            && (forall y :: y in south.neighbors ==>
              south.neighbors[y].level == 0 && south.neighbors[y].cost == Some(1))
  {
    hide Flooded, Computed, FloodPath;
    var id := OwnID(SOUTH, u, NODE_TIE);
    HeldIsOriginated(f, nodes, x, id);
    assert Settled(f, u, nodes[u]);
    var adjs := nodes[u].adjs;
    var nbrs :| NeighborsOf(adjs, Southward(1, adjs), nbrs)
      && nodes[u].entries[id].packet.element == NodeTIE(1, nbrs, None);
    forall y ensures y in nbrs <==> f.Linked(u, y) {
      if f.Linked(u, y) {
        var k :| k in adjs && adjs[k].neighborID == y;
        assert k in Southward(1, adjs);
      }
    }
  }

  lemma NorthOwn(f: Net, nodes: Nodes, v: SystemID) returns (nbrs: map<SystemID, NodeNeighbor>)
    requires Converged(f, nodes) && v in f.leaves
    ensures v in nodes && OwnID(NORTH, v, NODE_TIE) in nodes[v].entries
    ensures NeighborsOf(nodes[v].adjs, Northward(0, nodes[v].adjs), nbrs)
    ensures nodes[v].entries[OwnID(NORTH, v, NODE_TIE)].packet.element == NodeTIE(0, nbrs, Some(true))
    ensures AdjacenciesUp(f, v, nodes[v].adjs)
  {
    hide Flooded, Computed, AdjacenciesUp, NeighborsOf;
    assert Settled(f, v, nodes[v]);
    var adjs := nodes[v].adjs;
    nbrs :| NeighborsOf(adjs, Northward(0, adjs), nbrs)
      && nodes[v].entries[OwnID(NORTH, v, NODE_TIE)].packet.element == NodeTIE(0, nbrs, Some(true));
  }

  /** A leaf's North Node TIE lists exactly the spines linked to it. */
  lemma NorthView(f: Net, nodes: Nodes, x: SystemID, v: SystemID)
    requires Converged(f, nodes) && x in nodes && v in f.leaves && FindNodeTIE(nodes[x].entries, NORTH, v).Some?
    ensures forall y :: y in FindNodeTIE(nodes[x].entries, NORTH, v).value.neighbors <==> f.Linked(v, y)
  {
    NetIsBipartite(f, nodes);
    hide Converged;
    HeldIsOriginated(f, nodes, x, OwnID(NORTH, v, NODE_TIE));
    var nbrs := NorthOwn(f, nodes, v);
    var adjs := nodes[v].adjs;
    forall y ensures y in nbrs <==> f.Linked(v, y) {
      if f.Linked(v, y) {
        var k :| k in adjs && adjs[k].neighborID == y;
        assert k in Northward(0, adjs);
      }
    }
  }

  /** The links a spine may use from itself are its own; no admissible link leaves a leaf or enters a spine. */
  lemma SpineEdges(f: Net, nodes: Nodes, s: SystemID)
    requires Converged(f, nodes) && s in f.spines
    ensures var t := TopoOf(s, nodes[s].adjs, nodes[s].entries);
            && (forall v :: t.Edge(s, v) <==> f.Linked(s, v))
            && (forall u, v :: t.Edge(u, v) ==> u in f.spines && v in f.leaves && t.Cost(u, v) == 1)
  {
    hide Flooded, Computed, FloodPath, NeighborsOf;
    var n := nodes[s];
    var t := TopoOf(s, n.adjs, n.entries);
    assert Settled(f, s, n);
    forall u, v | t.Edge(u, v) ensures u in f.spines && v in f.leaves && t.Cost(u, v) == 1 && f.Linked(u, v) {
      SouthView(f, nodes, s, u);
    }
    forall v | f.Linked(s, v) ensures t.Edge(s, v) {
      SpineEdge(f, nodes, s, v);
    }
  }

  lemma SpineMeasurable(f: Net, nodes: Nodes, s: SystemID)
    requires Converged(f, nodes) && s in f.spines
    ensures Measurable(TopoOf(s, nodes[s].adjs, nodes[s].entries))
    ensures Summable(TopoOf(s, nodes[s].adjs, nodes[s].entries))
  {
    SpineEdges(f, nodes, s);
    NetIsBipartite(f, nodes);
    hide Converged, Topo.Edge, Topo.Cost;
    FlatMeasurable(TopoOf(s, nodes[s].adjs, nodes[s].entries));
  }

  lemma SpineEdge(f: Net, nodes: Nodes, s: SystemID, v: SystemID)
    requires Converged(f, nodes) && s in f.spines && f.Linked(s, v)
    ensures TopoOf(s, nodes[s].adjs, nodes[s].entries).Edge(s, v)
  {
    hide Flooded, Computed, FloodPath, NeighborsOf;
    assert Settled(f, s, nodes[s]) && Settled(f, v, nodes[v]);
    var k :| k in nodes[s].adjs && nodes[s].adjs[k].neighborID == v;
    assert v in Adjacent(nodes[s].adjs);
    SouthView(f, nodes, s, s);
    HoldsNeighbors(f, nodes, s, v, OwnID(NORTH, v, NODE_TIE));
    NorthView(f, nodes, s, v);
  }

  // ---- South routes of a spine ----

  /** v attaches prefix p itself. */
  ghost predicate Advertises(f: Net, v: SystemID, p: string) {
    v in f.local && p != "" && exists lp :: lp in f.local[v] && PrefixToString(lp.prefix) == p
  }

  lemma LeafLists(f: Net, nodes: Nodes, s: SystemID, v: SystemID)
    requires Converged(f, nodes) && s in f.spines && f.Linked(s, v)
    ensures v in f.local
    ensures PrefixLists(nodes[s].entries, NORTH, v, PREFIX_TIE) == {NorthPrefixContent(f.local[v]).prefixes.value}
  {
    hide Flooded, Computed, FloodPath, NeighborsOf;
    var id := OwnID(NORTH, v, PREFIX_TIE);
    assert Settled(f, v, nodes[v]);
    HoldsNeighbors(f, nodes, s, v, id);
    forall id' | id' in nodes[s].entries && IsPrefixTIEOf(id', NORTH, v, PREFIX_TIE) ensures id' == id {
      HeldIsOriginated(f, nodes, s, id');
    }
    var el := nodes[s].entries[id].packet.element;
    assert PrefixList(PREFIX_TIE, el) == NorthPrefixContent(f.local[v]).prefixes;
    assert NorthPrefixContent(f.local[v]).prefixes.Some?;
  }

  lemma OwnPathOnly(f: Net, nodes: Nodes, s: SystemID, path: seq<SystemID>, v: SystemID)
    requires Converged(f, nodes) && s in f.spines && v != s
    requires PathTo(TopoOf(s, nodes[s].adjs, nodes[s].entries), path, v)
    ensures path == [s, v] && f.Linked(s, v)
  {
    var t := TopoOf(s, nodes[s].adjs, nodes[s].entries);
    SpineEdges(f, nodes, s);
    NetIsBipartite(f, nodes);
    hide Converged, Topo.Edge, Topo.Cost;
    OneHopPath(t, path, v);
  }

  lemma OneHopPath(t: Topo, path: seq<SystemID>, v: SystemID)
    requires PathTo(t, path, v) && v != t.self
    requires forall w, x :: t.Edge(t.self, w) ==> !t.Edge(w, x)
    ensures path == [t.self, v] && t.Edge(t.self, v)
  {
    hide Topo.Edge;
    NoSecondEdge(t, path);
  }

  lemma NetIsBipartite(f: Net, nodes: Nodes)
    requires Converged(f, nodes)
    ensures f.spines !! f.leaves && nodes.Keys == f.spines + f.leaves
    ensures forall x, y :: f.Linked(x, y) ==>
              f.Linked(y, x) && ((x in f.spines && y in f.leaves) || (x in f.leaves && y in f.spines))
  {
  }

  lemma Neighboring(f: Net, nodes: Nodes, s: SystemID, v: SystemID)
    requires Converged(f, nodes) && s in f.spines && f.Linked(s, v)
    ensures var t := TopoOf(s, nodes[s].adjs, nodes[s].entries);
            v != s && Shortest(t, [s, v], v) && PathCost(t, [s, v]) == 1 && FirstHop(t, v, v)
            && forall h :: FirstHop(t, v, h) ==> h == v
  {
    var t := TopoOf(s, nodes[s].adjs, nodes[s].entries);
    SpineEdges(f, nodes, s);
    NetIsBipartite(f, nodes);
    hide Converged;
    forall q | PathTo(t, q, v) ensures q == [s, v] {
      OwnPathOnly(f, nodes, s, q, v);
    }
    OnlyPath(t, s, v);
  }

  lemma OnlyPath(t: Topo, s: SystemID, v: SystemID)
    requires t.self == s && t.Edge(s, v) && forall q :: PathTo(t, q, v) ==> q == [s, v]
    ensures Shortest(t, [s, v], v) && PathCost(t, [s, v]) == t.Cost(s, v) && FirstHop(t, v, v)
    ensures forall h :: FirstHop(t, v, h) ==> h == v
  {
    hide Topo.Edge, Topo.Cost;
    Extend(t, [s], s, v);
    assert [s] + [v] == [s, v];
    assert Shortest(t, [s, v], v);
  }

  /** A spine has a south route exactly for what its linked leaves advertise, through such leaves only. */
  lemma SpineRoutes(f: Net, nodes: Nodes, s: SystemID)
    requires Converged(f, nodes) && s in f.spines
    ensures forall p :: p in nodes[s].south <==> exists v :: f.Linked(s, v) && Advertises(f, v, p)
    ensures forall p, h :: p in nodes[s].south && h in Ids(nodes[s].south[p].nextHops) ==>
              f.Linked(s, h) && Advertises(f, h, p)
    ensures forall p :: p in nodes[s].south ==> Ids(nodes[s].south[p].nextHops) != {}
  {
    var n := nodes[s];
    var t := TopoOf(s, n.adjs, n.entries);
    assert SouthboundResult(t, DirectHops(n.adjs), n.tree, n.south) by {
      hide SouthboundResult;
      assert Settled(f, s, n);
    }
    SpineEdges(f, nodes, s);
    SpineMeasurable(f, nodes, s);
    hide Converged, Measurable, Summable, SouthboundResult, Topo.Edge, Topo.Cost, Attaches, Advertises, FirstHop;
    SouthRoutes(t, DirectHops(n.adjs), n.tree, n.south);
    forall v, d, p, m | Attaches(t, v, d, p, m)
      ensures f.Linked(s, v) && Advertises(f, v, p) && FirstHop(t, v, v) && forall h :: FirstHop(t, v, h) ==> h == v
    {
      AttachedIsAdvertised(f, nodes, s, v, d, p, m);
      Neighboring(f, nodes, s, v);
    }
    forall p, v | f.Linked(s, v) && Advertises(f, v, p) ensures p in n.south {
      var m := AdvertisedIsAttached(f, nodes, s, v, p);
    }
    forall p | p in n.south ensures Ids(n.south[p].nextHops) != {} {
      var v, d :| Attaches(t, v, d, p, n.south[p].metric);
      assert v in Ids(n.south[p].nextHops);
    }
  }

  lemma AttachedIsAdvertised(f: Net, nodes: Nodes, s: SystemID, v: SystemID, d: Metric, p: string, m: Metric)
    requires Converged(f, nodes) && s in f.spines
    requires Attaches(TopoOf(s, nodes[s].adjs, nodes[s].entries), v, d, p, m)
    ensures f.Linked(s, v) && Advertises(f, v, p)
  {
    hide PrefixToString, Converged, Topo.Edge, Topo.Cost, PathCost, IsPath, PrefixLists, NorthPrefixContent, TopoOf,
      Wrap32, FirstHop;
    NetIsBipartite(f, nodes);
    var t := TopoOf(s, nodes[s].adjs, nodes[s].entries);
    TopoFields(s, nodes[s].adjs, nodes[s].entries);
    var path :| Shortest(t, path, v) && PathCost(t, path) == d;
    OwnPathOnly(f, nodes, s, path, v);
    LeafLists(f, nodes, s, v);
    var pt, pe :| pt in PrefixLists(t.entries, NORTH, v, PREFIX_TIE) && pe in pt && PrefixToString(pe.prefix) == p
      && m == Wrap32(pe.metric + d);
    ContentListed(f.local[v], pe);
  }

  lemma ContentListed(local: seq<LocalPrefix>, pe: PrefixEntry)
    ensures NorthPrefixContent(local).prefixes.Some?
    ensures pe in NorthPrefixContent(local).prefixes.value <==> exists lp :: lp in local && pe == EntryOf(lp)
  {
    var pt := NorthPrefixContent(local).prefixes.value;
    if pe in pt {
      var i :| 0 <= i < |pt| && pt[i] == pe;
      assert local[i] in local;
    }
    if lp :| lp in local && pe == EntryOf(lp) {
      var i :| 0 <= i < |local| && local[i] == lp;
      assert pt[i] == pe;
    }
  }

  lemma AdvertisedIsAttached(f: Net, nodes: Nodes, s: SystemID, v: SystemID, p: string) returns (m: Metric)
    requires Converged(f, nodes) && s in f.spines && f.Linked(s, v) && Advertises(f, v, p)
    ensures Attaches(TopoOf(s, nodes[s].adjs, nodes[s].entries), v, 1, p, m)
  {
    hide PrefixToString, Converged, Topo.Edge, Topo.Cost, PathCost, Shortest, PrefixLists, IsPath, FirstHop,
      NorthPrefixContent, Attaches, TopoOf, Wrap32;
    NetIsBipartite(f, nodes);
    Neighboring(f, nodes, s, v);
    LeafLists(f, nodes, s, v);
    var lp :| lp in f.local[v] && PrefixToString(lp.prefix) == p;
    ContentListed(f.local[v], EntryOf(lp));
    m := Wrap32(lp.metric + 1);
    var t := TopoOf(s, nodes[s].adjs, nodes[s].entries);
    TopoFields(s, nodes[s].adjs, nodes[s].entries);
    AttachesIntro(t, v, [s, v], NorthPrefixContent(f.local[v]).prefixes.value, EntryOf(lp));
  }

  lemma TopoFields(s: SystemID, adjs: map<string, AdjacencyInfo>, entries: map<TIEID, Entry>)
    ensures TopoOf(s, adjs, entries).self == s && TopoOf(s, adjs, entries).entries == entries
  {
  }

  // ---- Disaggregation ----

  /** A spine knows the leaves of every other spine it shares a leaf with. */
  lemma PeerKnown(f: Net, nodes: Nodes, a: SystemID, b: SystemID, m: SystemID)
    requires Converged(f, nodes) && a in f.spines && b in f.spines && a != b && f.Linked(a, m) && f.Linked(b, m)
    ensures b in nodes[a].peers && forall y :: y in nodes[a].peers[b] <==> f.Linked(b, y)
  {
    hide Converged;
    NetIsBipartite(f, nodes);
    SpineComputed(f, nodes, a);
    SpineComputed(f, nodes, b);
    var n, id := nodes[a], OwnID(SOUTH, b, NODE_TIE);
    Reflected(f, nodes, b, m, a, id);
    assert FindNodeTIE(n.entries, SOUTH, b) == n.entries[id].packet.element.node;
    SouthView(f, nodes, a, b);
    assert PeerTIE(a, 1, id, n.entries[id]);
    var id' :| id' in n.entries && PeerTIE(a, 1, id', n.entries[id']) && id'.originator == b
               && n.peers[b] == PeerSouth(1, n.entries[id'].packet.element.node.value);
    OneSouthNode(f, nodes, a, b, id');
  }

  lemma SpineComputed(f: Net, nodes: Nodes, s: SystemID)
    requires Converged(f, nodes) && s in f.spines
    ensures PeerTable(s, 1, nodes[s].entries, nodes[s].peers)
    ensures var id := OwnID(SOUTH, s, NODE_TIE);
            id in nodes[s].entries && nodes[s].entries[id].packet.element.node.Some?
  {
    hide Flooded, PeerTable;
    assert Settled(f, s, nodes[s]);
  }

  lemma OneSouthNode(f: Net, nodes: Nodes, a: SystemID, b: SystemID, id: TIEID)
    requires Converged(f, nodes) && a in nodes && id in nodes[a].entries
    requires id.direction == SOUTH && id.tieType == NODE_TIE && id.originator == b
    ensures id == OwnID(SOUTH, b, NODE_TIE)
  {
    hide Flooded, Computed;
    HeldIsOriginated(f, nodes, a, id);
    assert Settled(f, b, nodes[b]);
  }

  lemma SouthIDs(f: Net, nodes: Nodes, a: SystemID)
    requires Converged(f, nodes) && a in f.spines
    ensures forall y :: y in SouthNeighbors(1, nodes[a].adjs) <==> f.Linked(a, y)
  {
    hide Flooded, Computed, Originated;
    assert Settled(f, a, nodes[a]);
    NetIsBipartite(f, nodes);
    var adjs := nodes[a].adjs;
    forall y | f.Linked(a, y) ensures y in SouthNeighbors(1, adjs) {
      var k :| k in adjs && adjs[k].neighborID == y;
    }
  }

  /** The keys of a south table that parse as prefixes are the strings of what they parse to. */
  lemma SouthKeys(f: Net, nodes: Nodes, s: SystemID, p: string)
    requires Converged(f, nodes) && s in f.spines && p in nodes[s].south
    ensures StringToPrefix(p) != NotIPv4 ==> PrefixToString(StringToPrefix(p)) == p
  {
    SpineRoutes(f, nodes, s);
    hide PrefixToString, StringToPrefix, Settled, Flooded;
    var v :| f.Linked(s, v) && Advertises(f, v, p);
    var lp :| lp in f.local[v] && PrefixToString(lp.prefix) == p;
    var i :| 0 <= i < |f.local[v]| && f.local[v][i] == lp;
    if lp.prefix.IPv4? {
      StringRoundTrip(lp.prefix.address, lp.prefix.len);
    } else {
      NoKey();
    }
  }

  lemma NoKey()
    ensures PrefixToString(NotIPv4) == ""
  {
  }

  /** p is among the prefixes a spine advertises for disaggregation. */
  ghost predicate Disaggregates(n: Node, p: string) {
    exists d :: d in Disaggregated(SouthNeighbors(1, n.adjs), n.peers, n.south) && PrefixToString(d.prefix) == p
  }

  /** A prefix needs disaggregation if a spine reaches it that shares a leaf with one that does not. */
  lemma MustNeedDisagg(f: Net, nodes: Nodes, a: SystemID, b: SystemID, m: SystemID, p: string)
    requires Converged(f, nodes) && a in f.spines && b in f.spines && f.Linked(a, m) && f.Linked(b, m)
    requires p in nodes[a].south && p !in nodes[b].south
    ensures NeedsDisagg(SouthNeighbors(1, nodes[a].adjs), nodes[a].peers, nodes[a].south[p])
  {
    hide Converged, Advertises;
    NetIsBipartite(f, nodes);
    SpineRoutes(f, nodes, a);
    SpineRoutes(f, nodes, b);
    PeerKnown(f, nodes, a, b, m);
    SouthIDs(f, nodes, a);
    var h := Pick(Ids(nodes[a].south[p].nextHops));
    assert f.Linked(a, h) && Advertises(f, h, p) && !f.Linked(b, h);
    assert m in nodes[a].peers[b] * SouthNeighbors(1, nodes[a].adjs);
    assert PartialNeighbor(SouthNeighbors(1, nodes[a].adjs), nodes[a].peers, h);
  }

  /** Such a prefix is advertised exactly when its key parses as a prefix. */
  lemma MustDisaggregate(f: Net, nodes: Nodes, a: SystemID, b: SystemID, m: SystemID, p: string)
    requires Converged(f, nodes) && a in f.spines && b in f.spines && f.Linked(a, m) && f.Linked(b, m)
    requires p in nodes[a].south && p !in nodes[b].south
    ensures Disaggregates(nodes[a], p) <==> StringToPrefix(p) != NotIPv4
  {
    hide Converged, NeedsDisagg, StringToPrefix, PrefixToString;
    NetIsBipartite(f, nodes);
    MustNeedDisagg(f, nodes, a, b, m, p);
    SouthKeys(f, nodes, a, p);
    var n := nodes[a];
    var wanted := Disaggregated(SouthNeighbors(1, n.adjs), n.peers, n.south);
    if StringToPrefix(p) != NotIPv4 {
      assert DisaggPrefix(StringToPrefix(p), n.south[p].metric) in wanted;
    }
    if d :| d in wanted && PrefixToString(d.prefix) == p {
      var q :| q in n.south && StringToPrefix(q) != NotIPv4 && d.prefix == StringToPrefix(q);
      SouthKeys(f, nodes, a, q);
    }
  }

  /** A key that a leaf attaches parses exactly when the length behind it is 0 to 32. */
  lemma LengthDecides(f: Net, v: SystemID, lp: LocalPrefix, p: string)
    requires f.Valid() && v in f.local && lp in f.local[v] && p == PrefixToString(lp.prefix) && p != ""
    ensures lp.prefix.IPv4? && (StringToPrefix(p) != NotIPv4 <==> 0 <= lp.prefix.len <= 32)
  {
    hide PrefixToString, StringToPrefix;
    NoKey();
    var i :| 0 <= i < |f.local[v]| && f.local[v][i] == lp;
    StringRoundTrip(lp.prefix.address, lp.prefix.len);
  }

  // ---- The table of a leaf ----

  /** The validated uplinks of a leaf are exactly its spines. */
  lemma LeafUplinks(f: Net, nodes: Nodes, m: SystemID)
    requires Converged(f, nodes) && m in f.leaves
    ensures var ups := Uplinks(m, 0, nodes[m].adjs, nodes[m].entries);
            && (forall u :: u in ups ==> u.nextHop.id in f.spines && f.Linked(m, u.nextHop.id))
            && (forall s :: f.Linked(m, s) ==> exists u :: u in ups && u.nextHop.id == s)
  {
    hide Flooded, Computed;
    NetIsBipartite(f, nodes);
    var n := nodes[m];
    assert Settled(f, m, n);
    var ups := Uplinks(m, 0, n.adjs, n.entries);
    forall s | f.Linked(m, s) ensures exists u :: u in ups && u.nextHop.id == s {
      var k :| k in n.adjs && n.adjs[k].neighborID == s;
      assert Settled(f, s, nodes[s]);
      HoldsNeighbors(f, nodes, m, s, OwnID(SOUTH, s, NODE_TIE));
      SouthView(f, nodes, m, s);
      assert Validated(m, 0, n.entries, n.adjs[k]);
      assert UplinkOf(m, n.entries, n.adjs[k]) in ups;
    }
  }

  /** A leaf holds at most one TIE per type of a spine of its own, in the spine's version. */
  lemma OneTIE(f: Net, nodes: Nodes, m: SystemID, s: SystemID, id: TIEID, tieType: int)
    requires Converged(f, nodes) && m in f.leaves && f.Linked(m, s)
    requires id in nodes[m].entries && IsPrefixTIEOf(id, SOUTH, s, tieType)
    ensures id == OwnID(SOUTH, s, tieType) && id in nodes[s].entries
    ensures nodes[m].entries[id].packet.element == nodes[s].entries[id].packet.element
  {
    hide Flooded, Computed;
    HeldIsOriginated(f, nodes, m, id);
    assert Settled(f, s, nodes[s]);
  }

  /** Under a spine's South Prefix TIE a leaf finds the default route. */
  lemma PlainLists(f: Net, nodes: Nodes, m: SystemID, s: SystemID)
    requires Converged(f, nodes) && m in f.leaves && f.Linked(m, s)
    ensures PrefixLists(nodes[m].entries, SOUTH, s, PREFIX_TIE) == {SouthPrefixContent().prefixes.value}
  {
    hide Converged, DisaggOriginated;
    NetIsBipartite(f, nodes);
    var id := OwnID(SOUTH, s, PREFIX_TIE);
    SpineOriginates(f, nodes, s);
    HoldsNeighbors(f, nodes, m, s, id);
    forall id' | id' in nodes[m].entries && IsPrefixTIEOf(id', SOUTH, s, PREFIX_TIE) ensures id' == id {
      OneTIE(f, nodes, m, s, id', PREFIX_TIE);
    }
    assert PrefixList(PREFIX_TIE, nodes[m].entries[id].packet.element) == SouthPrefixContent().prefixes;
  }

  /** Under a spine's disaggregation TIE a leaf finds exactly what the spine computed. */
  lemma DisaggLists(f: Net, nodes: Nodes, m: SystemID, s: SystemID)
    requires Converged(f, nodes) && m in f.leaves && f.Linked(m, s)
    ensures var wanted := Disaggregated(SouthNeighbors(1, nodes[s].adjs), nodes[s].peers, nodes[s].south);
            && (forall pt :: pt in PrefixLists(nodes[m].entries, SOUTH, s, POS_DISAGG_TIE) ==>
              Elements(pt) == EntriesFor(wanted))
            && (wanted != {} ==> PrefixLists(nodes[m].entries, SOUTH, s, POS_DISAGG_TIE) != {})
  {
    hide Converged, Disaggregated, EntriesFor, DisaggOriginated;
    NetIsBipartite(f, nodes);
    SpineOriginates(f, nodes, s);
    var id, es := OwnID(SOUTH, s, POS_DISAGG_TIE), nodes[m].entries;
    OriginatedList(s, nodes[s]);
    if id in nodes[s].entries {
      HoldsNeighbors(f, nodes, m, s, id);
      assert PrefixList(POS_DISAGG_TIE, es[id].packet.element).value in PrefixLists(es, SOUTH, s, POS_DISAGG_TIE);
    }
    forall pt | pt in PrefixLists(es, SOUTH, s, POS_DISAGG_TIE)
      ensures id in nodes[s].entries && nodes[s].entries[id].packet.element.posDisagg == Some(pt)
    {
      var id' :| id' in es && IsPrefixTIEOf(id', SOUTH, s, POS_DISAGG_TIE)
        && PrefixList(POS_DISAGG_TIE, es[id'].packet.element) == Some(pt);
      OneTIE(f, nodes, m, s, id', POS_DISAGG_TIE);
    }
  }

  lemma OriginatedList(s: SystemID, n: Node)
    requires DisaggOriginated(s, n)
    ensures var wanted, id := Disaggregated(SouthNeighbors(1, n.adjs), n.peers, n.south),
      OwnID(SOUTH, s, POS_DISAGG_TIE);
            if id in n.entries then
              var list := n.entries[id].packet.element.posDisagg;
              list.Some? && Elements(list.value) == EntriesFor(wanted)
            else wanted == {}
  {
    hide Disaggregated;
  }

  /** A disaggregated prefix of a spine is offered to each of its leaves. */
  lemma Offers(f: Net, nodes: Nodes, m: SystemID, u: Uplink, p: string)
    requires Converged(f, nodes) && m in f.leaves && f.Linked(m, u.nextHop.id) && u.nextHop.id in f.spines
    requires var s := nodes[u.nextHop.id];
             p in s.south && NeedsDisagg(SouthNeighbors(1, s.adjs), s.peers, s.south[p])
    requires p != "" && StringToPrefix(p) != NotIPv4
    ensures exists o :: o in UplinkOffers(nodes[m].entries, u) && o.prefix == p
  {
    hide Converged, StringToPrefix, PrefixToString, NeedsDisagg, PrefixLists;
    NetIsBipartite(f, nodes);
    var id := u.nextHop.id;
    var s, es := nodes[id], nodes[m].entries;
    DisaggLists(f, nodes, m, id);
    SouthKeys(f, nodes, id, p);
    var d := DisaggPrefix(StringToPrefix(p), s.south[p].metric);
    assert d in Disaggregated(SouthNeighbors(1, s.adjs), s.peers, s.south);
    var pe := PrefixEntry(d.prefix, d.distance, false);
    var pt := Pick(PrefixLists(es, SOUTH, id, POS_DISAGG_TIE));
    assert pe in Elements(pt);
    assert EntryOffer(pe, u.linkCost, ROUTE_SOUTH_PREFIX, [u.nextHop]) in UplinkOffers(es, u);
  }

  /** Whatever a spine offers a leaf, beyond the default route, the spine reaches itself. */
  lemma OffersOnlyReached(f: Net, nodes: Nodes, m: SystemID, u: Uplink, o: Offer)
    requires Converged(f, nodes) && m in f.leaves && f.Linked(m, u.nextHop.id) && u.nextHop.id in f.spines
    requires o in UplinkOffers(nodes[m].entries, u) && o.prefix != DEFAULT_ROUTE
    ensures o.prefix in nodes[u.nextHop.id].south && StringToPrefix(o.prefix) != NotIPv4
    ensures o.route.nextHops == [u.nextHop]
  {
    hide Converged, PrefixToString, StringToPrefix, PrefixLists, NeedsDisagg;
    NetIsBipartite(f, nodes);
    var id := u.nextHop.id;
    var s, es := nodes[id], nodes[m].entries;
    OneHop(es, u, o);
    PlainLists(f, nodes, m, id);
    DisaggLists(f, nodes, m, id);
    DefaultKey();
    if o in ListOffers(PrefixLists(es, SOUTH, id, PREFIX_TIE), u.linkCost, ROUTE_SOUTH_PREFIX, [u.nextHop]) {
      var pt, pe := ListSource(o, PrefixLists(es, SOUTH, id, PREFIX_TIE), u.linkCost, ROUTE_SOUTH_PREFIX, [u.nextHop]);
    } else {
      var pt, pe := ListSource(o, PrefixLists(es, SOUTH, id, POS_DISAGG_TIE), u.linkCost, ROUTE_SOUTH_PREFIX,
                               [u.nextHop]);
      assert pe in Elements(pt);
      var wanted := Disaggregated(SouthNeighbors(1, s.adjs), s.peers, s.south);
      var d :| d in wanted && pe == PrefixEntry(d.prefix, d.distance, false);
      var p :| p in s.south && StringToPrefix(p) != NotIPv4 && d.prefix == StringToPrefix(p);
      SouthKeys(f, nodes, id, p);
    }
  }

  /** The table of a leaf is filled from the default and from what its spines offer. */
  lemma LeafTable(f: Net, nodes: Nodes, m: SystemID, a: SystemID) returns (offers: set<Offer>)
    requires Converged(f, nodes) && m in f.leaves && f.Linked(a, m) && a in f.spines
    ensures m in nodes && BestTable(nodes[m].rib, offers)
    ensures var n := nodes[m];
            forall u, o :: u in Uplinks(m, 0, n.adjs, n.entries) && o in UplinkOffers(n.entries, u) ==> o in offers
    ensures forall o :: o in offers && o.prefix != DEFAULT_ROUTE ==> Reached(f, nodes, m, o)
  {
    hide Converged, UplinkOffers, StringToPrefix, Uplinks, IsMinCost, HopsAtCost, BestTable;
    NetIsBipartite(f, nodes);
    var n := nodes[m];
    var ups := Uplinks(m, 0, n.adjs, n.entries);
    LeafComputed(f, nodes, m);
    LeafUplinks(f, nodes, m);
    var cost, hops :| IsMinCost(ups, cost) && Elements(hops) == HopsAtCost(ups, cost)
      && FilledFrom(n.entries, ups, n.rib, cost, hops);
    offers := {DefaultOffer(cost, hops)} + OffersOf(n.entries, ups);
    forall o | o in offers && o.prefix != DEFAULT_ROUTE ensures Reached(f, nodes, m, o) {
      var u :| u in ups && o in UplinkOffers(n.entries, u);
      OffersOnlyReached(f, nodes, m, u, o);
      assert Ids(o.route.nextHops) == {u.nextHop.id};
    }
  }

  /** The spines of m that have a south route for p. */
  ghost function Reaching(f: Net, nodes: Nodes, m: SystemID, p: string): set<SystemID> {
    set s | s in f.spines && s in nodes && f.Linked(s, m) && p in nodes[s].south
  }

  ghost predicate Reached(f: Net, nodes: Nodes, m: SystemID, o: Offer) {
    StringToPrefix(o.prefix) != NotIPv4 && o.route.nextHops != []
      && Ids(o.route.nextHops) <= Reaching(f, nodes, m, o.prefix)
  }

  /**
   * No black hole after disaggregation, and when. Take a leaf m and a prefix p, other than the default, that some
   * spine of m reaches and some spine of m does not. Then m has a route for p itself if and only if p parses as a
   * prefix, that is, if and only if the length behind it is 0 to 32; and every next hop of that route is a spine of m
   * that reaches p, through leaves that attach p.
   */
  lemma NoBlackHole(f: Net, nodes: Nodes, m: SystemID, a: SystemID, b: SystemID, p: string)
    requires Converged(f, nodes) && m in f.leaves
    requires f.Linked(a, m) && f.Linked(b, m) && a in f.spines && b in f.spines
    requires p in nodes[a].south && p !in nodes[b].south && p != DEFAULT_ROUTE
    ensures p in nodes[m].rib <==> StringToPrefix(p) != NotIPv4
    ensures forall v, lp :: v in f.local && lp in f.local[v] && PrefixToString(lp.prefix) == p ==>
              lp.prefix.IPv4? && (p in nodes[m].rib <==> 0 <= lp.prefix.len <= 32)
    ensures p in nodes[m].rib ==> Ids(nodes[m].rib[p].nextHops) != {}
    ensures p in nodes[m].rib ==> forall s :: s in Ids(nodes[m].rib[p].nextHops) ==>
              && s in f.spines && f.Linked(s, m) && p in nodes[s].south && Ids(nodes[s].south[p].nextHops) != {}
              && forall h :: h in Ids(nodes[s].south[p].nextHops) ==> f.Linked(s, h) && Advertises(f, h, p)
  {
    hide Settled, Flooded, Net.Valid, UplinkOffers, StringToPrefix, PrefixToString, Uplinks, Advertises, BestTable,
      NeedsDisagg, Reached;
    NetIsBipartite(f, nodes);
    NotEmpty(f, nodes, a, p);
    forall v, lp | v in f.local && lp in f.local[v] && PrefixToString(lp.prefix) == p
      ensures lp.prefix.IPv4? && (StringToPrefix(p) != NotIPv4 <==> 0 <= lp.prefix.len <= 32)
    {
      LengthDecides(f, v, lp, p);
    }
    hide Converged;
    var offers := LeafTable(f, nodes, m, a);
    if StringToPrefix(p) != NotIPv4 {
      var mine := MyOffer(f, nodes, m, a, b, p);
      RouteStays(f, nodes, m, offers, mine);
    }
    if p in nodes[m].rib {
      RouteParses(f, nodes, m, offers, p);
    }
    forall s | s in Reaching(f, nodes, m, p)
      ensures Ids(nodes[s].south[p].nextHops) != {}
      ensures forall h :: h in Ids(nodes[s].south[p].nextHops) ==> f.Linked(s, h) && Advertises(f, h, p)
    {
      SpineRoutes(f, nodes, s);
    }
  }

  lemma MyOffer(f: Net, nodes: Nodes, m: SystemID, a: SystemID, b: SystemID, p: string) returns (mine: Offer)
    requires Converged(f, nodes) && m in f.leaves && m in nodes
    requires f.Linked(a, m) && f.Linked(b, m) && a in f.spines && b in f.spines
    requires p in nodes[a].south && p !in nodes[b].south && StringToPrefix(p) != NotIPv4 && p != ""
    ensures mine.prefix == p
    ensures exists u :: u in Uplinks(m, 0, nodes[m].adjs, nodes[m].entries) && mine in UplinkOffers(nodes[m].entries, u)
  {
    hide Converged, UplinkOffers, StringToPrefix, Uplinks, NeedsDisagg;
    NetIsBipartite(f, nodes);
    LeafUplinks(f, nodes, m);
    MustNeedDisagg(f, nodes, a, b, m, p);
    var up :| up in Uplinks(m, 0, nodes[m].adjs, nodes[m].entries) && up.nextHop.id == a;
    Offers(f, nodes, m, up, p);
    mine :| mine in UplinkOffers(nodes[m].entries, up) && mine.prefix == p;
  }

  lemma RouteStays(f: Net, nodes: Nodes, m: SystemID, offers: set<Offer>, mine: Offer)
    requires m in nodes && BestTable(nodes[m].rib, offers) && mine in offers && mine.prefix != DEFAULT_ROUTE
    requires forall o :: o in offers && o.prefix != DEFAULT_ROUTE ==> Reached(f, nodes, m, o)
    ensures mine.prefix in nodes[m].rib && Ids(nodes[m].rib[mine.prefix].nextHops) != {}
    ensures Ids(nodes[m].rib[mine.prefix].nextHops) <= Reaching(f, nodes, m, mine.prefix)
  {
    hide BestTable, StringToPrefix, Reaching;
    RouteWithin(nodes[m].rib, offers, mine.prefix, Reaching(f, nodes, m, mine.prefix), mine);
  }

  lemma RouteParses(f: Net, nodes: Nodes, m: SystemID, offers: set<Offer>, p: string)
    requires m in nodes && BestTable(nodes[m].rib, offers) && p in nodes[m].rib && p != DEFAULT_ROUTE
    requires forall o :: o in offers && o.prefix != DEFAULT_ROUTE ==> Reached(f, nodes, m, o)
    ensures StringToPrefix(p) != NotIPv4
  {
    hide StringToPrefix, Reaching;
    assert Offered(nodes[m].rib[p], offers, p);
    var o :| o in offers && o.prefix == p;
    assert Reached(f, nodes, m, o);
  }

  lemma LeafComputed(f: Net, nodes: Nodes, m: SystemID)
    requires Converged(f, nodes) && m in f.leaves
    ensures m in nodes
    ensures NorthboundResult(nodes[m].entries, Uplinks(m, 0, nodes[m].adjs, nodes[m].entries), nodes[m].rib)
  {
    hide Flooded, NorthboundResult;
    assert Settled(f, m, nodes[m]);
  }

  lemma NotEmpty(f: Net, nodes: Nodes, s: SystemID, p: string)
    requires Converged(f, nodes) && s in f.spines && p in nodes[s].south
    ensures p != ""
  {
    SpineRoutes(f, nodes, s);
  }
}
