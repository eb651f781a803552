/** Every two-level fabric has a converged state: what the disaggregation theorem assumes can be met. */
module FabricExists {
  import opened RiftTypes
  import opened Prefixes
  import opened Routes
  import opened Graph
  import opened Southbound
  import opened Northbound
  import opened Disagg
  import opened Originate
  import opened Fabric

  // ---- The state, written down ----

  function Above(f: Net, x: SystemID): set<SystemID> {
    set y | y in f.spines + f.leaves && f.Linked(x, y) && f.LevelOf(y) >= f.LevelOf(x)
  }

  function Below(f: Net, x: SystemID): set<SystemID> {
    set y | y in f.spines + f.leaves && f.Linked(x, y) && f.LevelOf(y) < f.LevelOf(x)
  }

  function InfoOf(f: Net, y: SystemID): AdjacencyInfo { AdjacencyInfo("", y, f.LevelOf(y), 0, 0, 0) }

  /** Exactly the neighbours ys, under keys no longer than there are neighbours. */
  ghost predicate AdjacentTo(f: Net, adjs: map<string, AdjacencyInfo>, ys: set<SystemID>) {
    && (forall k :: k in adjs ==> |k| <= |ys| && adjs[k].neighborID in ys && adjs[k] == InfoOf(f, adjs[k].neighborID))
    && (forall y :: y in ys ==> HasNeighbor(adjs, y))
  }

  ghost predicate HasNeighbor(adjs: map<string, AdjacencyInfo>, y: SystemID) {
    exists k :: k in adjs && adjs[k].neighborID == y
  }

  lemma OneNeighborMore(f: Net, adjs: map<string, AdjacencyInfo>, ys: set<SystemID>, y: SystemID, key: string)
    requires y in ys && AdjacentTo(f, adjs, ys - {y}) && |key| == |ys|
    ensures AdjacentTo(f, adjs[key := InfoOf(f, y)], ys)
  {
    var more := adjs[key := InfoOf(f, y)];
    assert |ys - {y}| == |ys| - 1;
    assert key in more && more[key].neighborID == y;
    forall z | z in ys && z != y ensures HasNeighbor(more, z) {
      assert HasNeighbor(adjs, z);
      var k :| k in adjs && adjs[k].neighborID == z;
      assert k in more && more[k] == adjs[k];
    }
  }

  ghost function AdjsFor(f: Net, ys: set<SystemID>): (adjs: map<string, AdjacencyInfo>)
    ensures AdjacentTo(f, adjs, ys)
    decreases |ys|
  {
    if ys == {} then map[] else
      var y := Pick(ys);
      var key: string := seq(|ys|, i => 'a');
      OneNeighborMore(f, AdjsFor(f, ys - {y}), ys, y, key);
      AdjsFor(f, ys - {y})[key := InfoOf(f, y)]
  }

  ghost function AdjsOf(f: Net, x: SystemID): map<string, AdjacencyInfo> { AdjsFor(f, Above(f, x) + Below(f, x)) }

  function NbrsOf(f: Net, ys: set<SystemID>): map<SystemID, NodeNeighbor> {
    map y | y in ys :: NeighborOf(InfoOf(f, y))
  }

  type Lists = map<SystemID, seq<PrefixEntry>>

  function ContentOf(f: Net, lists: Lists, id: TIEID): Element {
    var x := id.originator;
    if id.direction == NORTH && id.tieType == NODE_TIE then
      NodeTIE(f.LevelOf(x), NbrsOf(f, Above(f, x)), if f.LevelOf(x) == LEAF_LEVEL then Some(true) else None)
    else if id.direction == NORTH then NorthPrefixContent(if x in f.local then f.local[x] else [])
    else if id.tieType == NODE_TIE then NodeTIE(1, NbrsOf(f, Below(f, x)), None)
    else if id.tieType == PREFIX_TIE then SouthPrefixContent()
    else DisaggContent(if x in lists then lists[x] else [])
  }

  predicate IsID(f: Net, id: TIEID) {
    && id.tieNr == 1
    && ((id.direction == NORTH && id.originator in f.spines + f.leaves && id.tieType in {NODE_TIE, PREFIX_TIE})
        || (id.direction == SOUTH && id.originator in f.spines && id.tieType in {NODE_TIE, PREFIX_TIE, POS_DISAGG_TIE}))
  }

  /** Every identity the nodes of the fabric originate. */
  function IDs(f: Net): (ids: set<TIEID>)
    ensures forall id :: id in ids <==> IsID(f, id)
  {
    (set x | x in f.spines + f.leaves :: OwnID(NORTH, x, NODE_TIE)) +
      (set x | x in f.spines + f.leaves :: OwnID(NORTH, x, PREFIX_TIE)) +
    (set x | x in f.spines :: OwnID(SOUTH, x, NODE_TIE)) + (set x | x in f.spines :: OwnID(SOUTH, x, PREFIX_TIE)) +
    (set x | x in f.spines :: OwnID(SOUTH, x, POS_DISAGG_TIE))
  }

  function EntryAt(f: Net, lists: Lists, x: SystemID, id: TIEID): Entry {
    Entry(TIEPacket(TIEHeader(id, 1, Some(DEFAULT_LIFETIME)), ContentOf(f, lists, id)), DEFAULT_LIFETIME,
      id.originator == x)
  }

  ghost function EntriesAt(f: Net, lists: Lists, x: SystemID): map<TIEID, Entry> {
    map id | id in IDs(f) && Reaches(f, id, x) :: EntryAt(f, lists, x, id)
  }

  lemma Holds(f: Net, lists: Lists, x: SystemID, id: TIEID)
    ensures id in EntriesAt(f, lists, x) <==> IsID(f, id) && Reaches(f, id, x)
    ensures id in EntriesAt(f, lists, x) ==> EntriesAt(f, lists, x)[id] == EntryAt(f, lists, x, id)
  {
    hide IsID, Reaches;
  }

  lemma ReachesSelf(f: Net, id: TIEID)
    ensures Reaches(f, id, id.originator)
  {
    assert FloodPath(f, id, [id.originator]);
  }

  lemma ReachesNext(f: Net, id: TIEID, y: SystemID)
    requires FloodHop(f, id, id.originator, y)
    ensures Reaches(f, id, y)
  {
    var p := [id.originator, y];
    assert FloodPath(f, id, p) && p[|p| - 1] == y;
  }

  // ---- Listing a finite set ----

  ghost function ListOf<T>(s: set<T>): (q: seq<T>)
    ensures Elements(q) == s
    decreases |s|
  {
    if s == {} then [] else
      var x := Pick(s);
      assert forall y :: y in s ==> y == x || y in s - {x};
      var q := [x] + ListOf(s - {x});
      assert Elements(q) == {x} + Elements(ListOf(s - {x}));
      q
  }

  /** The table of any finite set of offers. */
  ghost function TableOf(offers: set<Offer>): (t: Table)
    ensures BestTable(t, offers)
  {
    FoldBest(ListOf(offers));
    Fold(map[], ListOf(offers))
  }

  // ---- A spine's own computation ----

  function HopTo(y: SystemID): NextHop { NextHop(y, 0, "") }

  function StarTree(f: Net, s: SystemID): Tree {
    map v | v in Below(f, s) + {s} :: if v == s then SpfNode(0, []) else SpfNode(1, [HopTo(v)])
  }

  ghost function StarOffers(f: Net, lists: Lists, s: SystemID): set<Offer> {
    OffersFrom(EntriesAt(f, lists, s), StarTree(f, s), StarTree(f, s).Keys - {s})
  }

  ghost function SouthTable(f: Net, s: SystemID): Table { TableOf(StarOffers(f, map[], s)) }

  /** What a spine computes from North TIEs does not depend on what is disaggregated. */
  lemma SameLists(f: Net, lists: Lists, s: SystemID, v: SystemID)
    ensures PrefixLists(EntriesAt(f, lists, s), NORTH, v, PREFIX_TIE) ==
              PrefixLists(EntriesAt(f, map[], s), NORTH, v, PREFIX_TIE)
  {
    hide IsID, Reaches, EntriesAt;
    forall id | IsPrefixTIEOf(id, NORTH, v, PREFIX_TIE)
      ensures id in EntriesAt(f, lists, s) <==> id in EntriesAt(f, map[], s)
      ensures id in EntriesAt(f, lists, s) ==>
                EntriesAt(f, lists, s)[id].packet.element == EntriesAt(f, map[], s)[id].packet.element
    {
      Holds(f, lists, s, id);
      Holds(f, map[], s, id);
    }
  }

  lemma SameOffers(f: Net, lists: Lists, s: SystemID)
    ensures StarOffers(f, lists, s) == StarOffers(f, map[], s)
  {
    hide EntriesAt, PrefixLists, ListOffers;
    var tree := StarTree(f, s);
    forall v | v in tree
      ensures NodeOffers(EntriesAt(f, lists, s), tree, v) == NodeOffers(EntriesAt(f, map[], s), tree, v)
    {
      SameLists(f, lists, s, v);
    }
  }

  // ---- Links ----

  lemma Bipartite(f: Net, x: SystemID, y: SystemID)
    requires f.Valid() && f.Linked(x, y)
    ensures f.Linked(y, x)
    ensures || (x in f.spines && y in f.leaves && f.LevelOf(x) == 1 && f.LevelOf(y) == 0)
            || (x in f.leaves && y in f.spines && f.LevelOf(x) == 0 && f.LevelOf(y) == 1)
  {
  }

  lemma SpineSides(f: Net, s: SystemID)
    requires f.Valid() && s in f.spines
    ensures Above(f, s) == {} && forall y :: y in Below(f, s) <==> f.Linked(s, y)
  {
    forall y | f.Linked(s, y) ensures y in f.leaves && f.LevelOf(y) == 0 { Bipartite(f, s, y); }
  }

  lemma LeafSides(f: Net, l: SystemID)
    requires f.Valid() && l in f.leaves
    ensures Below(f, l) == {} && forall y :: y in Above(f, l) <==> f.Linked(l, y)
  {
    forall y | f.Linked(l, y) ensures y in f.spines && f.LevelOf(y) == 1 && f.LevelOf(l) == 0 { Bipartite(f, l, y); }
  }

  /** The adjacencies describe exactly the links. */
  lemma AdjsUp(f: Net, x: SystemID)
    requires f.Valid() && x in f.spines + f.leaves
    ensures AdjacenciesUp(f, x, AdjsOf(f, x))
    ensures forall y :: y in Adjacent(AdjsOf(f, x)) <==> f.Linked(x, y)
    ensures forall y :: f.Linked(x, y) ==> HopTo(y) in DirectHops(AdjsOf(f, x))
  {
    if x in f.spines { SpineSides(f, x); } else { LeafSides(f, x); }
    var adjs := AdjsOf(f, x);
    assert AdjacentTo(f, adjs, Above(f, x) + Below(f, x));
    forall y | f.Linked(x, y)
      ensures y in Adjacent(adjs) && HopTo(y) in DirectHops(adjs) && exists k :: k in adjs && adjs[k].neighborID == y
    {
      assert HasNeighbor(adjs, y);
      var k :| k in adjs && adjs[k].neighborID == y;
      assert adjs[k] == InfoOf(f, y) && NextHopOf(adjs[k]) == HopTo(y);
    }
  }

  // ---- Node TIEs as held ----

  lemma SouthNode(f: Net, lists: Lists, x: SystemID, u: SystemID)
    ensures var n := FindNodeTIE(EntriesAt(f, lists, x), SOUTH, u);
            n.Some? ==>
              && u in f.spines && Reaches(f, NodeTIEID(SOUTH, u), x)
              && n.value == NodeElement(1, NbrsOf(f, Below(f, u)), None)
    ensures u in f.spines && Reaches(f, NodeTIEID(SOUTH, u), x) ==> FindNodeTIE(EntriesAt(f, lists, x), SOUTH, u).Some?
  {
    hide Reaches, EntriesAt, NbrsOf, Below;
    Holds(f, lists, x, NodeTIEID(SOUTH, u));
  }

  lemma NorthNode(f: Net, lists: Lists, x: SystemID, v: SystemID)
    ensures var n := FindNodeTIE(EntriesAt(f, lists, x), NORTH, v);
            n.Some? ==> v in f.spines + f.leaves && n.value.neighbors == NbrsOf(f, Above(f, v))
    ensures v in f.spines + f.leaves && Reaches(f, NodeTIEID(NORTH, v), x) ==>
              FindNodeTIE(EntriesAt(f, lists, x), NORTH, v).Some?
  {
    hide Reaches, EntriesAt, NbrsOf, Above;
    Holds(f, lists, x, NodeTIEID(NORTH, v));
  }

  /** The admissible topology at a spine: its own links, and no link but from a spine to a leaf at cost 1. */
  lemma StarEdges(f: Net, lists: Lists, s: SystemID)
    requires f.Valid() && s in f.spines
    ensures var t := TopoOf(s, AdjsOf(f, s), EntriesAt(f, lists, s));
            && t.self == s && t.entries == EntriesAt(f, lists, s)
            && (forall v :: t.Edge(s, v) <==> v in Below(f, s))
            && (forall u, v :: t.Edge(u, v) ==> u in f.spines && v in f.leaves && t.Cost(u, v) == 1)
  {
    hide Reaches, EntriesAt, AdjsOf, FloodHop;
    var t := TopoOf(s, AdjsOf(f, s), EntriesAt(f, lists, s));
    AdjsUp(f, s);
    SpineSides(f, s);
    forall u, v | t.Edge(u, v) ensures u in f.spines && v in f.leaves && t.Cost(u, v) == 1 && f.Linked(u, v) {
      SouthNode(f, lists, s, u);
      SpineSides(f, u);
      assert v in Below(f, u);
      Bipartite(f, u, v);
    }
    forall v | v in Below(f, s) ensures t.Edge(s, v) { StarEdge(f, lists, s, v); }
  }

  lemma StarEdge(f: Net, lists: Lists, s: SystemID, v: SystemID)
    requires f.Valid() && s in f.spines && f.Linked(s, v)
    ensures TopoOf(s, AdjsOf(f, s), EntriesAt(f, lists, s)).Edge(s, v)
  {
    hide Reaches, EntriesAt, AdjsOf;
    Bipartite(f, s, v);
    AdjsUp(f, s);
    SpineSides(f, s);
    LeafSides(f, v);
    SouthNode(f, lists, s, s);
    NorthNode(f, lists, s, v);
    ReachesSelf(f, NodeTIEID(SOUTH, s));
    assert FloodHop(f, NodeTIEID(NORTH, v), v, s);
    ReachesNext(f, NodeTIEID(NORTH, v), s);
  }

  lemma StarSolves(t: Topo, f: Net, s: SystemID)
    requires t.self == s && s !in Below(f, s) && (forall v :: t.Edge(s, v) <==> v in Below(f, s))
    requires forall u, v :: t.Edge(u, v) ==> u in f.spines && v in f.leaves && t.Cost(u, v) == 1
    requires f.spines !! f.leaves && Below(f, s) <= f.leaves
    ensures Right(t, StarTree(f, s))
  {
    hide Topo.Edge, Topo.Cost;
    var tree := StarTree(f, s);
    var e: Links := set v | v in Below(f, s) :: (s, v);
    forall v | v in tree && v != s ensures Ids(tree[v].nextHops) == Inherited(t, tree, e, v) {
      assert tree[v].nextHops == [HopTo(v)];
      assert (s, v) in e && Tight(t, tree, (s, v));
      assert v in Contribution(t, tree, s, v);
      assert Ids([HopTo(v)]) == {v};
    }
    assert Solves(t, tree, e);
    assert Covers(t, tree, e);
    FlatMeasurable(t);
    SolvedIsExact(t, tree, e);
    ExactIsRight(t, tree);
  }

  lemma SpineComputes(f: Net, lists: Lists, s: SystemID)
    requires f.Valid() && s in f.spines
    ensures SouthboundResult(TopoOf(s, AdjsOf(f, s), EntriesAt(f, lists, s)), DirectHops(AdjsOf(f, s)), StarTree(f, s),
      SouthTable(f, s))
  {
    hide EntriesAt, AdjsOf, Right, BestTable, OffersFrom, Topo.Edge, Topo.Cost, IDs;
    var t := TopoOf(s, AdjsOf(f, s), EntriesAt(f, lists, s));
    StarEdges(f, lists, s);
    SpineSides(f, s);
    assert Below(f, s) <= f.leaves by { forall y | f.Linked(s, y) ensures y in f.leaves { Bipartite(f, s, y); } }
    StarSolves(t, f, s);
    SameOffers(f, lists, s);
    StarRecorded(f, lists, s);
  }

  lemma StarRecorded(f: Net, lists: Lists, s: SystemID)
    requires f.Valid() && s in f.spines
    ensures Recorded(TopoOf(s, AdjsOf(f, s), EntriesAt(f, lists, s)), DirectHops(AdjsOf(f, s)), StarTree(f, s))
  {
    hide EntriesAt, AdjsOf, Reaches;
    AdjsUp(f, s);
    SpineSides(f, s);
    forall v | v in Below(f, s)
      ensures NodeTIEID(NORTH, v) in EntriesAt(f, lists, s) && HopTo(v) in DirectHops(AdjsOf(f, s))
    {
      Bipartite(f, s, v);
      assert FloodHop(f, NodeTIEID(NORTH, v), v, s);
      ReachesNext(f, NodeTIEID(NORTH, v), s);
      Holds(f, lists, s, NodeTIEID(NORTH, v));
    }
  }

  // ---- Peers and disaggregation ----

  ghost function PeersOf(f: Net, s: SystemID): map<SystemID, set<SystemID>> {
    map p | p in f.spines && p != s
      && Reaches(f, NodeTIEID(SOUTH, p), s) :: PeerSouth(1, NodeElement(1, NbrsOf(f, Below(f, p)), None))
  }

  lemma PeersComputed(f: Net, lists: Lists, s: SystemID)
    requires s in f.spines
    ensures PeerTable(s, 1, EntriesAt(f, lists, s), PeersOf(f, s))
  {
    hide EntriesAt, Reaches, PeerSouth, NbrsOf, Below;
    var es := EntriesAt(f, lists, s);
    forall id | id in es && PeerTIE(s, 1, id, es[id]) ensures id.originator in PeersOf(f, s) {
      Holds(f, lists, s, id);
      assert id == NodeTIEID(SOUTH, id.originator);
    }
    forall p | p in PeersOf(f, s)
      ensures exists id :: id in es && PeerTIE(s, 1, id, es[id]) && id.originator == p && PeersOf(f, s)[p] ==
                PeerSouth(1, es[id].packet.element.node.value)
    {
      var id := NodeTIEID(SOUTH, p);
      Holds(f, lists, s, id);
      assert id in es && PeerTIE(s, 1, id, es[id]);
    }
  }

  ghost function WantedAt(f: Net, s: SystemID): set<DisaggPrefix> {
    Disaggregated(SouthNeighbors(1, AdjsOf(f, s)), PeersOf(f, s), SouthTable(f, s))
  }

  ghost function DisaggLists(f: Net): Lists { map s | s in f.spines :: ListOf(EntriesFor(WantedAt(f, s))) }

  // ---- A leaf's own computation ----

  ghost function LeastCost(ups: set<Uplink>): (c: Metric)
    requires ups != {}
    ensures IsMinCost(ups, c)
    decreases |ups|
  {
    var u := Pick(ups);
    var rest := ups - {u};
    if rest == {} then
      assert ups == {u};
      u.linkCost
    else
      var c := LeastCost(rest);
      assert forall w :: w in ups ==> w == u || w in rest;
      assert forall w :: w in rest ==> w in ups;
      if u.linkCost < c then u.linkCost else c
  }

  ghost function NorthTable(entries: map<TIEID, Entry>, ups: set<Uplink>): Table {
    if ups == {} then map[]
    else TableOf({DefaultOffer(LeastCost(ups), ListOf(HopsAtCost(ups, LeastCost(ups))))} + OffersOf(entries, ups))
  }

  lemma LeafComputes(entries: map<TIEID, Entry>, ups: set<Uplink>)
    ensures NorthboundResult(entries, ups, NorthTable(entries, ups))
  {
    hide BestTable, OffersOf, IsMinCost, HopsAtCost;
    if ups != {} {
      var cost := LeastCost(ups);
      var hops := ListOf(HopsAtCost(ups, cost));
      assert FilledFrom(entries, ups, NorthTable(entries, ups), cost, hops);
    }
  }

  // ---- The whole ----

  ghost function NodeAt(f: Net, x: SystemID): Node {
    var adjs, entries := AdjsOf(f, x), EntriesAt(f, DisaggLists(f), x);
    if x in f.spines then Node(adjs, entries, StarTree(f, x), SouthTable(f, x), PeersOf(f, x), map[])
    else Node(adjs, entries, map[], map[], map[], NorthTable(entries, Uplinks(x, 0, adjs, entries)))
  }

  lemma OwnHeld(f: Net, x: SystemID, id: TIEID)
    requires IsID(f, id) && id.originator == x
    ensures id in EntriesAt(f, DisaggLists(f), x)
    ensures EntriesAt(f, DisaggLists(f), x)[id].packet.element == ContentOf(f, DisaggLists(f), id)
  {
    hide EntriesAt, IsID, Reaches, DisaggLists, ContentOf;
    ReachesSelf(f, id);
    Holds(f, DisaggLists(f), x, id);
  }

  lemma NeighborsListed(f: Net, x: SystemID, kept: set<string>, ys: set<SystemID>)
    requires forall k :: k in kept ==> k in AdjsOf(f, x) && AdjsOf(f, x)[k].neighborID in ys
    requires forall k :: k in AdjsOf(f, x) && AdjsOf(f, x)[k].neighborID in ys ==> k in kept
    requires ys <= Above(f, x) + Below(f, x)
    ensures NeighborsOf(AdjsOf(f, x), kept, NbrsOf(f, ys))
  {
    hide AdjsOf, Above, Below;
    var adjs := AdjsOf(f, x);
    AdjsAre(f, x);
    forall n | n in NbrsOf(f, ys)
      ensures exists k :: k in kept && k in adjs && adjs[k].neighborID == n && NbrsOf(f, ys)[n] == NeighborOf(adjs[k])
    {
      assert HasNeighbor(adjs, n);
      var k :| k in adjs && adjs[k].neighborID == n;
      assert k in kept && adjs[k] == InfoOf(f, n);
    }
  }

  lemma AdjsAre(f: Net, x: SystemID)
    ensures AdjacentTo(f, AdjsOf(f, x), Above(f, x) + Below(f, x))
  {
  }

  /** Above and below are told apart by level. */
  lemma SidesByLevel(f: Net, x: SystemID)
    requires f.Valid() && x in f.spines + f.leaves
    ensures NeighborsOf(AdjsOf(f, x), Northward(f.LevelOf(x), AdjsOf(f, x)), NbrsOf(f, Above(f, x)))
    ensures NeighborsOf(AdjsOf(f, x), Southward(f.LevelOf(x), AdjsOf(f, x)), NbrsOf(f, Below(f, x)))
  {
    hide AdjsOf, NeighborsOf, NbrsOf;
    AdjsAre(f, x);
    NeighborsListed(f, x, Northward(f.LevelOf(x), AdjsOf(f, x)), Above(f, x));
    NeighborsListed(f, x, Southward(f.LevelOf(x), AdjsOf(f, x)), Below(f, x));
  }

  lemma NorthOriginated(f: Net, x: SystemID)
    requires f.Valid() && x in f.spines + f.leaves
    ensures var n, level := NodeAt(f, x), f.LevelOf(x);
            && OwnID(NORTH, x, NODE_TIE) in n.entries
            && NorthNodeContent(level, n.adjs, n.entries[OwnID(NORTH, x, NODE_TIE)].packet.element)
            && x in f.local
            && OwnID(NORTH, x, PREFIX_TIE) in n.entries
            && n.entries[OwnID(NORTH, x, PREFIX_TIE)].packet.element == NorthPrefixContent(f.local[x])
  {
    hide AdjsOf, NeighborsOf, EntriesAt, NbrsOf, DisaggLists, SouthTable, PeersOf, NorthTable, StarTree, Above, Below,
      Uplinks, NorthPrefixContent;
    SidesByLevel(f, x);
    OwnHeld(f, x, OwnID(NORTH, x, NODE_TIE));
    OwnHeld(f, x, OwnID(NORTH, x, PREFIX_TIE));
  }

  lemma SouthOriginated(f: Net, x: SystemID)
    requires f.Valid() && x in f.spines
    ensures var n := NodeAt(f, x);
            && OwnID(SOUTH, x, NODE_TIE) in n.entries
            && SouthNodeContent(1, n.adjs, n.entries[OwnID(SOUTH, x, NODE_TIE)].packet.element)
            && OwnID(SOUTH, x, PREFIX_TIE) in n.entries
            && n.entries[OwnID(SOUTH, x, PREFIX_TIE)].packet.element == SouthPrefixContent()
  {
    hide AdjsOf, NeighborsOf, EntriesAt, NbrsOf, DisaggLists, SouthTable, PeersOf, NorthTable, StarTree, Above, Below,
      Uplinks;
    SidesByLevel(f, x);
    OwnHeld(f, x, OwnID(SOUTH, x, NODE_TIE));
    OwnHeld(f, x, OwnID(SOUTH, x, PREFIX_TIE));
  }

  lemma HeldForms(f: Net, x: SystemID, id: TIEID)
    requires id in NodeAt(f, x).entries
    ensures IsID(f, id)
  {
    hide AdjsOf, EntriesAt, DisaggLists, SouthTable, PeersOf, NorthTable, StarTree, Reaches, Uplinks, IsID;
    Holds(f, DisaggLists(f), x, id);
  }

  lemma OriginatedAt(f: Net, x: SystemID)
    requires f.Valid() && x in f.spines + f.leaves
    ensures Originated(f, x, NodeAt(f, x))
  {
    hide NodeAt, NorthNodeContent, SouthNodeContent, DisaggOriginated, NorthPrefixContent, SouthPrefixContent,
      Net.Valid;
    forall id | id in NodeAt(f, x).entries ensures IsID(f, id) { HeldForms(f, x, id); }
    NorthOriginated(f, x);
    if x in f.spines {
      SouthOriginated(f, x);
      DisaggHeld(f, x);
    }
  }

  lemma DisaggHeld(f: Net, s: SystemID)
    requires s in f.spines
    ensures DisaggOriginated(s, NodeAt(f, s))
  {
    hide AdjsOf, EntriesAt, SouthTable, PeersOf, StarTree, Disaggregated, EntriesFor;
    OwnHeld(f, s, OwnID(SOUTH, s, POS_DISAGG_TIE));
    var list := DisaggLists(f)[s];
    assert Elements(list) == EntriesFor(WantedAt(f, s));
    assert forall pe :: pe in list <==> pe in Elements(list);
    assert NodeAt(f, s).entries[OwnID(SOUTH, s, POS_DISAGG_TIE)].packet.element == DisaggContent(list);
  }

  lemma SettledAt(f: Net, x: SystemID)
    requires f.Valid() && x in f.spines + f.leaves
    ensures Settled(f, x, NodeAt(f, x))
  {
    hide AdjsOf, EntriesAt, DisaggLists, SouthTable, PeersOf, NorthTable, StarTree, Uplinks, Originated, AdjacenciesUp,
      SouthboundResult, NorthboundResult, PeerTable, IDs;
    AdjsUp(f, x);
    OriginatedAt(f, x);
    var entries := EntriesAt(f, DisaggLists(f), x);
    if x in f.spines {
      SpineComputes(f, DisaggLists(f), x);
      PeersComputed(f, DisaggLists(f), x);
    } else {
      LeafComputes(entries, Uplinks(x, 0, AdjsOf(f, x), entries));
    }
  }

  lemma FloodedEverywhere(f: Net, nodes: Nodes)
    requires nodes == map x | x in f.spines + f.leaves :: NodeAt(f, x)
    ensures Flooded(f, nodes)
  {
    hide AdjsOf, EntriesAt, DisaggLists, SouthTable, PeersOf, NorthTable, StarTree, Uplinks, Reaches;
    forall x, id | x in nodes
      ensures id in nodes[x].entries <==>
                id.originator in nodes && id in nodes[id.originator].entries && Reaches(f, id, x)
      ensures id in nodes[x].entries ==>
                nodes[x].entries[id].packet.element == nodes[id.originator].entries[id].packet.element
    {
      Holds(f, DisaggLists(f), x, id);
      Holds(f, DisaggLists(f), id.originator, id);
      ReachesSelf(f, id);
    }
  }

  /** Every valid two-level fabric has a converged state. */
  lemma ConvergedExists(f: Net) returns (nodes: Nodes)
    requires f.Valid()
    ensures Converged(f, nodes)
  {
    hide NodeAt, Settled, Flooded, IDs, Net.Valid;
    nodes := map x | x in f.spines + f.leaves :: NodeAt(f, x);
    FloodedEverywhere(f, nodes);
    forall x | x in nodes ensures Settled(f, x, nodes[x]) { SettledAt(f, x); }
  }

  // ---- One broken link ----

  /**
   * Two spines, two leaves, and no link between the second spine and the second leaf, which attaches 10.0.0.2 with the
   * given prefix length. Nothing on the way checks the length.
   */
  function BrokenLink(len: int): Net {
    Net({10, 11}, {1, 2}, {(10, 1), (10, 2), (11, 1)},
        map[1 := [], 2 := [LocalPrefix(IPv4(0x0A00_0002, len), true, 1)], 10 := [], 11 := []])
  }

  lemma BrokenLinkConverges(len: int) returns (nodes: Nodes)
    ensures Converged(BrokenLink(len), nodes)
  {
    hide Converged;
    nodes := ConvergedExists(BrokenLink(len));
  }

  lemma BrokenLinkFacts(len: int, p: string)
    requires p == PrefixToString(IPv4(0x0A00_0002, len)) && p != ""
    ensures BrokenLink(len).Linked(10, 2) && (forall v :: BrokenLink(len).Linked(11, v) ==> v == 1)
    ensures Advertises(BrokenLink(len), 2, p) && !Advertises(BrokenLink(len), 1, p)
  {
    hide PrefixToString;
    var f := BrokenLink(len);
    assert f.local[2][0] in f.local[2];
  }

  /** Spine 10 reaches the prefix of leaf 2, spine 11 does not. */
  lemma BrokenLinkTables(len: int, nodes: Nodes, p: string)
    requires Converged(BrokenLink(len), nodes) && p == PrefixToString(IPv4(0x0A00_0002, len)) && p != ""
    ensures 1 in nodes && 10 in nodes && 11 in nodes && p in nodes[10].south && p !in nodes[11].south
  {
    hide Converged, PrefixToString, Advertises, Net.Linked;
    var f := BrokenLink(len);
    NetIsBipartite(f, nodes);
    SpineRoutes(f, nodes, 10);
    SpineRoutes(f, nodes, 11);
    BrokenLinkFacts(len, p);
  }

  /**
   * The hypotheses of the disaggregation theorem are met for every length. Leaf 1 reaches the prefix, through spine 10
   * alone, exactly for the lengths 0 to 32.
   */
  lemma BrokenLinkExactly(len: int) returns (nodes: Nodes, p: string)
    ensures Converged(BrokenLink(len), nodes) && 1 in nodes && 10 in nodes && 11 in nodes
    ensures p in nodes[10].south && p !in nodes[11].south && p != DEFAULT_ROUTE
    ensures p in nodes[1].rib <==> 0 <= len <= 32
    ensures p in nodes[1].rib ==> Ids(nodes[1].rib[p].nextHops) == {10}
  {
    hide Converged, PrefixToString, StringToPrefix, Advertises;
    nodes := BrokenLinkConverges(len);
    p := PrefixToString(IPv4(0x0A00_0002, len));
    StringRoundTrip(0x0A00_0002, len);
    KeyFormatted(0x0A00_0002, len);
    NotDefault(p);
    BrokenLinkTables(len, nodes, p);
    NoBlackHole(BrokenLink(len), nodes, 1, 10, 11, p);
    if p in nodes[1].rib { OnlyTen(BrokenLink(len), len, nodes, p); }
  }

  /** The link is repaired for the leaf's host route. */
  lemma BrokenLinkRepaired() returns (nodes: Nodes, p: string)
    ensures Converged(BrokenLink(32), nodes) && 1 in nodes && 10 in nodes && 11 in nodes
    ensures p in nodes[10].south && p !in nodes[11].south && p != DEFAULT_ROUTE
    ensures p in nodes[1].rib && Ids(nodes[1].rib[p].nextHops) == {10}
  {
    hide Converged;
    nodes, p := BrokenLinkExactly(32);
  }

  /** A length of 33 is attached by leaf 2 and routed by spine 10, and lost for leaf 1. */
  lemma LongPrefixLost() returns (nodes: Nodes, p: string)
    ensures Converged(BrokenLink(33), nodes) && 1 in nodes && 10 in nodes && 11 in nodes
    ensures p in nodes[10].south && p !in nodes[11].south && p != DEFAULT_ROUTE && p !in nodes[1].rib
  {
    hide Converged;
    nodes, p := BrokenLinkExactly(33);
  }

  lemma KeyFormatted(address: int, len: int)
    requires MIN32 <= address <= MAX32
    ensures PrefixToString(IPv4(address, len)) != ""
  {
    hide AddressString, FormatInt;
  }

  lemma NotDefault(p: string)
    requires StringToPrefix(p) == NotIPv4 || StringToPrefix(p).address == 0x0A00_0002
    ensures p != DEFAULT_ROUTE
  {
    hide StringToPrefix, PrefixToString;
    StringRoundTrip(0, 0);
    DefaultKey();
  }

  lemma OnlyTen(f: Net, len: int, nodes: Nodes, p: string)
    requires f == BrokenLink(len) && 10 in nodes && 11 in nodes && 1 in nodes && p in nodes[1].rib
    requires Ids(nodes[1].rib[p].nextHops) != {}
    requires forall s :: s in Ids(nodes[1].rib[p].nextHops) ==> s in f.spines && p in nodes[s].south
    requires p !in nodes[11].south
    ensures Ids(nodes[1].rib[p].nextHops) == {10}
  {
    var ids := Ids(nodes[1].rib[p].nextHops);
    var s := Pick(ids);
    assert forall x :: x in ids ==> x == 10;
  }
}
