/** Engine.Run: the merge of the two tables over shared Route objects. */
module SpfEngine {
  import opened RiftTypes
  import opened Routes
  import opened Graph
  import opened Southbound
  import opened Northbound

  /** The result of merging: every south route as it was, north routes only at the other prefixes. */
  function MergedTables(south: Table, north: Table): Table { north + south }

  class Engine {
    const systemID: SystemID
    const level: Level
    var rib: Rib
    var southRIB: Rib?

    constructor (systemID: SystemID, level: Level)
      ensures this.systemID == systemID && this.level == level
    {
      this.systemID, this.level := systemID, level;
      rib := new Rib();
      southRIB := null;
    }

    /**
     * A full computation. A leaf keeps the north table; any other node merges, and although both of its
     * tables hold the same Route objects at south prefixes, merging writes to none of them.
     */
    method Run(entries: map<TIEID, Entry>, adjacencies: map<string, AdjacencyInfo>)
      returns (ghost tree: Tree, ghost north: Table)
      modifies this
      ensures fresh(rib) && rib.Valid()
      ensures NorthboundResult(entries, Uplinks(systemID, level, adjacencies, entries), north)
      ensures level == LEAF_LEVEL ==> southRIB == null && rib.View() == north
      ensures level != LEAF_LEVEL ==>
                && southRIB != null && fresh(southRIB) && southRIB.Valid()
                && SouthboundResult(TopoOf(systemID, adjacencies, entries), DirectHops(adjacencies), tree,
                  southRIB.View())
                && rib.View() == MergedTables(southRIB.View(), north)
                && (forall p :: p in southRIB.routes ==> p in rib.routes && rib.routes[p] == southRIB.routes[p])
                && rib.View().Keys == southRIB.View().Keys + north.Keys
                && forall p :: p in north && p !in southRIB.View() ==> rib.View()[p] == north[p]
    {
      hide SouthboundResult, NorthboundResult, MergedTables, AllOfType, TopoOf, DirectHops, Uplinks, Rib.View,
        Rib.Valid;
      tree := map[];
      if level == LEAF_LEVEL {
        var computed := ComputeNorthbound(systemID, level, adjacencies, entries);
        rib, southRIB, north := computed, null, computed.View();
      } else {
        var south: Rib;
        south, tree := ComputeSouthbound(systemID, adjacencies, entries);
        var northRIB := ComputeNorthbound(systemID, level, adjacencies, entries);
        north := northRIB.View();
        SouthTypes(TopoOf(systemID, adjacencies, entries), DirectHops(adjacencies), tree, south.View());
        NorthTypes(entries, Uplinks(systemID, level, adjacencies, entries), north);
        var merged := MergeTables(south, northRIB);
        BothMerged(south.View(), north);
        rib, southRIB := merged, south;
      }
    }
  }

  lemma BothMerged(south: Table, north: Table)
    ensures MergedTables(south, north).Keys == south.Keys + north.Keys
    ensures forall p :: p in north && p !in south ==> MergedTables(south, north)[p] == north[p]
  {
  }

  lemma SouthTypes(t: Topo, hops: set<NextHop>, tree: Tree, table: Table)
    requires SouthboundResult(t, hops, tree, table)
    ensures AllOfType(table, ROUTE_NORTH_PREFIX)
  {
    hide ListOffers;
    var offers := OffersFrom(t.entries, tree, tree.Keys - {t.self});
    forall p | p in table ensures table[p].routeType == ROUTE_NORTH_PREFIX {
      assert Offered(table[p], offers, p);
      var o :| o in offers && o.prefix == p && SameRank(o.route, table[p]);
      var v :| v in tree && o in NodeOffers(t.entries, tree, v);
      var lists := PrefixLists(t.entries, NORTH, v, PREFIX_TIE);
      assert NodeOffers(t.entries, tree, v) == ListOffers(lists, tree[v].distance, ROUTE_NORTH_PREFIX,
        tree[v].nextHops);
      var pt, pe := ListSource(o, PrefixLists(t.entries, NORTH, v, PREFIX_TIE), tree[v].distance, ROUTE_NORTH_PREFIX,
                               tree[v].nextHops);
    }
  }

  lemma NorthTypes(entries: map<TIEID, Entry>, ups: set<Uplink>, table: Table)
    requires NorthboundResult(entries, ups, table)
    ensures AllOfType(table, ROUTE_SOUTH_PREFIX)
  {
    hide UplinkOffers, IsMinCost, HopsAtCost;
    if ups != {} {
      var cost, hops :| IsMinCost(ups, cost) && Elements(hops) == HopsAtCost(ups, cost)
        && FilledFrom(entries, ups, table, cost, hops);
      var offers := {DefaultOffer(cost, hops)} + OffersOf(entries, ups);
      forall p | p in table ensures table[p].routeType == ROUTE_SOUTH_PREFIX {
        assert Offered(table[p], offers, p);
        var o :| o in offers && o.prefix == p && SameRank(o.route, table[p]);
        if o != DefaultOffer(cost, hops) {
          var u :| u in ups && o in UplinkOffers(entries, u);
          OneHop(entries, u, o);
        }
      }
    }
  }

  ghost predicate AllOfType(table: Table, routeType: int) {
    forall p :: p in table ==> table[p].routeType == routeType
  }

  function Without(table: Table, todo: set<string>): Table { table - todo }

  lemma MergeStep(south: Table, north: Table, todo: set<string>, p: string)
    requires AllOfType(south, ROUTE_NORTH_PREFIX) && AllOfType(north, ROUTE_SOUTH_PREFIX)
    requires p in north && p in todo
    ensures AddOne(MergedTables(south, Without(north, todo)), Offer(p, north[p])) ==
              MergedTables(south, Without(north, todo - {p}))
    ensures p in south ==> !Better(north[p], south[p]) && !SameRank(north[p], south[p])
  {
  }

  /** A table of the same Route objects. */
  method CopyRoutes(south: Rib) returns (rib: Rib)
    requires south.Valid()
    ensures fresh(rib) && rib.Valid() && rib.routes == south.routes && rib.View() == south.View()
  {
    rib := new Rib();
    rib.routes := south.routes;
  }

  /** The copy of the south table's pointers, and the loop that adds the north routes to it. */
  method MergeTables(south: Rib, north: Rib) returns (rib: Rib)
    requires south.Valid() && north.Valid()
    requires AllOfType(south.View(), ROUTE_NORTH_PREFIX) && AllOfType(north.View(), ROUTE_SOUTH_PREFIX)
    ensures fresh(rib) && rib.Valid()
    ensures rib.View() == MergedTables(south.View(), north.View())
    ensures forall p :: p in south.routes ==> p in rib.routes && rib.routes[p] == south.routes[p]
  {
    hide AddOne, AllOfType, Better, SameRank, MergedTables;
    rib := CopyRoutes(south);
    ghost var southView, northView := south.View(), north.View();
    var todo := north.routes.Keys;
    CopyView(southView, northView);
    while todo != {}
      invariant todo <= north.routes.Keys
      invariant rib.Valid()
      invariant forall p :: p in south.routes ==> p in rib.routes && rib.routes[p] == south.routes[p]
      invariant rib.View() == MergedTables(southView, Without(northView, todo))
    {
      var p :| p in todo;
      MergeOne(rib, p, north.routes[p].val, southView, northView, todo);
      todo := todo - {p};
    }
    assert Without(northView, {}) == northView;
  }

  /** One turn of the loop. */
  method MergeOne(rib: Rib, p: string, val: RouteVal, ghost south: Table, ghost north: Table, ghost todo: set<string>)
    requires AllOfType(south, ROUTE_NORTH_PREFIX) && AllOfType(north, ROUTE_SOUTH_PREFIX)
    requires p in todo && p in north && north[p] == val
    requires rib.Valid() && rib.View() == MergedTables(south, Without(north, todo))
    modifies rib
    ensures rib.Valid() && rib.View() == MergedTables(south, Without(north, todo - {p}))
    ensures forall q :: q in old(rib.routes) ==> q in rib.routes && rib.routes[q] == old(rib.routes[q])
  {
    hide AddOne, AllOfType, Better, SameRank, MergedTables;
    MergeStep(south, north, todo, p);
    MergedLookup(south, north, todo, p);
    assert rib.routes.Keys == rib.View().Keys;
    AddNorth(rib, p, val);
  }

  // Adds a route that writes to no existing object.
  method AddNorth(rib: Rib, p: string, val: RouteVal)
    requires rib.Valid() && (p in rib.routes ==> !Better(val, rib.routes[p].val) && !SameRank(val, rib.routes[p].val))
    modifies rib
    ensures rib.Valid() && rib.View() == AddOne(old(rib.View()), Offer(p, val))
    ensures forall q :: q in old(rib.routes) ==> q in rib.routes && rib.routes[q] == old(rib.routes[q])
  {
    rib.AddRoute(p, val.metric, val.routeType, val.nextHops);
  }

  lemma CopyView(south: Table, north: Table)
    ensures MergedTables(south, Without(north, north.Keys)) == south
  {
  }

  lemma MergedLookup(south: Table, north: Table, todo: set<string>, p: string)
    requires p in todo
    ensures p in MergedTables(south, Without(north, todo)) <==> p in south
    ensures p in south ==> MergedTables(south, Without(north, todo))[p] == south[p]
  {
  }
}
