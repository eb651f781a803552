/** Links, attached prefixes, uplinks and north routes in terms of the entries they come from. */
module SpfExact {
  import opened RiftTypes
  import opened Prefixes
  import opened Routes
  import opened Graph
  import opened Southbound
  import opened Northbound

  /** The Node TIE (2, number 1) of an originator in a direction holds n. */
  predicate Published(entries: map<TIEID, Entry>, dir: int, originator: SystemID, n: NodeElement) {
    TIEID(dir, originator, 2, 1) in entries && entries[TIEID(dir, originator, 2, 1)].packet.element.node == Some(n)
  }

  /**
   * A link southward: the South Node TIE (1) of u, not overloaded, lists v below u's level, the North Node TIE (2) of v
   * lists u back, and if u is ourselves we have an adjacency with v. It costs what u says, or 1.
   */
  lemma LinkExactly(t: Topo, u: SystemID, v: SystemID)
    ensures t.Edge(u, v) <==>
              && (u == t.self ==> v in t.adjacent)
              && exists a, b ::
                   && Published(t.entries, 1, u, a) && Published(t.entries, 2, v, b)
                   && a.overload != Some(true) && v in a.neighbors && a.neighbors[v].level < a.level
                   && u in b.neighbors
    ensures t.Edge(u, v) ==> exists a :: Published(t.entries, 1, u, a) && v in a.neighbors &&
                                         t.Cost(u, v) == match a.neighbors[v].cost case Some(c) => c case None => 1
  {
    if t.Edge(u, v) {
      var a, b := FindNodeTIE(t.entries, 1, u).value, FindNodeTIE(t.entries, 2, v).value;
      assert Published(t.entries, 1, u, a) && Published(t.entries, 2, v, b);
    }
  }

  /** No path goes on from a node that says it is overloaded. */
  lemma OverloadedIsTerminal(t: Topo, path: seq<SystemID>, i: nat, n: NodeElement)
    requires IsPath(t, path) && i < |path| && Published(t.entries, 1, path[i], n) && n.overload == Some(true)
    ensures i == |path| - 1
  {
    hide Topo.Edge;
    assert i < |path| - 1 ==> t.Edge(path[i], path[i + 1]);
    Terminal(t, path[i]);
  }

  /** The prefix lists an originator stores under a type, each with one of its entries. */
  ghost predicate Holds(entries: map<TIEID, Entry>, dir: int, originator: SystemID, tieType: int, pe: PrefixEntry) {
    exists id :: && id in entries && id.direction == dir && id.originator == originator && id.tieType == tieType
                 && var e := entries[id].packet.element;
                 && if tieType == 3 then e.prefixes.Some? && pe in e.prefixes.value
                    else e.posDisagg.Some? && pe in e.posDisagg.value
  }

  lemma HeldList(entries: map<TIEID, Entry>, dir: int, originator: SystemID, tieType: int, pe: PrefixEntry)
    requires tieType == 3 || tieType == 4
    ensures Holds(entries, dir, originator, tieType, pe) <==>
              exists pt :: pt in PrefixLists(entries, dir, originator, tieType) && pe in pt
  {
    hide PrefixLists;
    forall pt { PrefixListsExactly(entries, dir, originator, tieType, pt); }
    if Holds(entries, dir, originator, tieType, pe) {
      var id :| && id in entries && id.direction == dir && id.originator == originator && id.tieType == tieType
                && var e := entries[id].packet.element;
                && if tieType == 3 then e.prefixes.Some? && pe in e.prefixes.value
                   else e.posDisagg.Some? && pe in e.posDisagg.value;
      var pt := if tieType == 3 then entries[id].packet.element.prefixes.value
        else entries[id].packet.element.posDisagg.value;
      assert pt in PrefixLists(entries, dir, originator, tieType);
    }
  }

  /** v attaches p: a North Prefix TIE (2, 3) of v lists it, at the listed metric plus the distance, as int32. */
  lemma AttachesExactly(t: Topo, v: SystemID, d: Metric, p: string, metric: Metric)
    ensures Attaches(t, v, d, p, metric) <==>
              && v != t.self && p != ""
              && (exists path :: Shortest(t, path, v) && PathCost(t, path) == d)
              && exists pe :: && Holds(t.entries, 2, v, 3, pe) && PrefixToString(pe.prefix) == p
                              && metric == Wrap32(pe.metric + d)
  {
    hide PrefixToString, Wrap32, Shortest, PathCost, PrefixLists, Holds;
    forall pe { HeldList(t.entries, 2, v, 3, pe); }
    if Attaches(t, v, d, p, metric) {
      var pt, pe :| pt in PrefixLists(t.entries, 2, v, 3) && pe in pt && PrefixToString(pe.prefix) == p
        && metric == Wrap32(pe.metric + d);
      assert Holds(t.entries, 2, v, 3, pe);
    }
  }

  /** The next hops of the adjacencies: identity, address and interface. */
  lemma DirectExactly(adjacencies: map<string, AdjacencyInfo>, nh: NextHop)
    ensures nh in DirectHops(adjacencies) <==>
              exists k :: k in adjacencies && nh == NextHop(adjacencies[k].neighborID, adjacencies[k].neighborAddr,
                                                            adjacencies[k].ifName)
  {
  }

  // ---- Northbound ----

  /**
   * An uplink: an adjacency to a higher node whose South Node TIE (1) lists us. It costs what our own North Node TIE
   * (2) says of that neighbour, or 1.
   */
  lemma UplinkExactly(self: SystemID, level: Level, adjs: map<string, AdjacencyInfo>, entries: map<TIEID, Entry>,
                      u: Uplink)
    ensures u in Uplinks(self, level, adjs, entries) <==>
              exists k, n :: && k in adjs && adjs[k].neighborLevel > level
                             && Published(entries, 1, adjs[k].neighborID, n) && self in n.neighbors
                             && u.nextHop == NextHop(adjs[k].neighborID, adjs[k].neighborAddr, adjs[k].ifName)
                             && u.linkCost == CostToward(self, entries, adjs[k].neighborID)
  {
    hide CostToward, UplinkCost;
    forall n { TowardIsUplinkCost(self, entries, n); }
    if u in Uplinks(self, level, adjs, entries) {
      var k :| k in adjs && Validated(self, level, entries, adjs[k]) && u == UplinkOf(self, entries, adjs[k]);
      assert Published(entries, 1, adjs[k].neighborID, FindNodeTIE(entries, 1, adjs[k].neighborID).value);
    }
    if k, n :| && k in adjs && adjs[k].neighborLevel > level
               && Published(entries, 1, adjs[k].neighborID, n) && self in n.neighbors
               && u.nextHop == NextHop(adjs[k].neighborID, adjs[k].neighborAddr, adjs[k].ifName)
               && u.linkCost == CostToward(self, entries, adjs[k].neighborID) {
      assert Validated(self, level, entries, adjs[k]) && u == UplinkOf(self, entries, adjs[k]);
    }
  }

  function CostToward(self: SystemID, entries: map<TIEID, Entry>, n: SystemID): Metric {
    var own := TIEID(2, self, 2, 1);
    if own in entries && entries[own].packet.element.node.Some? && n in entries[own].packet.element.node.value.neighbors
    then match entries[own].packet.element.node.value.neighbors[n].cost case Some(c) => c case None => 1
    else 1
  }

  lemma TowardIsUplinkCost(self: SystemID, entries: map<TIEID, Entry>, n: SystemID)
    ensures CostToward(self, entries, n) == UplinkCost(self, entries, n)
  {
  }

  /** A South Prefix TIE (1, 3) or a disaggregation TIE (1, 4) of an uplink's neighbour brings p at total metric k. */
  ghost predicate Brings(entries: map<TIEID, Entry>, u: Uplink, p: string, k: Metric) {
    exists pe :: && (Holds(entries, 1, u.nextHop.id, 3, pe) || Holds(entries, 1, u.nextHop.id, 4, pe))
                 && PrefixToString(pe.prefix) == p && p != "" && k == Wrap32(pe.metric + u.linkCost)
  }

  lemma OfferBrings(entries: map<TIEID, Entry>, u: Uplink, o: Offer)
    ensures o in UplinkOffers(entries, u) <==>
              Brings(entries, u, o.prefix, o.route.metric)
              && o.route == RouteVal(o.route.metric, ROUTE_SOUTH_PREFIX, [u.nextHop])
  {
    hide PrefixToString, Wrap32, PrefixLists, Holds;
    var plain, disagg := PrefixLists(entries, 1, u.nextHop.id, 3), PrefixLists(entries, 1, u.nextHop.id, 4);
    if o in ListOffers(plain, u.linkCost, ROUTE_SOUTH_PREFIX, [u.nextHop]) {
      var pt, pe := ListSource(o, plain, u.linkCost, ROUTE_SOUTH_PREFIX, [u.nextHop]);
      HeldList(entries, 1, u.nextHop.id, 3, pe);
    }
    if o in ListOffers(disagg, u.linkCost, ROUTE_SOUTH_PREFIX, [u.nextHop]) {
      var pt, pe := ListSource(o, disagg, u.linkCost, ROUTE_SOUTH_PREFIX, [u.nextHop]);
      HeldList(entries, 1, u.nextHop.id, 4, pe);
    }
    if Brings(entries, u, o.prefix, o.route.metric)
       && o.route == RouteVal(o.route.metric, ROUTE_SOUTH_PREFIX, [u.nextHop]) {
      var pe :| && (Holds(entries, 1, u.nextHop.id, 3, pe) || Holds(entries, 1, u.nextHop.id, 4, pe))
                && PrefixToString(pe.prefix) == o.prefix && o.prefix != ""
                && o.route.metric == Wrap32(pe.metric + u.linkCost);
      HeldList(entries, 1, u.nextHop.id, 3, pe);
      HeldList(entries, 1, u.nextHop.id, 4, pe);
      assert o == EntryOffer(pe, u.linkCost, ROUTE_SOUTH_PREFIX, [u.nextHop]);
    }
  }

  lemma NorthOffers(entries: map<TIEID, Entry>, ups: set<Uplink>, table: Table) returns (offers: set<Offer>)
    requires NorthboundResult(entries, ups, table) && ups != {}
    ensures BestTable(table, offers)
    ensures forall o: Offer :: o.prefix != DEFAULT_ROUTE ==>
              (o in offers <==> exists u :: u in ups && o in UplinkOffers(entries, u))
  {
    hide UplinkOffers, IsMinCost, HopsAtCost, BestTable;
    var cost, hops :| IsMinCost(ups, cost) && Elements(hops) == HopsAtCost(ups, cost)
      && FilledFrom(entries, ups, table, cost, hops);
    offers := {DefaultOffer(cost, hops)} + OffersOf(entries, ups);
  }

  ghost predicate Standing(entries: map<TIEID, Entry>, ups: set<Uplink>, o: Offer) {
    && o.route.routeType == ROUTE_SOUTH_PREFIX && |o.route.nextHops| == 1
    && exists u :: u in ups && o.route.nextHops[0] == u.nextHop && Brings(entries, u, o.prefix, o.route.metric)
  }

  lemma AllStanding(entries: map<TIEID, Entry>, ups: set<Uplink>, p: string, offers: set<Offer>)
    requires forall o: Offer :: o.prefix != DEFAULT_ROUTE ==>
               (o in offers <==> exists u :: u in ups && o in UplinkOffers(entries, u))
    requires p != DEFAULT_ROUTE
    ensures forall o :: o in offers && o.prefix == p ==> Standing(entries, ups, o)
    ensures forall u, k :: u in ups && Brings(entries, u, p, k) ==>
              Offer(p, RouteVal(k, ROUTE_SOUTH_PREFIX, [u.nextHop])) in offers
  {
    hide UplinkOffers, Brings;
    forall o | o in offers && o.prefix == p ensures Standing(entries, ups, o) {
      var u :| u in ups && o in UplinkOffers(entries, u);
      OfferBrings(entries, u, o);
    }
    forall u, k | u in ups && Brings(entries, u, p, k)
      ensures Offer(p, RouteVal(k, ROUTE_SOUTH_PREFIX, [u.nextHop])) in offers
    {
      OfferBrings(entries, u, Offer(p, RouteVal(k, ROUTE_SOUTH_PREFIX, [u.nextHop])));
    }
  }

  lemma StandsOrYields(entries: map<TIEID, Entry>, ups: set<Uplink>, table: Table, p: string, offers: set<Offer>,
                       u: Uplink, k: Metric)
    requires BestTable(table, offers) && Offer(p, RouteVal(k, ROUTE_SOUTH_PREFIX, [u.nextHop])) in offers
    requires forall o :: o in offers && o.prefix == p ==> Standing(entries, ups, o)
    ensures p in table && table[p].metric <= k
    ensures table[p].metric == k ==> u.nextHop.id in Ids(table[p].nextHops)
  {
    hide Brings, Ids, IdsAt;
    var o := Offer(p, RouteVal(k, ROUTE_SOUTH_PREFIX, [u.nextHop]));
    assert Offered(table[p], offers, p);
    var best :| best in offers && best.prefix == p && SameRank(best.route, table[p]);
    assert Standing(entries, ups, best);
    if table[p].metric == k { HopOffered(table[p], offers, p, o, u.nextHop); }
  }

  lemma HopOffered(r: RouteVal, offers: set<Offer>, p: string, o: Offer, nh: NextHop)
    requires Offered(r, offers, p) && o in offers && o.prefix == p && SameRank(o.route, r) && nh in o.route.nextHops
    ensures nh.id in Ids(r.nextHops)
  {
    assert nh.id in IdsAt(offers, p, r);
  }

  /** Every next hop of the route is an uplink that brings the prefix at the route's metric. */
  lemma HopBrings(entries: map<TIEID, Entry>, ups: set<Uplink>, r: RouteVal, p: string, offers: set<Offer>, nh: NextHop)
    requires Offered(r, offers, p) && nh in r.nextHops
    requires forall o :: o in offers && o.prefix == p ==> Standing(entries, ups, o)
    ensures exists u :: u in ups && u.nextHop == nh && Brings(entries, u, p, r.metric)
  {
    hide Brings;
    var o :| o in offers && o.prefix == p && SameRank(o.route, r) && nh in o.route.nextHops;
    assert Standing(entries, ups, o);
  }

  lemma RouteHasHop(entries: map<TIEID, Entry>, ups: set<Uplink>, r: RouteVal, p: string, offers: set<Offer>)
    requires Offered(r, offers, p)
    requires forall o :: o in offers && o.prefix == p ==> Standing(entries, ups, o)
    ensures r.nextHops != [] && r.routeType == ROUTE_SOUTH_PREFIX
  {
    hide Brings;
    var o :| o in offers && o.prefix == p && SameRank(o.route, r);
    assert Standing(entries, ups, o);
    HopOffered(r, offers, p, o, o.route.nextHops[0]);
  }

  /**
   * North routes, exactly, but for the default. p is in the table if and only if some uplink brings it; its metric is
   * the least at which one does, and its next hops are uplinks that bring it so, one for each such neighbour.
   */
  lemma NorthRoutes(entries: map<TIEID, Entry>, ups: set<Uplink>, table: Table, p: string)
    requires NorthboundResult(entries, ups, table) && p != DEFAULT_ROUTE
    ensures p in table <==> exists u, k :: u in ups && Brings(entries, u, p, k)
    ensures p in table ==>
              && table[p].routeType == 8 && table[p].nextHops != []
              && (forall u, k :: u in ups && Brings(entries, u, p, k) ==>
                    && table[p].metric <= k
                    && (table[p].metric == k ==> u.nextHop.id in Ids(table[p].nextHops)))
              && forall nh :: nh in table[p].nextHops ==>
                   exists u :: u in ups && u.nextHop == nh && Brings(entries, u, p, table[p].metric)
  {
    hide UplinkOffers, BestTable, Brings, Offered, Standing, Ids;
    if ups != {} {
      var offers := NorthOffers(entries, ups, table);
      AllStanding(entries, ups, p, offers);
      forall u, k | u in ups && Brings(entries, u, p, k)
        ensures p in table && table[p].metric <= k
                && (table[p].metric == k ==> u.nextHop.id in Ids(table[p].nextHops))
      {
        StandsOrYields(entries, ups, table, p, offers, u, k);
      }
      if p in table {
        InTable(table, offers, p);
        RouteHasHop(entries, ups, table[p], p, offers);
        forall nh | nh in table[p].nextHops
          ensures exists u :: u in ups && u.nextHop == nh && Brings(entries, u, p, table[p].metric)
        {
          HopBrings(entries, ups, table[p], p, offers, nh);
        }
        assert table[p].nextHops[0] in table[p].nextHops;
      }
    }
  }

  lemma InTable(table: Table, offers: set<Offer>, p: string)
    requires BestTable(table, offers) && p in table
    ensures Offered(table[p], offers, p)
  {
    hide Offered;
  }
}
