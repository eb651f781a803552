/** N-SPF: validated uplinks, the ECMP default route, South prefix and disaggregation attachment. */
module Northbound {
  import opened RiftTypes
  import opened Prefixes
  import opened Routes
  import opened Southbound

  datatype Uplink = Uplink(nextHop: NextHop, linkCost: Metric)

  /** An adjacency to a higher level whose South Node TIE lists us back. */
  predicate Validated(systemID: SystemID, level: Level, entries: map<TIEID, Entry>, adj: AdjacencyInfo) {
    var south := FindNodeTIE(entries, SOUTH, adj.neighborID);
    adj.neighborLevel > level && south.Some? && systemID in south.value.neighbors
  }

  function UplinkCost(systemID: SystemID, entries: map<TIEID, Entry>, n: SystemID): Metric {
    var own := FindNodeTIE(entries, NORTH, systemID);
    if own.Some? && n in own.value.neighbors then LinkCost(own.value.neighbors[n]) else DEFAULT_DISTANCE
  }

  function UplinkOf(systemID: SystemID, entries: map<TIEID, Entry>, adj: AdjacencyInfo): Uplink {
    Uplink(NextHopOf(adj), UplinkCost(systemID, entries, adj.neighborID))
  }

  ghost function Uplinks(systemID: SystemID, level: Level, adjacencies: map<string, AdjacencyInfo>,
                         entries: map<TIEID, Entry>): set<Uplink> {
    UplinksAmong(systemID, level, adjacencies, entries, adjacencies.Keys)
  }

  ghost function UplinksAmong(systemID: SystemID, level: Level, adjacencies: map<string, AdjacencyInfo>,
                              entries: map<TIEID, Entry>,
                              keys: set<string>): set<Uplink> {
    set k | k in keys && k in adjacencies && Validated(systemID, level, entries, adjacencies[k]) ::
      UplinkOf(systemID, entries, adjacencies[k])
  }

  ghost predicate IsMinCost(ups: set<Uplink>, cost: Metric) {
    (exists u :: u in ups && u.linkCost == cost) && forall u :: u in ups ==> cost <= u.linkCost
  }

  ghost function HopsAtCost(ups: set<Uplink>, cost: Metric): set<NextHop> {
    set u | u in ups && u.linkCost == cost :: u.nextHop
  }

  // What an uplink attaches: its South Prefix TIEs and its positive disaggregation TIEs.
  ghost function UplinkOffers(entries: map<TIEID, Entry>, u: Uplink): set<Offer> {
    ListOffers(PrefixLists(entries, SOUTH, u.nextHop.id, PREFIX_TIE), u.linkCost, ROUTE_SOUTH_PREFIX, [u.nextHop]) +
    ListOffers(PrefixLists(entries, SOUTH, u.nextHop.id, POS_DISAGG_TIE), u.linkCost, ROUTE_SOUTH_PREFIX, [u.nextHop])
  }

  ghost function OffersOf(entries: map<TIEID, Entry>, ups: set<Uplink>): set<Offer> {
    set u, o | u in ups && o in UplinkOffers(entries, u) :: o
  }

  function DefaultOffer(cost: Metric, hops: seq<NextHop>): Offer {
    Offer(DEFAULT_ROUTE, RouteVal(cost, ROUTE_SOUTH_PREFIX, hops))
  }

  /** Nothing without uplinks; otherwise the best of the default over the cheapest uplinks and all they attach. */
  ghost predicate NorthboundResult(entries: map<TIEID, Entry>, ups: set<Uplink>, table: Table) {
    if ups == {} then table == map[] else
      exists cost, hops :: IsMinCost(ups, cost) && Elements(hops) == HopsAtCost(ups, cost)
        && FilledFrom(entries, ups, table, cost, hops)
  }

  ghost predicate FilledFrom(entries: map<TIEID, Entry>, ups: set<Uplink>, table: Table, cost: Metric,
                             hops: seq<NextHop>) {
    BestTable(table, {DefaultOffer(cost, hops)} + OffersOf(entries, ups))
  }

  /** The scan that validates each northbound neighbour, in map order. */
  method ValidateUplinks(systemID: SystemID, level: Level, adjacencies: map<string, AdjacencyInfo>,
                         entries: map<TIEID, Entry>)
    returns (validated: seq<Uplink>)
    ensures Elements(validated) == Uplinks(systemID, level, adjacencies, entries)
  {
    hide FindNodeTIE;
    validated := [];
    var todo := adjacencies.Keys;
    while todo != {}
      invariant todo <= adjacencies.Keys
      invariant Elements(validated) == UplinksAmong(systemID, level, adjacencies, entries, adjacencies.Keys - todo)
    {
      var k :| k in todo;
      ghost var done := adjacencies.Keys - todo;
      todo := todo - {k};
      assert adjacencies.Keys - todo == done + {k};
      OneMoreAdjacency(systemID, level, adjacencies, entries, done, k);
      if Validated(systemID, level, entries, adjacencies[k]) {
        validated := validated + [UplinkOf(systemID, entries, adjacencies[k])];
      }
    }
    assert adjacencies.Keys - todo == adjacencies.Keys;
  }

  lemma OneMoreAdjacency(systemID: SystemID, level: Level, adjacencies: map<string, AdjacencyInfo>,
                         entries: map<TIEID, Entry>,
                         done: set<string>, k: string)
    requires k in adjacencies
    ensures UplinksAmong(systemID, level, adjacencies, entries, done + {k}) ==
            UplinksAmong(systemID, level, adjacencies, entries, done) +
            if Validated(systemID, level, entries, adjacencies[k]) then {UplinkOf(systemID, entries, adjacencies[k])}
              else {}
  {
    hide Validated, UplinkOf;
  }

  method CheapestUplinks(validated: seq<Uplink>) returns (cost: Metric, hops: seq<NextHop>)
    requires validated != []
    ensures IsMinCost(Elements(validated), cost) && Elements(hops) == HopsAtCost(Elements(validated), cost)
  {
    cost := validated[0].linkCost;
    for i := 1 to |validated|
      invariant exists j :: 0 <= j < i && validated[j].linkCost == cost
      invariant forall j :: 0 <= j < i ==> cost <= validated[j].linkCost
    {
      if validated[i].linkCost < cost { cost := validated[i].linkCost; }
    }
    hops := [];
    for i := 0 to |validated|
      invariant forall nh :: nh in hops <==>
                  exists j :: 0 <= j < i && validated[j].linkCost == cost && validated[j].nextHop == nh
    {
      if validated[i].linkCost == cost { hops := hops + [validated[i].nextHop]; }
    }
    var j :| 0 <= j < |validated| && validated[j].linkCost == cost;
    assert validated[j] in Elements(validated);
    forall nh ensures nh in Elements(hops) <==> nh in HopsAtCost(Elements(validated), cost) {
      if nh in HopsAtCost(Elements(validated), cost) {
        var u :| u in validated && u.linkCost == cost && u.nextHop == nh;
        var i :| 0 <= i < |validated| && validated[i] == u;
      }
    }
  }

  method ComputeNorthbound(systemID: SystemID, level: Level, adjacencies: map<string, AdjacencyInfo>,
                           entries: map<TIEID, Entry>)
    returns (rib: Rib)
    ensures fresh(rib) && rib.Valid() && fresh(rib.routes.Values)
    ensures NorthboundResult(entries, Uplinks(systemID, level, adjacencies, entries), rib.View())
  {
    hide BestTable, AddOne, ListOffers, IsMinCost, HopsAtCost, Uplinks;
    rib := new Rib();
    var validated := ValidateUplinks(systemID, level, adjacencies, entries);
    if validated == [] {
      return;
    }
    var cost, hops := CheapestUplinks(validated);
    EmptyTable();
    AddOneBest(rib.View(), {}, DefaultOffer(cost, hops));
    rib.AddRoute(DEFAULT_ROUTE, cost, ROUTE_SOUTH_PREFIX, hops);
    ghost var offers := {DefaultOffer(cost, hops)};
    assert {} + offers == offers && offers + OffersOf(entries, Elements(validated[..0])) == offers;
    for i := 0 to |validated|
      invariant rib.Valid() && fresh(rib) && fresh(rib.routes.Values)
      invariant BestTable(rib.View(), offers)
      invariant offers == {DefaultOffer(cost, hops)} + OffersOf(entries, Elements(validated[..i]))
    {
      AttachUplink(rib, entries, validated[i], offers);
      offers := offers + UplinkOffers(entries, validated[i]);
      OneMoreUplink(entries, validated, i);
    }
    assert validated[..|validated|] == validated;
    assert validated[0] in Elements(validated);
    assert FilledFrom(entries, Elements(validated), rib.View(), cost, hops);
  }

  method AttachUplink(rib: Rib, entries: map<TIEID, Entry>, u: Uplink, ghost offers: set<Offer>)
    requires rib.Valid() && BestTable(rib.View(), offers)
    modifies rib, rib.routes.Values
    ensures rib.Valid() && fresh(rib.routes.Values - old(rib.routes.Values))
    ensures BestTable(rib.View(), offers + UplinkOffers(entries, u))
  {
    hide BestTable, ListOffers, PrefixLists;
    var lists := FindPrefixTIEs(entries, SOUTH, u.nextHop.id, PREFIX_TIE);
    AttachPrefixes(rib, lists, u.linkCost, ROUTE_SOUTH_PREFIX, [u.nextHop], offers);
    ghost var more := offers + ListOffers(Elements(lists), u.linkCost, ROUTE_SOUTH_PREFIX, [u.nextHop]);
    var disagg := FindPrefixTIEs(entries, SOUTH, u.nextHop.id, POS_DISAGG_TIE);
    AttachPrefixes(rib, disagg, u.linkCost, ROUTE_SOUTH_PREFIX, [u.nextHop], more);
    assert more + ListOffers(Elements(disagg), u.linkCost, ROUTE_SOUTH_PREFIX, [u.nextHop]) ==
             offers + UplinkOffers(entries, u);
  }

  lemma OneMoreUplink(entries: map<TIEID, Entry>, validated: seq<Uplink>, i: nat)
    requires i < |validated|
    ensures OffersOf(entries, Elements(validated[..i + 1])) ==
            OffersOf(entries, Elements(validated[..i])) + UplinkOffers(entries, validated[i])
  {
    hide UplinkOffers;
    assert validated[..i + 1] == validated[..i] + [validated[i]];
  }

  // ---- The default route ----

  /** o, attached under u, costs less than the computed default, or as much over a hop that is not one of its own. */
  ghost predicate Displacing(ups: set<Uplink>, cost: Metric, u: Uplink, o: Offer) {
    o.route.metric < cost
      || (o.route.metric == cost && forall w :: w in ups && w.linkCost == cost ==> w.nextHop.id != u.nextHop.id)
  }

  /** Some uplink attaches the default prefix at a total that displaces or widens the computed default. */
  ghost predicate Undercut(entries: map<TIEID, Entry>, ups: set<Uplink>, cost: Metric) {
    exists u, o :: u in ups && o in UplinkOffers(entries, u) && o.prefix == DEFAULT_ROUTE
                   && Displacing(ups, cost, u, o)
  }

  ghost function IdsAtCost(ups: set<Uplink>, cost: Metric): set<SystemID> {
    set u | u in ups && u.linkCost == cost :: u.nextHop.id
  }

  /** The default route is exactly the cheapest validated uplinks if and only if no attached default undercuts them. */
  lemma DefaultRouteExact(entries: map<TIEID, Entry>, ups: set<Uplink>, table: Table, cost: Metric)
    requires NorthboundResult(entries, ups, table) && IsMinCost(ups, cost)
    ensures DEFAULT_ROUTE in table
    ensures (table[DEFAULT_ROUTE].metric == cost && Ids(table[DEFAULT_ROUTE].nextHops) == IdsAtCost(ups, cost))
              <==> !Undercut(entries, ups, cost)
  {
    hide ListOffers, BestTable, UplinkOffers, Displaces, Undercut, OffersOf;
    var cost', hops :| IsMinCost(ups, cost') && Elements(hops) == HopsAtCost(ups, cost')
      && FilledFrom(entries, ups, table, cost', hops);
    var d, others := DefaultOffer(cost, hops), OffersOf(entries, ups);
    IdsOfHops(ups, cost, hops);
    StandsUnlessDisplaced(table, d, others);
    OfferedType(table, {d} + others, DEFAULT_ROUTE);
    UndercutIsDisplaced(entries, ups, cost, hops);
    var o :| o in {d} + others && o.prefix == DEFAULT_ROUTE && SameRank(o.route, table[DEFAULT_ROUTE]);
  }

  lemma IdsOfHops(ups: set<Uplink>, cost: Metric, hops: seq<NextHop>)
    requires Elements(hops) == HopsAtCost(ups, cost)
    ensures Ids(hops) == IdsAtCost(ups, cost)
  {
    assert forall nh :: nh in hops <==> nh in HopsAtCost(ups, cost) by {
      assert forall nh :: nh in hops <==> nh in Elements(hops);
    }
  }

  lemma UndercutIsDisplaced(entries: map<TIEID, Entry>, ups: set<Uplink>, cost: Metric, hops: seq<NextHop>)
    requires Ids(hops) == IdsAtCost(ups, cost)
    ensures Undercut(entries, ups, cost) <==>
              exists o :: o in OffersOf(entries, ups) && Displaces(o, DefaultOffer(cost, hops))
    ensures forall o :: o in OffersOf(entries, ups) ==> o.route.routeType == ROUTE_SOUTH_PREFIX
  {
    hide UplinkOffers;
    var d, others := DefaultOffer(cost, hops), OffersOf(entries, ups);
    forall u, o | u in ups && o in UplinkOffers(entries, u)
      ensures o in others && o.route.routeType == ROUTE_SOUTH_PREFIX && Ids(o.route.nextHops) == {u.nextHop.id}
    {
      OneHop(entries, u, o);
    }
    if Undercut(entries, ups, cost) {
      var u, o :| u in ups && o in UplinkOffers(entries, u) && o.prefix == DEFAULT_ROUTE
                  && Displacing(ups, cost, u, o);
      assert o.route.metric == cost ==> u.nextHop.id in Ids(o.route.nextHops) && u.nextHop.id !in IdsAtCost(ups, cost);
      assert o in others && Displaces(o, d);
    }
    forall o | o in others && Displaces(o, d) ensures Undercut(entries, ups, cost) {
      var u :| u in ups && o in UplinkOffers(entries, u);
      if o.route.metric == cost {
        forall w | w in ups && w.linkCost == cost ensures w.nextHop.id != u.nextHop.id {
          assert w.nextHop.id in IdsAtCost(ups, cost);
        }
      }
    }
  }

  lemma OfferedType(table: Table, offers: set<Offer>, p: string)
    requires BestTable(table, offers) && p in table
    ensures exists o :: o in offers && o.prefix == p && SameRank(o.route, table[p])
  {
    assert Offered(table[p], offers, p);
  }

  lemma OneHop(entries: map<TIEID, Entry>, u: Uplink, o: Offer)
    requires o in UplinkOffers(entries, u)
    ensures o.route.nextHops == [u.nextHop] && o.route.routeType == ROUTE_SOUTH_PREFIX
  {
    hide PrefixToString;
  }

  ghost predicate Lists(entries: map<TIEID, Entry>, u: Uplink, pt: seq<PrefixEntry>) {
    pt in PrefixLists(entries, SOUTH, u.nextHop.id, PREFIX_TIE)
      || pt in PrefixLists(entries, SOUTH, u.nextHop.id, POS_DISAGG_TIE)
  }

  /** Prefix metrics of at least 1 and sums within int32 rule undercutting out. */
  lemma PositiveMetricsKeepDefault(entries: map<TIEID, Entry>, ups: set<Uplink>, cost: Metric)
    requires IsMinCost(ups, cost)
    requires forall u, pt: seq<PrefixEntry>, pe :: u in ups && Lists(entries, u, pt) && pe in pt ==>
               1 <= pe.metric && MIN32 <= pe.metric + u.linkCost <= MAX32
    ensures !Undercut(entries, ups, cost)
  {
    hide PrefixToString, PrefixLists;
    forall u, o | u in ups && o in UplinkOffers(entries, u) ensures o.route.metric > cost {
      if o in ListOffers(PrefixLists(entries, SOUTH, u.nextHop.id, PREFIX_TIE), u.linkCost, ROUTE_SOUTH_PREFIX,
        [u.nextHop]) {
        var pt, pe := ListSource(o, PrefixLists(entries, SOUTH, u.nextHop.id, PREFIX_TIE), u.linkCost,
                                 ROUTE_SOUTH_PREFIX, [u.nextHop]);
      } else {
        var pt, pe := ListSource(o, PrefixLists(entries, SOUTH, u.nextHop.id, POS_DISAGG_TIE), u.linkCost,
                                 ROUTE_SOUTH_PREFIX, [u.nextHop]);
      }
    }
  }
}
