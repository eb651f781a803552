/** What a converged fabric computes, in terms of its links and attached prefixes alone. */
module FabricExact {
  import opened RiftTypes
  import opened Prefixes
  import opened Routes
  import opened Graph
  import opened Southbound
  import opened Northbound
  import opened Disagg
  import opened Originate
  import opened Fabric

  // ---- South routes ----

  /** A spine next to v reaches p through v at total metric k: the attached metric and one link. */
  ghost predicate AttachesAt(f: Net, v: SystemID, p: string, k: Metric) {
    v in f.local && p != ""
      && exists lp :: lp in f.local[v] && PrefixToString(lp.prefix) == p && k == Wrap32(lp.metric + 1)
  }

  lemma AttachedFrom(f: Net, nodes: Nodes, s: SystemID, v: SystemID, d: Metric, p: string, k: Metric)
    requires Converged(f, nodes) && s in f.spines
    requires Attaches(TopoOf(s, nodes[s].adjs, nodes[s].entries), v, d, p, k)
    ensures f.Linked(s, v) && AttachesAt(f, v, p, k)
  {
    hide PrefixToString, Converged, Topo.Edge, Topo.Cost, PathCost, IsPath, PrefixLists, NorthPrefixContent, TopoOf,
      Wrap32, FirstHop;
    NetIsBipartite(f, nodes);
    var t := TopoOf(s, nodes[s].adjs, nodes[s].entries);
    TopoFields(s, nodes[s].adjs, nodes[s].entries);
    var path :| Shortest(t, path, v) && PathCost(t, path) == d;
    OwnPathOnly(f, nodes, s, path, v);
    Neighboring(f, nodes, s, v);
    LeafLists(f, nodes, s, v);
    var pt, pe :| pt in PrefixLists(t.entries, NORTH, v, PREFIX_TIE) && pe in pt && PrefixToString(pe.prefix) == p
      && k == Wrap32(pe.metric + d);
    ContentListed(f.local[v], pe);
  }

  lemma AttachedInto(f: Net, nodes: Nodes, s: SystemID, v: SystemID, p: string, k: Metric)
    requires Converged(f, nodes) && s in f.spines && f.Linked(s, v) && AttachesAt(f, v, p, k)
    ensures Attaches(TopoOf(s, nodes[s].adjs, nodes[s].entries), v, 1, p, k)
  {
    hide PrefixToString, Converged, Topo.Edge, Topo.Cost, PathCost, Shortest, PrefixLists, IsPath, FirstHop,
      NorthPrefixContent, Attaches, TopoOf, Wrap32;
    NetIsBipartite(f, nodes);
    Neighboring(f, nodes, s, v);
    LeafLists(f, nodes, s, v);
    var lp :| lp in f.local[v] && PrefixToString(lp.prefix) == p && k == Wrap32(lp.metric + 1);
    ContentListed(f.local[v], EntryOf(lp));
    var t := TopoOf(s, nodes[s].adjs, nodes[s].entries);
    TopoFields(s, nodes[s].adjs, nodes[s].entries);
    AttachesIntro(t, v, [s, v], NorthPrefixContent(f.local[v]).prefixes.value, EntryOf(lp));
  }

  /** The metric of a south route is the least at which a linked leaf attaches it, and its hops are all such leaves. */
  lemma SpineHops(f: Net, nodes: Nodes, s: SystemID, p: string)
    requires Converged(f, nodes) && s in f.spines && p in nodes[s].south
    ensures forall v, k :: f.Linked(s, v) && AttachesAt(f, v, p, k) ==> nodes[s].south[p].metric <= k
    ensures forall h :: h in Ids(nodes[s].south[p].nextHops) <==>
                        f.Linked(s, h) && AttachesAt(f, h, p, nodes[s].south[p].metric)
  {
    var n := nodes[s];
    var t := TopoOf(s, n.adjs, n.entries);
    assert SouthboundResult(t, DirectHops(n.adjs), n.tree, n.south) by {
      hide SouthboundResult;
      assert Settled(f, s, n);
    }
    SpineMeasurable(f, nodes, s);
    hide Converged, Measurable, Summable, SouthboundResult, Topo.Edge, Topo.Cost, Attaches, AttachesAt, FirstHop;
    SouthRoutes(t, DirectHops(n.adjs), n.tree, n.south);
    forall v, k | f.Linked(s, v) && AttachesAt(f, v, p, k)
      ensures n.south[p].metric <= k && (k == n.south[p].metric ==> v in Ids(n.south[p].nextHops))
    {
      AttachedInto(f, nodes, s, v, p, k);
      Neighboring(f, nodes, s, v);
    }
    forall h | h in Ids(n.south[p].nextHops) ensures f.Linked(s, h) && AttachesAt(f, h, p, n.south[p].metric) {
      var v, d :| Attaches(t, v, d, p, n.south[p].metric) && FirstHop(t, v, h);
      AttachedFrom(f, nodes, s, v, d, p, n.south[p].metric);
      Neighboring(f, nodes, s, v);
    }
  }

  // ---- What a spine advertises for disaggregation ----

  /** The Positive Disaggregation TIE of spine a lists p, at metric k. */
  ghost predicate Announces(a: SystemID, n: Node, p: string, k: Metric) {
    var id := TIEID(SOUTH, a, POS_DISAGG_TIE, 1);
    && id in n.entries && n.entries[id].packet.element.posDisagg.Some?
    && exists pe :: && pe in n.entries[id].packet.element.posDisagg.value
                    && PrefixToString(pe.prefix) == p && pe.metric == k
  }

  lemma PeersExact(f: Net, nodes: Nodes, a: SystemID, b: SystemID)
    requires Converged(f, nodes) && a in f.spines && b in nodes[a].peers
    ensures b in f.spines && b != a && forall y :: y in nodes[a].peers[b] <==> f.Linked(b, y)
  {
    hide Converged;
    NetIsBipartite(f, nodes);
    SpineComputed(f, nodes, a);
    var n := nodes[a];
    var id :| id in n.entries && PeerTIE(a, 1, id, n.entries[id]) && id.originator == b
              && n.peers[b] == PeerSouth(1, n.entries[id].packet.element.node.value);
    OneSouthNode(f, nodes, a, b, id);
    SouthView(f, nodes, a, b);
  }

  /** Spine b shares leaf m with a, and leaf h is linked to a and not to b. */
  ghost predicate Parted(f: Net, a: SystemID, b: SystemID, m: SystemID, h: SystemID) {
    b in f.spines && f.Linked(a, m) && f.Linked(b, m) && f.Linked(a, h) && !f.Linked(b, h)
  }

  /** In terms of links: a route of a needs disaggregation if one of its hops is parted from a spine beside a. */
  lemma NeedsExactly(f: Net, nodes: Nodes, a: SystemID, p: string)
    requires Converged(f, nodes) && a in f.spines && p in nodes[a].south
    ensures NeedsDisagg(SouthNeighbors(1, nodes[a].adjs), nodes[a].peers, nodes[a].south[p]) <==>
              exists b, m, h :: h in Ids(nodes[a].south[p].nextHops) && Parted(f, a, b, m, h)
  {
    hide Converged, NeedsDisagg, SouthNeighbors;
    NetIsBipartite(f, nodes);
    SouthIDs(f, nodes, a);
    var south, peers, r := SouthNeighbors(1, nodes[a].adjs), nodes[a].peers, nodes[a].south[p];
    if NeedsDisagg(south, peers, r) {
      var nh, b, m := NeedsSource(south, peers, r);
      PeersExact(f, nodes, a, b);
      assert nh.id in Ids(r.nextHops) && Parted(f, a, b, m, nh.id);
    }
    if b, m, h :| h in Ids(r.nextHops) && Parted(f, a, b, m, h) {
      var nh: NextHop :| nh in r.nextHops && nh.id == h;
      PeerKnown(f, nodes, a, b, m);
      NeedsIntro(south, peers, r, nh, b, m);
    }
  }

  /**
   * What a spine advertises for disaggregation, exactly. Spine a lists p, at metric k, if and only if p is one of its
   * south routes and k its metric, p parses as a prefix, and some spine b shares a leaf with a while some next hop of
   * the route is linked to a and not to b.
   */
  lemma DisaggregatesExactly(f: Net, nodes: Nodes, a: SystemID, p: string, k: Metric)
    requires Converged(f, nodes) && a in f.spines
    ensures Announces(a, nodes[a], p, k) <==>
              && p in nodes[a].south && k == nodes[a].south[p].metric && StringToPrefix(p) != NotIPv4
              && exists b, m, h ::
                   && h in Ids(nodes[a].south[p].nextHops) && b in f.spines
                   && f.Linked(a, m) && f.Linked(b, m) && f.Linked(a, h) && !f.Linked(b, h)
  {
    hide Converged, NeedsDisagg, StringToPrefix, PrefixToString, DisaggOriginated, Disaggregated;
    NetIsBipartite(f, nodes);
    SpineOriginates(f, nodes, a);
    OriginatedList(a, nodes[a]);
    var n := nodes[a];
    var south := SouthNeighbors(1, n.adjs);
    AnnouncesWanted(a, n, Disaggregated(south, n.peers, n.south), p, k);
    if p in n.south {
      NeedsExactly(f, nodes, a, p);
      SouthKeys(f, nodes, a, p);
      if NeedsDisagg(south, n.peers, n.south[p]) && StringToPrefix(p) != NotIPv4 {
        WantedIntro(south, n.peers, n.south, p);
      }
    }
    forall d | d in Disaggregated(south, n.peers, n.south) && PrefixToString(d.prefix) == p
      ensures p in n.south && d.distance == n.south[p].metric && StringToPrefix(p) != NotIPv4
      ensures NeedsDisagg(south, n.peers, n.south[p])
    {
      var q := WantedSource(south, n.peers, n.south, d);
      SouthKeys(f, nodes, a, q);
    }
    if p in n.south && NeedsDisagg(south, n.peers, n.south[p]) {
      var b, m, h :| h in Ids(n.south[p].nextHops) && Parted(f, a, b, m, h);
    }
    if b, m, h :| p in n.south && h in Ids(n.south[p].nextHops) && b in f.spines
                  && f.Linked(a, m) && f.Linked(b, m) && f.Linked(a, h) && !f.Linked(b, h) {
      assert Parted(f, a, b, m, h);
    }
  }

  lemma AnnouncesWanted(a: SystemID, n: Node, wanted: set<DisaggPrefix>, p: string, k: Metric)
    requires var id := OwnID(SOUTH, a, POS_DISAGG_TIE);
             if id in n.entries then
               var list := n.entries[id].packet.element.posDisagg;
               list.Some? && Elements(list.value) == EntriesFor(wanted)
             else wanted == {}
    ensures Announces(a, n, p, k) <==> exists d :: d in wanted && PrefixToString(d.prefix) == p && d.distance == k
  {
    hide PrefixToString;
    var id := OwnID(SOUTH, a, POS_DISAGG_TIE);
    if id in n.entries {
      var list := n.entries[id].packet.element.posDisagg.value;
      if pe :| pe in list && PrefixToString(pe.prefix) == p && pe.metric == k {
        assert pe in Elements(list);
        var d :| d in wanted && pe == PrefixEntry(d.prefix, d.distance, false);
      }
      if d :| d in wanted && PrefixToString(d.prefix) == p && d.distance == k {
        var pe := PrefixEntry(d.prefix, d.distance, false);
        assert pe in EntriesFor(wanted);
        assert pe in Elements(list);
      }
    }
  }

  lemma WantedIntro(south: set<SystemID>, peers: map<SystemID, set<SystemID>>, table: Table, p: string)
    requires p in table && NeedsDisagg(south, peers, table[p]) && StringToPrefix(p) != NotIPv4
    ensures DisaggPrefix(StringToPrefix(p), table[p].metric) in Disaggregated(south, peers, table)
  {
    hide NeedsDisagg, StringToPrefix;
  }

  lemma WantedSource(south: set<SystemID>, peers: map<SystemID, set<SystemID>>, table: Table, d: DisaggPrefix)
    returns (q: string)
    requires d in Disaggregated(south, peers, table)
    ensures q in table && NeedsDisagg(south, peers, table[q]) && StringToPrefix(q) != NotIPv4
    ensures d == DisaggPrefix(StringToPrefix(q), table[q].metric)
  {
    hide NeedsDisagg, StringToPrefix;
    q :| q in table && NeedsDisagg(south, peers, table[q]) && StringToPrefix(q) != NotIPv4
      && d == DisaggPrefix(StringToPrefix(q), table[q].metric);
  }

  // ---- The table of a leaf ----

  lemma LinkCostsOne(f: Net, nodes: Nodes, m: SystemID)
    requires Converged(f, nodes) && m in f.leaves
    ensures m in nodes
    ensures forall u :: u in Uplinks(m, 0, nodes[m].adjs, nodes[m].entries) ==> u.linkCost == 1
  {
    hide Converged, AdjacenciesUp, Validated;
    var nbrs := NorthOwn(f, nodes, m);
    assert FindNodeTIE(nodes[m].entries, NORTH, m) == Some(NodeElement(0, nbrs, Some(true)));
    forall n ensures UplinkCost(m, nodes[m].entries, n) == 1 {
    }
  }

  /** The disaggregation list a leaf finds of a spine is the one the spine keeps. */
  lemma HeldList(f: Net, nodes: Nodes, m: SystemID, a: SystemID, pt: seq<PrefixEntry>)
    requires Converged(f, nodes) && m in f.leaves && f.Linked(m, a)
    ensures a in f.spines && a in nodes && m in nodes
    ensures pt in PrefixLists(nodes[m].entries, SOUTH, a, POS_DISAGG_TIE) <==>
              && OwnID(SOUTH, a, POS_DISAGG_TIE) in nodes[a].entries
              && nodes[a].entries[OwnID(SOUTH, a, POS_DISAGG_TIE)].packet.element.posDisagg == Some(pt)
  {
    hide Converged;
    NetIsBipartite(f, nodes);
    var id, es := OwnID(SOUTH, a, POS_DISAGG_TIE), nodes[m].entries;
    if id in nodes[a].entries && nodes[a].entries[id].packet.element.posDisagg == Some(pt) {
      HoldsNeighbors(f, nodes, m, a, id);
      assert PrefixList(POS_DISAGG_TIE, es[id].packet.element) == Some(pt);
      assert pt in PrefixLists(es, SOUTH, a, POS_DISAGG_TIE);
    }
    if pt in PrefixLists(es, SOUTH, a, POS_DISAGG_TIE) {
      var id' :| id' in es && IsPrefixTIEOf(id', SOUTH, a, POS_DISAGG_TIE)
        && PrefixList(POS_DISAGG_TIE, es[id'].packet.element) == Some(pt);
      OneTIE(f, nodes, m, a, id', POS_DISAGG_TIE);
    }
  }

  /** Under an uplink a leaf is offered, beside the default, exactly what the spine announces, one link further. */
  lemma OfferExactly(f: Net, nodes: Nodes, m: SystemID, u: Uplink, o: Offer)
    requires Converged(f, nodes) && m in f.leaves && f.Linked(m, u.nextHop.id) && u.linkCost == 1
    requires o.prefix != DEFAULT_ROUTE && o.prefix != ""
    ensures u.nextHop.id in nodes && m in nodes
    ensures o in UplinkOffers(nodes[m].entries, u) <==>
              exists k :: && Announces(u.nextHop.id, nodes[u.nextHop.id], o.prefix, k)
                          && o.route == RouteVal(Wrap32(k + 1), ROUTE_SOUTH_PREFIX, [u.nextHop])
  {
    hide Converged, PrefixToString, PrefixLists, Wrap32;
    NetIsBipartite(f, nodes);
    var a, es := u.nextHop.id, nodes[m].entries;
    var id := OwnID(SOUTH, a, POS_DISAGG_TIE);
    PlainLists(f, nodes, m, a);
    DefaultKey();
    if o in UplinkOffers(es, u) {
      var pt, pe := NotPlain(es, u, o);
      HeldList(f, nodes, m, a, pt);
      assert Announces(a, nodes[a], o.prefix, pe.metric);
    }
    if k :| Announces(a, nodes[a], o.prefix, k)
            && o.route == RouteVal(Wrap32(k + 1), ROUTE_SOUTH_PREFIX, [u.nextHop]) {
      var pt := nodes[a].entries[id].packet.element.posDisagg.value;
      HeldList(f, nodes, m, a, pt);
      var pe :| pe in pt && PrefixToString(pe.prefix) == o.prefix && pe.metric == k;
      assert o == EntryOffer(pe, u.linkCost, ROUTE_SOUTH_PREFIX, [u.nextHop]);
    }
  }

  lemma NotPlain(es: map<TIEID, Entry>, u: Uplink, o: Offer) returns (pt: seq<PrefixEntry>, pe: PrefixEntry)
    requires o in UplinkOffers(es, u) && o.prefix != DEFAULT_ROUTE
    requires PrefixLists(es, SOUTH, u.nextHop.id, PREFIX_TIE) == {SouthPrefixContent().prefixes.value}
    ensures pt in PrefixLists(es, SOUTH, u.nextHop.id, POS_DISAGG_TIE) && pe in pt
    ensures o == EntryOffer(pe, u.linkCost, ROUTE_SOUTH_PREFIX, [u.nextHop])
  {
    hide PrefixToString, PrefixLists, Wrap32;
    DefaultKey();
    if o in ListOffers(PrefixLists(es, SOUTH, u.nextHop.id, PREFIX_TIE), u.linkCost, ROUTE_SOUTH_PREFIX, [u.nextHop]) {
      pt, pe := ListSource(o, PrefixLists(es, SOUTH, u.nextHop.id, PREFIX_TIE), u.linkCost, ROUTE_SOUTH_PREFIX,
                           [u.nextHop]);
    }
    pt, pe := ListSource(o, PrefixLists(es, SOUTH, u.nextHop.id, POS_DISAGG_TIE), u.linkCost, ROUTE_SOUTH_PREFIX,
                         [u.nextHop]);
  }

  /** Spine a, linked to m, announces p, and m reaches p through a at total metric k. */
  ghost predicate Via(f: Net, nodes: Nodes, m: SystemID, a: SystemID, p: string, k: Metric) {
    a in f.spines && a in nodes && f.Linked(a, m) && exists j :: Announces(a, nodes[a], p, j) && k == Wrap32(j + 1)
  }

  lemma LeafFilled(f: Net, nodes: Nodes, m: SystemID) returns (offers: set<Offer>)
    requires Converged(f, nodes) && m in f.leaves && m in nodes
    requires Uplinks(m, 0, nodes[m].adjs, nodes[m].entries) != {}
    ensures BestTable(nodes[m].rib, offers)
    ensures forall o: Offer :: o.prefix != DEFAULT_ROUTE ==>
              (o in offers <==> exists u :: u in Uplinks(m, 0, nodes[m].adjs, nodes[m].entries)
                                            && o in UplinkOffers(nodes[m].entries, u))
  {
    hide Converged, UplinkOffers, Uplinks, IsMinCost, HopsAtCost, BestTable;
    var n := nodes[m];
    var ups := Uplinks(m, 0, n.adjs, n.entries);
    LeafComputed(f, nodes, m);
    var cost, hops :| IsMinCost(ups, cost) && Elements(hops) == HopsAtCost(ups, cost)
      && FilledFrom(n.entries, ups, n.rib, cost, hops);
    offers := {DefaultOffer(cost, hops)} + OffersOf(n.entries, ups);
  }

  /** An offer for p to a leaf stands for a spine that announces p, and the other way round. */
  lemma OffersFor(f: Net, nodes: Nodes, m: SystemID, p: string, offers: set<Offer>)
    requires Converged(f, nodes) && m in f.leaves && m in nodes && p != DEFAULT_ROUTE && p != ""
    requires forall o: Offer :: o.prefix != DEFAULT_ROUTE ==>
               (o in offers <==> exists u :: u in Uplinks(m, 0, nodes[m].adjs, nodes[m].entries)
                                             && o in UplinkOffers(nodes[m].entries, u))
    ensures forall o :: o in offers && o.prefix == p ==> OfferVia(f, nodes, m, o)
    ensures forall a, k :: Via(f, nodes, m, a, p, k) ==>
              exists o :: && o in offers && o.prefix == p && OfferVia(f, nodes, m, o)
                          && o.route.metric == k && a in Ids(o.route.nextHops)
  {
    hide Converged, UplinkOffers, Uplinks, Announces;
    NetIsBipartite(f, nodes);
    LeafUplinks(f, nodes, m);
    LinkCostsOne(f, nodes, m);
    forall o | o in offers && o.prefix == p ensures OfferVia(f, nodes, m, o) {
      var u :| u in Uplinks(m, 0, nodes[m].adjs, nodes[m].entries) && o in UplinkOffers(nodes[m].entries, u);
      OfferExactly(f, nodes, m, u, o);
      assert Via(f, nodes, m, u.nextHop.id, p, o.route.metric);
    }
    forall a, k | Via(f, nodes, m, a, p, k)
      ensures exists o :: && o in offers && o.prefix == p && OfferVia(f, nodes, m, o)
                          && o.route.metric == k && a in Ids(o.route.nextHops)
    {
      var u :| u in Uplinks(m, 0, nodes[m].adjs, nodes[m].entries) && u.nextHop.id == a;
      var o := Offer(p, RouteVal(k, ROUTE_SOUTH_PREFIX, [u.nextHop]));
      OfferExactly(f, nodes, m, u, o);
      assert o in offers;
      assert u.nextHop in o.route.nextHops;
      assert OfferVia(f, nodes, m, o);
    }
  }

  ghost predicate OfferVia(f: Net, nodes: Nodes, m: SystemID, o: Offer) {
    && o.route.routeType == ROUTE_SOUTH_PREFIX && |o.route.nextHops| == 1
    && Via(f, nodes, m, o.route.nextHops[0].id, o.prefix, o.route.metric)
  }

  /** A next hop of the route for p stands for an offer. */
  lemma HopVia(f: Net, nodes: Nodes, m: SystemID, p: string, offers: set<Offer>, a: SystemID)
    requires m in nodes && p in nodes[m].rib && Offered(nodes[m].rib[p], offers, p)
    requires forall o :: o in offers && o.prefix == p ==> OfferVia(f, nodes, m, o)
    requires a in Ids(nodes[m].rib[p].nextHops)
    ensures Via(f, nodes, m, a, p, nodes[m].rib[p].metric)
  {
    hide Via;
    assert a in IdsAt(offers, p, nodes[m].rib[p]);
    var o, nh: NextHop :| o in offers && o.prefix == p && SameRank(o.route, nodes[m].rib[p]) && nh in o.route.nextHops
      && nh.id == a;
    assert OfferVia(f, nodes, m, o);
  }

  lemma SomeHop(f: Net, nodes: Nodes, m: SystemID, p: string, offers: set<Offer>)
    requires m in nodes && p in nodes[m].rib && Offered(nodes[m].rib[p], offers, p)
    requires forall o :: o in offers && o.prefix == p ==> OfferVia(f, nodes, m, o)
    ensures Ids(nodes[m].rib[p].nextHops) != {} && nodes[m].rib[p].routeType == ROUTE_SOUTH_PREFIX
  {
    hide Via;
    var r := nodes[m].rib[p];
    var o :| o in offers && o.prefix == p && SameRank(o.route, r);
    assert OfferVia(f, nodes, m, o);
    assert o.route.nextHops[0] in o.route.nextHops && o.route.nextHops[0].id in IdsAt(offers, p, r);
  }

  /** And an offer for p bounds the route's metric, and is among its hops if it costs as much. */
  lemma OfferKept(f: Net, nodes: Nodes, m: SystemID, p: string, offers: set<Offer>, o: Offer)
    requires m in nodes && BestTable(nodes[m].rib, offers) && o in offers && o.prefix == p
    requires forall o :: o in offers && o.prefix == p ==> OfferVia(f, nodes, m, o)
    ensures p in nodes[m].rib && nodes[m].rib[p].metric <= o.route.metric
    ensures o.route.metric == nodes[m].rib[p].metric ==> Ids(o.route.nextHops) <= Ids(nodes[m].rib[p].nextHops)
  {
    hide Via, Offered;
    var r := nodes[m].rib[p];
    assert Offered(r, offers, p);
    SomeHop(f, nodes, m, p, offers);
    assert OfferVia(f, nodes, m, o);
    if o.route.metric == r.metric {
      assert SameRank(o.route, r);
      OfferedIds(r, offers, p, o);
    }
  }

  lemma OfferedIds(r: RouteVal, offers: set<Offer>, p: string, o: Offer)
    requires Offered(r, offers, p) && o in offers && o.prefix == p && SameRank(o.route, r)
    ensures Ids(o.route.nextHops) <= Ids(r.nextHops)
  {
  }

  /** The table such offers fill. */
  lemma FilledVia(f: Net, nodes: Nodes, m: SystemID, p: string, offers: set<Offer>)
    requires m in nodes && BestTable(nodes[m].rib, offers)
    requires forall o :: o in offers && o.prefix == p ==> OfferVia(f, nodes, m, o)
    requires forall a, k :: Via(f, nodes, m, a, p, k) ==>
               exists o :: && o in offers && o.prefix == p && OfferVia(f, nodes, m, o)
                           && o.route.metric == k && a in Ids(o.route.nextHops)
    ensures p in nodes[m].rib <==> exists a, k :: Via(f, nodes, m, a, p, k)
    ensures p in nodes[m].rib ==>
              && (forall a, k :: Via(f, nodes, m, a, p, k) ==> nodes[m].rib[p].metric <= k)
              && (forall a :: a in Ids(nodes[m].rib[p].nextHops) <==> Via(f, nodes, m, a, p, nodes[m].rib[p].metric))
              && Ids(nodes[m].rib[p].nextHops) != {}
  {
    hide Via, OfferVia, Offered, IdsAt;
    var rib := nodes[m].rib;
    forall a, k | Via(f, nodes, m, a, p, k)
      ensures p in rib && rib[p].metric <= k && (k == rib[p].metric ==> a in Ids(rib[p].nextHops))
    {
      var o :| && o in offers && o.prefix == p && OfferVia(f, nodes, m, o)
               && o.route.metric == k && a in Ids(o.route.nextHops);
      OfferKept(f, nodes, m, p, offers, o);
    }
    if p in rib {
      assert Offered(rib[p], offers, p);
      SomeHop(f, nodes, m, p, offers);
      forall a | a in Ids(rib[p].nextHops) ensures Via(f, nodes, m, a, p, rib[p].metric) {
        HopVia(f, nodes, m, p, offers, a);
      }
      ghost var a := Pick(Ids(rib[p].nextHops));
    }
  }

  /** No route has the empty key. */
  lemma NamedKeys(f: Net, nodes: Nodes, m: SystemID, p: string)
    requires Converged(f, nodes) && m in f.leaves && m in nodes && p in nodes[m].rib
    ensures p != ""
  {
    hide Converged, UplinkOffers, Uplinks;
    LeafComputed(f, nodes, m);
    if Uplinks(m, 0, nodes[m].adjs, nodes[m].entries) != {} {
      var offers := LeafFilled(f, nodes, m);
      assert Offered(nodes[m].rib[p], offers, p);
      var o :| o in offers && o.prefix == p;
      if p != DEFAULT_ROUTE {
        var u :| u in Uplinks(m, 0, nodes[m].adjs, nodes[m].entries) && o in UplinkOffers(nodes[m].entries, u);
        NamedOffer(nodes[m].entries, u, o);
      }
    }
  }

  lemma NamedOffer(es: map<TIEID, Entry>, u: Uplink, o: Offer)
    requires o in UplinkOffers(es, u)
    ensures o.prefix != ""
  {
    hide PrefixToString, PrefixLists;
  }

  /**
   * The table of a leaf, exactly, but for the default route. It holds p if and only if some spine of the leaf announces
   * p; the metric is the least announced, one link added, and the next hops are all the spines that announce it so.
   */
  lemma LeafRoutesExactly(f: Net, nodes: Nodes, m: SystemID, p: string)
    requires Converged(f, nodes) && m in f.leaves && p != DEFAULT_ROUTE
    ensures m in nodes
    ensures p in nodes[m].rib <==> exists a, k :: Via(f, nodes, m, a, p, k)
    ensures p in nodes[m].rib ==>
              && (forall a, k :: Via(f, nodes, m, a, p, k) ==> nodes[m].rib[p].metric <= k)
              && (forall a :: a in Ids(nodes[m].rib[p].nextHops) <==> Via(f, nodes, m, a, p, nodes[m].rib[p].metric))
              && Ids(nodes[m].rib[p].nextHops) != {}
  {
    hide Converged, Announces, StringToPrefix;
    NetIsBipartite(f, nodes);
    if p != "" {
      NamedRoutes(f, nodes, m, p);
    } else {
      forall a, j | a in f.spines && Announces(a, nodes[a], "", j) ensures false {
        DisaggregatesExactly(f, nodes, a, "", j);
        NotEmpty(f, nodes, a, "");
      }
      if p in nodes[m].rib {
        NamedKeys(f, nodes, m, p);
      }
    }
  }

  lemma NamedRoutes(f: Net, nodes: Nodes, m: SystemID, p: string)
    requires Converged(f, nodes) && m in f.leaves && p != DEFAULT_ROUTE && p != ""
    ensures m in nodes
    ensures p in nodes[m].rib <==> exists a, k :: Via(f, nodes, m, a, p, k)
    ensures p in nodes[m].rib ==>
              && (forall a, k :: Via(f, nodes, m, a, p, k) ==> nodes[m].rib[p].metric <= k)
              && (forall a :: a in Ids(nodes[m].rib[p].nextHops) <==> Via(f, nodes, m, a, p, nodes[m].rib[p].metric))
              && Ids(nodes[m].rib[p].nextHops) != {}
  {
    hide Converged, UplinkOffers, Uplinks, BestTable, OfferVia, Announces;
    NetIsBipartite(f, nodes);
    LeafUplinks(f, nodes, m);
    if Uplinks(m, 0, nodes[m].adjs, nodes[m].entries) == {} {
      LeafComputed(f, nodes, m);
    } else {
      var offers := LeafFilled(f, nodes, m);
      OffersFor(f, nodes, m, p, offers);
      FilledVia(f, nodes, m, p, offers);
    }
  }

  // ---- A fabric without a broken link ----

  /** Spines that share a leaf have the same leaves. */
  ghost predicate Whole(f: Net) {
    forall a, b, m, h :: a in f.spines && b in f.spines && f.Linked(a, m) && f.Linked(b, m) && f.Linked(a, h) ==>
      f.Linked(b, h)
  }

  /** Then no spine announces anything, */
  lemma WholeIsQuiet(f: Net, nodes: Nodes, a: SystemID, p: string, k: Metric)
    requires Converged(f, nodes) && Whole(f) && a in f.spines
    ensures a in nodes && !Announces(a, nodes[a], p, k)
  {
    hide Converged, Announces, StringToPrefix;
    NetIsBipartite(f, nodes);
    DisaggregatesExactly(f, nodes, a, p, k);
  }

  /** and the table of a leaf holds the default alone, through all its spines; without a spine it is empty. */
  lemma WholeDefault(f: Net, nodes: Nodes, m: SystemID)
    requires Converged(f, nodes) && Whole(f) && m in f.leaves
    ensures m in nodes
    ensures (exists a :: f.Linked(a, m)) ==>
              && nodes[m].rib.Keys == {"0.0.0.0/0"} && nodes[m].rib["0.0.0.0/0"].metric == 1
              && forall a :: a in Ids(nodes[m].rib["0.0.0.0/0"].nextHops) <==> f.Linked(a, m)
    ensures (forall a :: !f.Linked(a, m)) ==> nodes[m].rib == map[]
  {
    hide Converged, UplinkOffers, Uplinks, BestTable, Announces, PrefixLists, Whole, Wrap32;
    NetIsBipartite(f, nodes);
    LeafUplinks(f, nodes, m);
    LeafComputed(f, nodes, m);
    var n := nodes[m];
    var ups := Uplinks(m, 0, n.adjs, n.entries);
    if a :| f.Linked(a, m) {
      var u :| u in ups && u.nextHop.id == a;
      forall p | p in n.rib ensures p == DEFAULT_ROUTE {
        QuietKeys(f, nodes, m, p);
      }
      LinkCostsOne(f, nodes, m);
      QuietLists(f, nodes, m);
      PositiveMetricsKeepDefault(n.entries, ups, 1);
      DefaultRouteExact(n.entries, ups, n.rib, 1);
      assert forall b :: b in IdsAtCost(ups, 1) <==> f.Linked(b, m);
    }
  }

  lemma QuietKeys(f: Net, nodes: Nodes, m: SystemID, p: string)
    requires Converged(f, nodes) && Whole(f) && m in f.leaves && m in nodes && p in nodes[m].rib
    ensures p == DEFAULT_ROUTE
  {
    hide Converged, Announces, Whole;
    if p != DEFAULT_ROUTE {
      NamedKeys(f, nodes, m, p);
      LeafRoutesExactly(f, nodes, m, p);
      var a, k :| Via(f, nodes, m, a, p, k);
      var j :| Announces(a, nodes[a], p, j);
      WholeIsQuiet(f, nodes, a, p, j);
    }
  }

  lemma QuietLists(f: Net, nodes: Nodes, m: SystemID)
    requires Converged(f, nodes) && Whole(f) && m in f.leaves && m in nodes
    requires forall u :: u in Uplinks(m, 0, nodes[m].adjs, nodes[m].entries) ==>
               u.nextHop.id in f.spines && f.Linked(m, u.nextHop.id)
    ensures forall u, pt: seq<PrefixEntry>, pe ::
              u in Uplinks(m, 0, nodes[m].adjs, nodes[m].entries) && Lists(nodes[m].entries, u, pt) && pe in pt ==>
              pe.metric == 1
  {
    hide Converged, Uplinks, PrefixLists, PrefixToString, Whole;
    forall u, pt: seq<PrefixEntry>, pe |
      u in Uplinks(m, 0, nodes[m].adjs, nodes[m].entries) && Lists(nodes[m].entries, u, pt) && pe in pt
      ensures pe.metric == 1
    {
      PlainLists(f, nodes, m, u.nextHop.id);
      if pt in PrefixLists(nodes[m].entries, SOUTH, u.nextHop.id, POS_DISAGG_TIE) {
        HeldList(f, nodes, m, u.nextHop.id, pt);
        WholeIsQuiet(f, nodes, u.nextHop.id, PrefixToString(pe.prefix), pe.metric);
      }
    }
  }
}
