/** Routes, the routing table, and the order-free meaning of filling it. */
module Routes {
  import opened RiftTypes
  import opened Prefixes

  datatype NextHop = NextHop(id: SystemID, addr: Addr, ifName: string)

  function Ids(nhs: seq<NextHop>): set<SystemID> {
    set nh | nh in nhs :: nh.id
  }

  /** a, then those of b whose neighbour has not been seen yet, in order. */
  function Merged(a: seq<NextHop>, b: seq<NextHop>): (r: seq<NextHop>)
    ensures Ids(r) == Ids(a) + Ids(b)
    ensures a <= r
    ensures forall nh :: nh in r ==> nh in a || nh in b
  {
    if b == [] then a
    else
      var m := Merged(a, b[..|b| - 1]);
      var last := b[|b| - 1];
      assert b == b[..|b| - 1] + [last];
      assert Ids(b) == Ids(b[..|b| - 1]) + {last.id};
      if last.id in Ids(m) then m else
        assert Ids(m + [last]) == Ids(m) + {last.id};
        m + [last]
  }

  ghost predicate FirstIn(b: seq<NextHop>, nh: NextHop) {
    exists k :: 0 <= k < |b| && b[k] == nh && b[k].id !in Ids(b[..k])
  }

  ghost predicate Before(b: seq<NextHop>, x: NextHop, y: NextHop) {
    exists k, l :: 0 <= k < l < |b| && b[k] == x && b[l] == y
  }

  ghost predicate FreshAt(m: seq<NextHop>, i: int, b: seq<NextHop>)
    requires 0 <= i < |m|
  {
    m[i].id !in Ids(m[..i]) && FirstIn(b, m[i])
  }

  lemma LongerList(b: seq<NextHop>, last: NextHop, x: NextHop)
    ensures FirstIn(b, x) ==> FirstIn(b + [last], x) && (x != last ==> Before(b + [last], x, last))
    ensures last.id !in Ids(b) ==> FirstIn(b + [last], last)
  {
    var more := b + [last];
    if k :| 0 <= k < |b| && b[k] == x && b[k].id !in Ids(b[..k]) {
      assert more[k] == x && more[..k] == b[..k] && more[|b|] == last;
    }
    if last.id !in Ids(b) {
      assert more[|b|] == last && more[..|b|] == b;
    }
  }

  lemma StaysBefore(b: seq<NextHop>, last: NextHop, x: NextHop, y: NextHop)
    requires Before(b, x, y)
    ensures Before(b + [last], x, y)
  {
    var more := b + [last];
    var k, l :| 0 <= k < l < |b| && b[k] == x && b[l] == y;
    assert more[k] == x && more[l] == y;
  }

  ghost predicate AddedFrom(m: seq<NextHop>, start: nat, b: seq<NextHop>) {
    && (forall i :: start <= i < |m| ==> FreshAt(m, i, b))
    && forall i, j :: start <= i < j < |m| ==> Before(b, m[i], m[j])
  }

  lemma SameAdded(n: seq<NextHop>, start: nat, rest: seq<NextHop>, last: NextHop)
    requires AddedFrom(n, start, rest)
    ensures AddedFrom(n, start, rest + [last])
  {
    hide FirstIn, Before;
    forall i | start <= i < |n| ensures FreshAt(n, i, rest + [last]) {
      assert FreshAt(n, i, rest);
      LongerList(rest, last, n[i]);
    }
    forall i, j | start <= i < j < |n| ensures Before(rest + [last], n[i], n[j]) {
      StaysBefore(rest, last, n[i], n[j]);
    }
  }

  lemma OneAdded(n: seq<NextHop>, start: nat, rest: seq<NextHop>, last: NextHop)
    requires start <= |n| && AddedFrom(n, start, rest) && last.id !in Ids(n) && last.id !in Ids(rest)
    ensures AddedFrom(n + [last], start, rest + [last])
  {
    hide FirstIn, Before;
    SameAdded(n, start, rest, last);
    var m := n + [last];
    LongerList(rest, last, last);
    assert m[..|n|] == n;
    forall i | start <= i < |n| ensures FreshAt(m, i, rest + [last]) && Before(rest + [last], m[i], last) {
      assert FreshAt(n, i, rest) && n[i] in n && n[i].id in Ids(n) && m[..i] == n[..i];
      LongerList(rest, last, n[i]);
    }
  }

  /** What is added to a: of each neighbour not seen before, the first hop in b, in the order of b. */
  lemma {:induction false} MergedExactly(a: seq<NextHop>, b: seq<NextHop>)
    ensures AddedFrom(Merged(a, b), |a|, b)
  {
    hide AddedFrom;
    if b == [] {
      NoneAdded(a);
    } else {
      var rest, last := b[..|b| - 1], b[|b| - 1];
      MergedExactly(a, rest);
      assert b == rest + [last];
      if last.id in Ids(Merged(a, rest)) {
        SameAdded(Merged(a, rest), |a|, rest, last);
      } else {
        OneAdded(Merged(a, rest), |a|, rest, last);
      }
    }
  }

  lemma NoneAdded(a: seq<NextHop>)
    ensures AddedFrom(a, |a|, [])
  {
  }

  method MergeNextHops(a: seq<NextHop>, b: seq<NextHop>) returns (result: seq<NextHop>)
    ensures result == Merged(a, b)
  {
    var seen := set nh | nh in a :: nh.id;
    result := a;
    for i := 0 to |b|
      invariant result == Merged(a, b[..i])
      invariant seen == Ids(result)
    {
      assert b[..i + 1][..i] == b[..i];
      if b[i].id !in seen {
        seen := seen + {b[i].id};
        result := result + [b[i]];
      }
    }
    assert b[..|b|] == b;
  }

  // What a Route object holds.
  datatype RouteVal = RouteVal(metric: Metric, routeType: int, nextHops: seq<NextHop>)
  datatype Offer = Offer(prefix: string, route: RouteVal)

  type Table = map<string, RouteVal>

  // A lower route type wins, then a lower metric.
  predicate Better(r: RouteVal, s: RouteVal) {
    r.routeType < s.routeType || (r.routeType == s.routeType && r.metric < s.metric)
  }

  predicate SameRank(r: RouteVal, s: RouteVal) {
    r.routeType == s.routeType && r.metric == s.metric
  }

  function AddOne(t: Table, o: Offer): Table {
    if o.prefix !in t || Better(o.route, t[o.prefix]) then t[o.prefix := o.route]
    else if SameRank(o.route, t[o.prefix]) then
      t[o.prefix := t[o.prefix].(nextHops := Merged(t[o.prefix].nextHops, o.route.nextHops))]
    else t
  }

  class Route {
    var prefix: string
    var val: RouteVal

    constructor (prefix: string, val: RouteVal)
      ensures this.prefix == prefix && this.val == val
    {
      this.prefix := prefix;
      this.val := val;
    }
  }

  /** A table of shared Route objects, as the map of pointers in the program. */
  class Rib {
    var routes: map<string, Route>

    ghost predicate Valid()
      reads this, routes.Values
    {
      && (forall p :: p in routes ==> routes[p].prefix == p)
      && (forall p, q :: p in routes && q in routes && routes[p] == routes[q] ==> p == q)
    }

    ghost function View(): Table
      reads this, routes.Values
    {
      map p | p in routes :: routes[p].val
    }

    constructor ()
      ensures Valid() && View() == map[] && routes == map[]
    {
      routes := map[];
    }

    // The one object adding a route writes to, if any.
    ghost function Touched(prefix: string, val: RouteVal): set<Route>
      reads this, routes.Values
    {
      if prefix in routes && SameRank(val, routes[prefix].val) then {routes[prefix]} else {}
    }

    /** addRoute. Only an equally ranked route is written to; a better one replaces the object. */
    method AddRoute(prefix: string, metric: Metric, routeType: int, nextHops: seq<NextHop>)
      requires Valid()
      modifies this, Touched(prefix, RouteVal(metric, routeType, nextHops))
      ensures Valid()
      ensures View() == AddOne(old(View()), Offer(prefix, RouteVal(metric, routeType, nextHops)))
      ensures fresh(routes.Values - old(routes.Values))
      ensures forall p :: p in old(routes) && p != prefix ==> p in routes && routes[p] == old(routes[p])
      ensures prefix in old(routes) && !Better(RouteVal(metric, routeType, nextHops), old(routes[prefix].val)) ==>
                routes == old(routes)
    {
      hide Merged, Better;
      var val := RouteVal(metric, routeType, nextHops);
      if prefix !in routes || Better(val, routes[prefix].val) {
        var r := new Route(prefix, val);
        routes := routes[prefix := r];
        assert View() == old(View())[prefix := val];
      } else if SameRank(val, routes[prefix].val) {
        var existing := routes[prefix];
        var merged := MergeNextHops(existing.val.nextHops, nextHops);
        existing.val := existing.val.(nextHops := merged);
        assert forall p :: p in routes && p != prefix ==> routes[p] != existing;
        assert View() == old(View())[prefix := existing.val];
      }
    }
  }

  // ---- The table a set of offers determines ----

  /** The neighbours of the offers for p that rank with r. */
  ghost function IdsAt(offers: set<Offer>, p: string, r: RouteVal): set<SystemID> {
    set o, nh | o in offers && o.prefix == p && SameRank(o.route, r) && nh in o.route.nextHops :: nh.id
  }

  /**
   * t holds, for exactly the offered prefixes, the least (type, metric) on offer, and exactly the
   * neighbours of the offers at that rank; each next hop is one that such an offer carried.
   */
  ghost predicate BestTable(t: Table, offers: set<Offer>) {
    && (forall o :: o in offers ==> o.prefix in t && !Better(o.route, t[o.prefix]))
    && (forall p :: p in t ==> Offered(t[p], offers, p))
  }

  ghost predicate Offered(r: RouteVal, offers: set<Offer>, p: string) {
    && (exists o :: o in offers && o.prefix == p && SameRank(o.route, r))
    && Ids(r.nextHops) == IdsAt(offers, p, r)
    && (forall nh :: nh in r.nextHops ==>
      exists o :: o in offers && o.prefix == p && SameRank(o.route, r) && nh in o.route.nextHops)
  }

  /** Spelled out: a lower type wins over any metric, a lower metric within the type. */
  lemma BestIsLeast(t: Table, offers: set<Offer>, o: Offer)
    requires BestTable(t, offers) && o in offers
    ensures o.prefix in t
    ensures var r := t[o.prefix];
            r.routeType < o.route.routeType || (r.routeType == o.route.routeType && r.metric <= o.route.metric)
  {
  }

  lemma EmptyTable()
    ensures BestTable(map[], {})
  {
  }

  /** addRoute keeps the table best for the offers seen so far, whichever branch it takes. */
  lemma AddOneBest(t: Table, offers: set<Offer>, o: Offer)
    requires BestTable(t, offers)
    ensures BestTable(AddOne(t, o), offers + {o})
  {
    var t', offers' := AddOne(t, o), offers + {o};
    forall p | p in t' ensures Offered(t'[p], offers', p) {
      if p != o.prefix {
        OtherPrefix(t[p], offers, o, p);
      } else if p !in t || Better(o.route, t[p]) {
        Replaced(t, offers, o);
      } else if SameRank(o.route, t[p]) {
        MergedIn(t, offers, o);
      } else {
        WorseIgnored(t, offers, o);
      }
    }
  }

  lemma OtherPrefix(r: RouteVal, offers: set<Offer>, o: Offer, p: string)
    requires Offered(r, offers, p) && p != o.prefix
    ensures Offered(r, offers + {o}, p)
  {
    assert IdsAt(offers + {o}, p, r) == IdsAt(offers, p, r);
  }

  lemma Replaced(t: Table, offers: set<Offer>, o: Offer)
    requires BestTable(t, offers)
    requires o.prefix !in t || Better(o.route, t[o.prefix])
    ensures Offered(o.route, offers + {o}, o.prefix)
  {
    assert o in offers + {o};
    forall id ensures id in Ids(o.route.nextHops) <==> id in IdsAt(offers + {o}, o.prefix, o.route) {
    }
  }

  lemma MergedIn(t: Table, offers: set<Offer>, o: Offer)
    requires BestTable(t, offers)
    requires o.prefix in t && SameRank(o.route, t[o.prefix])
    ensures Offered(AddOne(t, o)[o.prefix], offers + {o}, o.prefix)
  {
    var p := o.prefix;
    var r, r' := t[p], AddOne(t, o)[p];
    assert Offered(r, offers, p);
    assert o in offers + {o};
    assert IdsAt(offers + {o}, p, r') == IdsAt(offers, p, r) + Ids(o.route.nextHops);
    forall nh | nh in r'.nextHops
      ensures exists o' :: o' in offers + {o} && o'.prefix == p && SameRank(o'.route, r') && nh in o'.route.nextHops
    {
      if nh !in o.route.nextHops {
        var o' :| o' in offers && o'.prefix == p && SameRank(o'.route, r) && nh in o'.route.nextHops;
        assert o' in offers + {o};
      }
    }
  }

  lemma WorseIgnored(t: Table, offers: set<Offer>, o: Offer)
    requires BestTable(t, offers)
    requires o.prefix in t && !Better(o.route, t[o.prefix]) && !SameRank(o.route, t[o.prefix])
    ensures Offered(t[o.prefix], offers + {o}, o.prefix)
  {
    var p, r := o.prefix, t[o.prefix];
    assert Offered(r, offers, p);
    assert IdsAt(offers + {o}, p, r) == IdsAt(offers, p, r);
    var o' :| o' in offers && o'.prefix == p && SameRank(o'.route, r);
    assert o' in offers + {o};
  }

  // An offer that displaces o, or widens its neighbours, at o's prefix.
  ghost predicate Displaces(o': Offer, o: Offer) {
    o'.prefix == o.prefix && (Better(o'.route, o.route)
      || (SameRank(o'.route, o.route) && !(Ids(o'.route.nextHops) <= Ids(o.route.nextHops))))
  }

  ghost predicate Stands(t: Table, o: Offer) {
    o.prefix in t && SameRank(t[o.prefix], o.route) && Ids(t[o.prefix].nextHops) == Ids(o.route.nextHops)
  }

  lemma UndisplacedStands(t: Table, o: Offer, others: set<Offer>)
    requires BestTable(t, {o} + others) && forall o' :: o' in others ==> !Displaces(o', o)
    ensures Stands(t, o)
  {
    var offers, p := {o} + others, o.prefix;
    assert o in offers;
    var r := t[p];
    assert Offered(r, offers, p);
    var top :| top in offers && top.prefix == p && SameRank(top.route, r);
    forall id ensures id in IdsAt(offers, p, r) <==> id in Ids(o.route.nextHops) {
      if id in IdsAt(offers, p, r) {
        var o', nh: NextHop :| o' in offers && o'.prefix == p && SameRank(o'.route, r) && nh in o'.route.nextHops
          && nh.id == id;
        assert id in Ids(o'.route.nextHops);
      }
    }
  }

  lemma DisplacedFalls(t: Table, o: Offer, others: set<Offer>, o': Offer)
    requires BestTable(t, {o} + others) && o' in others && Displaces(o', o)
    ensures !Stands(t, o)
  {
    var offers, p := {o} + others, o.prefix;
    assert o in offers && o' in offers;
    assert Offered(t[p], offers, p);
    if SameRank(t[p], o.route) && SameRank(o'.route, o.route) {
      var id :| id in Ids(o'.route.nextHops) && id !in Ids(o.route.nextHops);
      assert id in IdsAt(offers, p, t[p]);
    }
  }

  /** An offer's route stands in the table exactly when no other offer displaces it. */
  lemma StandsUnlessDisplaced(t: Table, o: Offer, others: set<Offer>)
    requires BestTable(t, {o} + others)
    ensures o.prefix in t
    ensures (SameRank(t[o.prefix], o.route) && Ids(t[o.prefix].nextHops) == Ids(o.route.nextHops))
              <==> forall o' :: o' in others ==> !Displaces(o', o)
  {
    hide Displaces, Offered, SameRank;
    assert o in {o} + others;
    if o' :| o' in others && Displaces(o', o) {
      DisplacedFalls(t, o, others, o');
    } else {
      UndisplacedStands(t, o, others);
    }
  }

  /** If all offers for p go to good neighbours only, so does the route. */
  lemma RouteWithin(t: Table, offers: set<Offer>, p: string, good: set<SystemID>, some: Offer)
    requires BestTable(t, offers) && some in offers && some.prefix == p
    requires forall o :: o in offers && o.prefix == p ==> o.route.nextHops != [] && Ids(o.route.nextHops) <= good
    ensures p in t && Ids(t[p].nextHops) != {} && Ids(t[p].nextHops) <= good
  {
    assert Offered(t[p], offers, p);
    var best :| best in offers && best.prefix == p && SameRank(best.route, t[p]);
    assert best.route.nextHops[0].id in IdsAt(offers, p, t[p]);
    forall id | id in Ids(t[p].nextHops) ensures id in good {
      assert id in IdsAt(offers, p, t[p]);
      var o, nh: NextHop :| o in offers && o.prefix == p && SameRank(o.route, t[p]) && nh in o.route.nextHops
        && nh.id == id;
      assert id in Ids(o.route.nextHops);
    }
  }

  function Fold(t: Table, offers: seq<Offer>): Table {
    if offers == [] then t else AddOne(Fold(t, offers[..|offers| - 1]), offers[|offers| - 1])
  }

  lemma {:induction false} FoldBest(offers: seq<Offer>)
    ensures BestTable(Fold(map[], offers), Elements(offers))
  {
    if offers == [] {
      EmptyTable();
      assert Elements(offers) == {};
    } else {
      var init, last := offers[..|offers| - 1], offers[|offers| - 1];
      FoldBest(init);
      AddOneBest(Fold(map[], init), Elements(init), last);
      assert Elements(offers) == Elements(init) + {last} by { assert offers == init + [last]; }
    }
  }

  /** Same prefixes, and at each the same type, metric and neighbours. */
  ghost predicate Agree(t: Table, u: Table) {
    && t.Keys == u.Keys
    && forall p :: p in t ==> SameRank(t[p], u[p]) && Ids(t[p].nextHops) == Ids(u[p].nextHops)
  }

  lemma BestTableUnique(t: Table, u: Table, offers: set<Offer>)
    requires BestTable(t, offers) && BestTable(u, offers)
    ensures Agree(t, u)
  {
    forall p ensures p in t <==> p in u {
      if p in t { assert Offered(t[p], offers, p); }
      if p in u { assert Offered(u[p], offers, p); }
    }
    forall p | p in t ensures SameRank(t[p], u[p]) && Ids(t[p].nextHops) == Ids(u[p].nextHops) {
      assert Offered(t[p], offers, p) && Offered(u[p], offers, p);
    }
  }

  /** Any order and any repetition of the same offers fills the same table. */
  lemma FoldOrderFree(a: seq<Offer>, b: seq<Offer>)
    requires Elements(a) == Elements(b)
    ensures Agree(Fold(map[], a), Fold(map[], b))
  {
    FoldBest(a);
    FoldBest(b);
    BestTableUnique(Fold(map[], a), Fold(map[], b), set o | o in a);
  }

  // ---- Attaching the prefixes of one node ----

  function EntryOffer(pe: PrefixEntry, base: Metric, routeType: int, nhs: seq<NextHop>): Offer {
    Offer(PrefixToString(pe.prefix), RouteVal(Wrap32(pe.metric + base), routeType, nhs))
  }

  /** The offers the prefix lists of a node at distance base make through next hops nhs. */
  ghost function ListOffers(lists: set<seq<PrefixEntry>>, base: Metric, routeType: int, nhs: seq<NextHop>): set<Offer> {
    set pt, pe | pt in lists && pe in pt && PrefixToString(pe.prefix) != "" :: EntryOffer(pe, base, routeType, nhs)
  }

  /** The nested loops that attach every listed IPv4 prefix of one node to a table. */
  method AttachPrefixes(rib: Rib, lists: seq<seq<PrefixEntry>>, base: Metric, routeType: int, nhs: seq<NextHop>,
                        ghost offers: set<Offer>)
    requires rib.Valid() && BestTable(rib.View(), offers)
    modifies rib, rib.routes.Values
    ensures rib.Valid() && fresh(rib.routes.Values - old(rib.routes.Values))
    ensures BestTable(rib.View(), offers + ListOffers(Elements(lists), base, routeType, nhs))
  {
    hide PrefixToString, BestTable, AddOne;
    ghost var made := offers;
    assert offers + ListOffers(Elements(lists[..0]), base, routeType, nhs) == offers;
    for k := 0 to |lists|
      invariant rib.Valid() && fresh(rib.routes.Values - old(rib.routes.Values))
      invariant BestTable(rib.View(), made)
      invariant made == offers + ListOffers(Elements(lists[..k]), base, routeType, nhs)
    {
      AttachList(rib, lists[k], base, routeType, nhs, made);
      made := made + ListOffers({lists[k]}, base, routeType, nhs);
      assert Elements(lists[..k + 1]) == Elements(lists[..k]) + {lists[k]};
    }
    assert lists[..|lists|] == lists;
  }

  method AttachList(rib: Rib, pt: seq<PrefixEntry>, base: Metric, routeType: int, nhs: seq<NextHop>,
                    ghost offers: set<Offer>)
    requires rib.Valid() && BestTable(rib.View(), offers)
    modifies rib, rib.routes.Values
    ensures rib.Valid() && fresh(rib.routes.Values - old(rib.routes.Values))
    ensures BestTable(rib.View(), offers + ListOffers({pt}, base, routeType, nhs))
  {
    hide PrefixToString, BestTable, AddOne;
    ghost var made := offers;
    assert offers + ListOffers({pt[..0]}, base, routeType, nhs) == offers;
    for i := 0 to |pt|
      invariant rib.Valid() && fresh(rib.routes.Values - old(rib.routes.Values))
      invariant BestTable(rib.View(), made)
      invariant made == offers + ListOffers({pt[..i]}, base, routeType, nhs)
    {
      var o := EntryOffer(pt[i], base, routeType, nhs);
      OneMore(pt, i, base, routeType, nhs);
      if o.prefix != "" {
        AddOneBest(rib.View(), made, o);
        rib.AddRoute(o.prefix, o.route.metric, routeType, nhs);
        made := made + {o};
      }
    }
    assert pt[..|pt|] == pt;
  }

  lemma ListSource(o: Offer, lists: set<seq<PrefixEntry>>, base: Metric, routeType: int, nhs: seq<NextHop>)
    returns (pt: seq<PrefixEntry>, pe: PrefixEntry)
    requires o in ListOffers(lists, base, routeType, nhs)
    ensures pt in lists && pe in pt && PrefixToString(pe.prefix) != "" && o == EntryOffer(pe, base, routeType, nhs)
  {
    pt, pe :| pt in lists && pe in pt && PrefixToString(pe.prefix) != "" && o == EntryOffer(pe, base, routeType, nhs);
  }

  lemma OneMore(pt: seq<PrefixEntry>, i: nat, base: Metric, routeType: int, nhs: seq<NextHop>)
    requires i < |pt|
    ensures ListOffers({pt[..i + 1]}, base, routeType, nhs) == ListOffers({pt[..i]}, base, routeType, nhs)
              + if PrefixToString(pt[i].prefix) != "" then {EntryOffer(pt[i], base, routeType, nhs)} else {}
  {
    hide PrefixToString;
    assert pt[..i + 1] == pt[..i] + [pt[i]];
  }
}
