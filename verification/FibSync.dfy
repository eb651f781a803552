/** The agent's route programming: two linked tables kept in step with the routing table. */
module FibSync {
  import opened RiftTypes
  import opened Prefixes
  import opened Routes

  type Groups = map<string, seq<Addr>>

  datatype FibRoute = FibRoute(group: string, metric: int)

  // The forwarding tables; `window` holds the prefixes added since the sync began.
  datatype Fib = Fib(groups: Groups, routes: map<string, FibRoute>, window: Option<set<string>>)

  datatype RouteEntry = RouteEntry(prefix: string, group: string, metric: int)
  datatype GroupUpdate = GroupUpdate(name: string, addrs: seq<Addr>)
  datatype Programmed = Programmed(group: string, metric: int, addrs: seq<Addr>)

  function AddrsOf(hops: seq<NextHop>): seq<Addr> {
    seq(|hops|, i requires 0 <= i < |hops| => hops[i].addr)
  }

  function Program(p: string, r: RouteVal): Programmed {
    Programmed(NhgName(p), Unsigned32(r.metric), AddrsOf(r.nextHops))
  }

  /** What ought to be installed: the routes with next hops. */
  function Desired(rib: Table): map<string, Programmed> {
    map p | p in rib && rib[p].nextHops != [] :: Program(p, rib[p])
  }

  ghost predicate Keyed(keys: set<string>) { forall p :: p in keys ==> '_' !in p }

  /** The tables hold exactly these routes, each with a group of its own. */
  ghost predicate Installed(fib: Fib, prog: map<string, Programmed>) {
    && fib.window.None? && fib.routes.Keys == prog.Keys
    && (forall p :: p in prog ==> prog[p].group == NhgName(p) && fib.routes[p] == FibRoute(NhgName(p), prog[p].metric))
    && (forall p :: p in prog ==> NhgName(p) in fib.groups && fib.groups[NhgName(p)] == prog[p].addrs)
    && (forall n :: n in fib.groups ==> exists p :: p in prog && n == NhgName(p))
  }

  /** What the plan holds, hop by hop. */
  lemma DesiredExactly(rib: Table)
    ensures forall p :: p in Desired(rib) <==> p in rib && rib[p].nextHops != []
    ensures forall p :: p in Desired(rib) ==> Planned32(Desired(rib)[p].metric, rib[p].metric)
    ensures forall p :: p in Desired(rib) ==>
              Desired(rib)[p].group == NhgName(p) && |Desired(rib)[p].addrs| == |rib[p].nextHops|
    ensures forall p, i :: p in Desired(rib) && 0 <= i < |rib[p].nextHops| ==>
              Desired(rib)[p].addrs[i] == rib[p].nextHops[i].addr
  {
    hide NhgName;
  }

  /** u is the uint32 that the int32 x converts to. */
  predicate Planned32(u: int, x: int) { 0 <= u < 0x1_0000_0000 && (x - u) % 0x1_0000_0000 == 0 }

  /**
   * The tables hold a route for exactly the prefixes with next hops, at their metric, through a group of their own that
   * lists the addresses of all their hops in order, and no other group.
   */
  ghost predicate InStep(fib: Fib, rib: Table) {
    && fib.window.None?
    && (forall p :: p in fib.routes <==> p in rib && rib[p].nextHops != [])
    && (forall p :: p in fib.routes ==>
          fib.routes[p].group == NhgName(p) && Planned32(fib.routes[p].metric, rib[p].metric))
    && (forall p :: p in fib.routes ==> NhgName(p) in fib.groups && |fib.groups[NhgName(p)]| == |rib[p].nextHops|)
    && (forall p, i :: p in fib.routes && 0 <= i < |rib[p].nextHops| ==>
          fib.groups[NhgName(p)][i] == rib[p].nextHops[i].addr)
    && (forall n :: n in fib.groups ==> exists p :: p in fib.routes && n == NhgName(p))
  }

  lemma InstalledInStep(fib: Fib, rib: Table)
    requires Installed(fib, Desired(rib))
    ensures InStep(fib, rib)
  {
    hide NhgName, Desired;
    DesiredExactly(rib);
  }

  ghost predicate NoDangling(fib: Fib) {
    forall p :: p in fib.routes ==> fib.routes[p].group in fib.groups
  }

  /** On the way between two settings: every route has its own group, holding its addresses before or after. */
  ghost predicate Between(fib: Fib, was: map<string, Programmed>, next: map<string, Programmed>) {
    forall p :: p in fib.routes ==> RouteBetween(fib, was, next, p)
  }

  ghost predicate RouteBetween(fib: Fib, was: map<string, Programmed>, next: map<string, Programmed>, p: string)
    requires p in fib.routes
  {
    && fib.routes[p].group == NhgName(p) && NhgName(p) in fib.groups
    && ((p in was && fib.groups[NhgName(p)] == was[p].addrs) || (p in next && fib.groups[NhgName(p)] == next[p].addrs))
    && ((p in was && fib.routes[p].metric == was[p].metric) || (p in next && fib.routes[p].metric == next[p].metric))
  }

  lemma BetweenNeverDangles(fib: Fib, was: map<string, Programmed>, next: map<string, Programmed>)
    requires Between(fib, was, next)
    ensures NoDangling(fib)
  {
    hide NhgName;
    forall p | p in fib.routes ensures fib.routes[p].group in fib.groups { assert RouteBetween(fib, was, next, p); }
  }

  /** The tables as the calls change them, all calls succeeding; every table ever held is on record. */
  class Ndk {
    var fib: Fib
    ghost var record: seq<Fib>

    constructor ()
      ensures fib == Fib(map[], map[], None) && record == []
    {
      fib, record := Fib(map[], map[], None), [];
    }

    method AddOrUpdateNextHopGroup(name: string, addrs: seq<Addr>)
      modifies this
      ensures fib == old(fib).(groups := old(fib).groups[name := addrs]) && record == old(record) + [fib]
    {
      fib := fib.(groups := fib.groups[name := addrs]);
      record := record + [fib];
    }

    method DeleteNextHopGroups(names: seq<string>)
      modifies this
      ensures fib == old(fib).(groups := old(fib).groups - Elements(names)) && record == old(record) + [fib]
    {
      fib := fib.(groups := fib.groups - set n | n in names);
      record := record + [fib];
    }

    method RouteSyncStart()
      modifies this
      ensures fib == old(fib).(window := Some({})) && record == old(record) + [fib]
    {
      fib := fib.(window := Some({}));
      record := record + [fib];
    }

    method AddOrUpdateRoutes(entries: seq<RouteEntry>)
      modifies this
      ensures fib == WithRoutes(old(fib), entries) && record == old(record) + [fib]
    {
      fib := WithRoutes(fib, entries);
      record := record + [fib];
    }

    /** Routes not added during the window go. */
    method RouteSyncEnd()
      requires fib.window.Some?
      modifies this
      ensures fib == old(fib).(routes := map p | p in old(fib).routes
        && p in old(fib).window.value :: old(fib).routes[p], window := None)
      ensures record == old(record) + [fib]
    {
      fib := fib.(routes := map p | p in fib.routes && p in fib.window.value :: fib.routes[p], window := None);
      record := record + [fib];
    }

    method DeleteRoutes(prefixes: seq<string>)
      modifies this
      ensures fib == old(fib).(routes := old(fib).routes - Elements(prefixes)) && record == old(record) + [fib]
    {
      fib := fib.(routes := fib.routes - set p | p in prefixes);
      record := record + [fib];
    }
  }

  function WithRoutes(fib: Fib, entries: seq<RouteEntry>): Fib {
    if entries == [] then fib
    else
      var f := WithRoutes(fib, entries[..|entries| - 1]);
      var e := entries[|entries| - 1];
      f.(routes := f.routes[e.prefix := FibRoute(e.group, e.metric)],
         window := if f.window.Some? then Some(f.window.value + {e.prefix}) else None)
  }

  // ---- The lists a sync works through ----

  function EntryFor(p: string, g: Programmed): RouteEntry { RouteEntry(p, g.group, g.metric) }

  predicate Stale(was: map<string, Programmed>, p: string, g: Programmed) { p !in was || was[p].addrs != g.addrs }

  /** One entry per route of `next`, and one update per group whose addresses changed, over the prefixes `done`. */
  ghost predicate Planned(was: map<string, Programmed>, next: map<string, Programmed>, entries: seq<RouteEntry>,
                          updates: seq<GroupUpdate>) {
    && (forall e :: e in entries <==> exists p :: p in next && e == EntryFor(p, next[p]))
    && (forall u :: u in updates <==> exists p :: && p in next && Stale(was, p, next[p])
                                                  && u == GroupUpdate(next[p].group, next[p].addrs))
  }

  /** In plain words: every route once more, and the groups that are new or whose addresses differ, in order. */
  lemma PlannedExactly(was: map<string, Programmed>, next: map<string, Programmed>, entries: seq<RouteEntry>,
                       updates: seq<GroupUpdate>)
    requires Planned(was, next, entries, updates)
    ensures forall e :: e in entries <==> e.prefix in next && e.group == next[e.prefix].group
                                          && e.metric == next[e.prefix].metric
    ensures forall u :: u in updates <==>
              exists p :: && p in next && (p !in was || was[p].addrs != next[p].addrs)
                          && u.name == next[p].group && u.addrs == next[p].addrs
  {
    forall e ensures e in entries <==> e.prefix in next && e.group == next[e.prefix].group
                                       && e.metric == next[e.prefix].metric
    {
      if e.prefix in next && e.group == next[e.prefix].group && e.metric == next[e.prefix].metric {
        assert e == EntryFor(e.prefix, next[e.prefix]);
      }
    }
    forall u ensures u in updates <==>
                       exists p :: && p in next && (p !in was || was[p].addrs != next[p].addrs)
                                   && u.name == next[p].group && u.addrs == next[p].addrs
    {
      if p :| && p in next && (p !in was || was[p].addrs != next[p].addrs)
              && u.name == next[p].group && u.addrs == next[p].addrs {
        assert Stale(was, p, next[p]) && u == GroupUpdate(next[p].group, next[p].addrs);
      }
    }
  }

  ghost predicate Wanted(next: map<string, Programmed>) {
    Keyed(next.Keys) && forall p :: p in next ==> next[p].group == NhgName(p)
  }

  lemma PlanOneMore(was: map<string, Programmed>, next: map<string, Programmed>, entries: seq<RouteEntry>,
                    updates: seq<GroupUpdate>, p: string, g: Programmed)
    requires Planned(was, next, entries, updates) && p !in next
    ensures Planned(was, next[p := g], entries + [EntryFor(p, g)],
                    updates + if Stale(was, p, g) then [GroupUpdate(g.group, g.addrs)] else [])
  {
    hide Stale, EntryFor;
    var next', entries' := next[p := g], entries + [EntryFor(p, g)];
    var updates' := updates + if Stale(was, p, g) then [GroupUpdate(g.group, g.addrs)] else [];
    assert next'[p] == g && forall q :: q in next ==> next'[q] == next[q];
    forall e ensures e in entries' <==> exists q :: q in next' && e == EntryFor(q, next'[q]) {
      if e in entries {
        var q :| q in next && e == EntryFor(q, next[q]);
        assert q in next' && e == EntryFor(q, next'[q]);
      }
      if e == EntryFor(p, g) { assert p in next' && e == EntryFor(p, next'[p]); }
    }
    forall u
      ensures u in updates' <==>
                exists q :: q in next' && Stale(was, q, next'[q]) && u == GroupUpdate(next'[q].group, next'[q].addrs)
    {
      if u in updates {
        var q :| q in next && Stale(was, q, next[q]) && u == GroupUpdate(next[q].group, next[q].addrs);
        assert q in next' && Stale(was, q, next'[q]);
      } else if u in updates' {
        assert p in next' && Stale(was, p, next'[p]);
      }
    }
  }

  // ---- What each phase does to the tables ----

  ghost predicate Overlaid(groups: Groups, applied: seq<GroupUpdate>, result: Groups) {
    && (forall u :: u in applied ==> u.name in result && result[u.name] == u.addrs)
    && (forall n :: n in result ==> (n in groups && result[n] == groups[n]) || exists u :: u in applied && u.name == n)
    && (forall n :: n in groups ==> n in result && (result[n] == groups[n] || exists u :: u in applied && u.name == n))
  }

  ghost predicate Consistent(updates: seq<GroupUpdate>) {
    forall u, v :: u in updates && v in updates && u.name == v.name ==> u == v
  }

  lemma PlanConsistent(was: map<string, Programmed>, next: map<string, Programmed>, entries: seq<RouteEntry>,
                       updates: seq<GroupUpdate>)
    requires Planned(was, next, entries, updates) && Wanted(next)
    ensures Consistent(updates)
  {
    hide NhgName, EntryFor;
    forall u, v | u in updates && v in updates && u.name == v.name ensures u == v {
      var p :| p in next && Stale(was, p, next[p]) && u == GroupUpdate(next[p].group, next[p].addrs);
      var q :| q in next && Stale(was, q, next[q]) && v == GroupUpdate(next[q].group, next[q].addrs);
      NhgNameInjective(p, q);
    }
  }

  lemma OverlayMore(groups: Groups, applied: seq<GroupUpdate>, result: Groups, u: GroupUpdate)
    requires Overlaid(groups, applied, result) && forall v :: v in applied && v.name == u.name ==> v == u
    ensures Overlaid(groups, applied + [u], result[u.name := u.addrs])
  {
    assert u in applied + [u];
    forall n | n in groups && exists v :: v in applied && v.name == n
      ensures exists v :: v in applied + [u] && v.name == n
    {
      var v :| v in applied && v.name == n;
      assert v in applied + [u];
    }
    forall n | n in result && exists v :: v in applied && v.name == n
      ensures exists v :: v in applied + [u] && v.name == n
    {
      var v :| v in applied && v.name == n;
      assert v in applied + [u];
    }
  }

  /** With some groups already updated, every old route still has its group, with addresses from before or after. */
  lemma OverlayBetween(fib: Fib, was: map<string, Programmed>, next: map<string, Programmed>, entries: seq<RouteEntry>,
                       updates: seq<GroupUpdate>, i: nat, groups: Groups)
    requires Installed(fib, was) && Keyed(was.Keys) && Wanted(next) && Planned(was, next, entries, updates)
    requires i <= |updates| && Overlaid(fib.groups, updates[..i], groups)
    ensures Between(fib.(groups := groups), was, next)
  {
    hide NhgName, EntryFor;
    var mid := fib.(groups := groups);
    forall p | p in mid.routes ensures RouteBetween(mid, was, next, p) {
      if groups[NhgName(p)] != fib.groups[NhgName(p)] {
        var u :| u in updates[..i] && u.name == NhgName(p);
        assert u in updates;
        var q :| q in next && Stale(was, q, next[q]) && u == GroupUpdate(next[q].group, next[q].addrs);
        NhgNameInjective(p, q);
      }
    }
  }

  /** After all updates every wanted route has its group with the new addresses. */
  lemma AllOverlaid(fib: Fib, was: map<string, Programmed>, next: map<string, Programmed>, entries: seq<RouteEntry>,
                    updates: seq<GroupUpdate>, groups: Groups)
    requires Installed(fib, was) && Keyed(was.Keys) && Wanted(next) && Planned(was, next, entries, updates)
    requires Overlaid(fib.groups, updates, groups)
    ensures forall p :: p in next ==> NhgName(p) in groups && groups[NhgName(p)] == next[p].addrs
    ensures forall n :: n in groups ==> exists p :: p in was.Keys + next.Keys && n == NhgName(p)
  {
    hide NhgName, EntryFor;
    forall p | p in next ensures NhgName(p) in groups && groups[NhgName(p)] == next[p].addrs {
      if Stale(was, p, next[p]) {
        assert GroupUpdate(next[p].group, next[p].addrs) in updates;
      } else if groups[NhgName(p)] != fib.groups[NhgName(p)] {
        var u :| u in updates && u.name == NhgName(p);
        var q :| q in next && Stale(was, q, next[q]) && u == GroupUpdate(next[q].group, next[q].addrs);
        NhgNameInjective(p, q);
      }
    }
    forall n | n in groups ensures exists p :: p in was.Keys + next.Keys && n == NhgName(p) {
      if u :| u in updates && u.name == n {
        var q :| q in next && Stale(was, q, next[q]) && u == GroupUpdate(next[q].group, next[q].addrs);
        assert q in was.Keys + next.Keys;
      } else {
        var p :| p in was && n == NhgName(p);
        assert p in was.Keys + next.Keys;
      }
    }
  }

  function PrefixesOf(entries: seq<RouteEntry>): set<string> { set e | e in entries :: e.prefix }

  lemma {:induction false} AddedRoutes(fib: Fib, entries: seq<RouteEntry>, next: map<string, Programmed>)
    requires fib.window == Some({})
    requires forall e :: e in entries ==> e.prefix in next && e == EntryFor(e.prefix, next[e.prefix])
    ensures WithRoutes(fib, entries).groups == fib.groups
    ensures WithRoutes(fib, entries).window == Some(PrefixesOf(entries))
    ensures WithRoutes(fib, entries).routes.Keys == fib.routes.Keys + PrefixesOf(entries)
    ensures forall p :: p in WithRoutes(fib, entries).routes ==> AddedOne(fib, entries, next, p)
  {
    if entries == [] {
      assert PrefixesOf(entries) == {};
    } else {
      var init, e := entries[..|entries| - 1], entries[|entries| - 1];
      assert entries == init + [e];
      AddedRoutes(fib, init, next);
      assert PrefixesOf(entries) == PrefixesOf(init) + {e.prefix};
      forall p | p in WithRoutes(fib, entries).routes ensures AddedOne(fib, entries, next, p) {
        if p != e.prefix { assert AddedOne(fib, init, next, p); }
      }
    }
  }

  ghost predicate AddedOne(fib: Fib, entries: seq<RouteEntry>, next: map<string, Programmed>, p: string)
    requires p in WithRoutes(fib, entries).routes
  {
    if p in PrefixesOf(entries) then p in next
      && WithRoutes(fib, entries).routes[p] == FibRoute(next[p].group, next[p].metric)
    else p in fib.routes && WithRoutes(fib, entries).routes[p] == fib.routes[p]
  }

  lemma PlannedPrefixes(was: map<string, Programmed>, next: map<string, Programmed>, entries: seq<RouteEntry>,
                        updates: seq<GroupUpdate>)
    requires Planned(was, next, entries, updates)
    ensures PrefixesOf(entries) == next.Keys
    ensures forall e :: e in entries ==> e.prefix in next && e == EntryFor(e.prefix, next[e.prefix])
  {
    forall p | p in next ensures p in PrefixesOf(entries) {
      assert EntryFor(p, next[p]) in entries;
    }
  }

  /** The tables once the groups are ready: old routes, every group old or wanted. */
  ghost predicate Ready(fib: Fib, was: map<string, Programmed>, next: map<string, Programmed>) {
    && Between(fib, was, next) && fib.routes.Keys == was.Keys
    && (forall p :: p in next ==> NhgName(p) in fib.groups && fib.groups[NhgName(p)] == next[p].addrs)
    && (forall n :: n in fib.groups ==> exists p :: p in was.Keys + next.Keys && n == NhgName(p))
  }

  /** All routes pushed: old ones linger, wanted ones are in place. */
  lemma PushedBetween(fib: Fib, was: map<string, Programmed>, next: map<string, Programmed>, entries: seq<RouteEntry>,
                      updates: seq<GroupUpdate>)
    requires Ready(fib, was, next) && fib.window == Some({}) && Planned(was, next, entries, updates) && Wanted(next)
    ensures Between(WithRoutes(fib, entries), was, next)
    ensures WithRoutes(fib, entries).window == Some(next.Keys) && WithRoutes(fib, entries).groups == fib.groups
    ensures WithRoutes(fib, entries).routes.Keys == was.Keys + next.Keys
    ensures forall p :: p in next ==>
        p in WithRoutes(fib, entries).routes
          && WithRoutes(fib, entries).routes[p] == FibRoute(NhgName(p), next[p].metric)
  {
    hide NhgName, Planned;
    PlannedPrefixes(was, next, entries, updates);
    AddedRoutes(fib, entries, next);
    var mid := WithRoutes(fib, entries);
    forall p | p in mid.routes
      ensures RouteBetween(mid, was, next, p) && (p in next ==> mid.routes[p] == FibRoute(NhgName(p), next[p].metric))
    {
      assert AddedOne(fib, entries, next, p);
      if p in fib.routes { assert RouteBetween(fib, was, next, p); }
    }
  }

  ghost predicate StaleNames(was: map<string, Programmed>, next: map<string, Programmed>, names: seq<string>) {
    forall n :: n in names <==> exists p :: p in was.Keys - next.Keys && n == NhgName(p)
  }

  /** The window closed: only wanted routes are left, and stale groups alone remain to go. */
  ghost predicate Closed(fib: Fib, was: map<string, Programmed>, next: map<string, Programmed>) {
    && fib.window.None? && fib.routes.Keys == next.Keys
    && (forall p :: p in next ==> fib.routes[p] == FibRoute(NhgName(p), next[p].metric))
    && (forall p :: p in next ==> NhgName(p) in fib.groups && fib.groups[NhgName(p)] == next[p].addrs)
    && (forall n :: n in fib.groups ==> exists p :: p in was.Keys + next.Keys && n == NhgName(p))
  }

  lemma ClosedBetween(fib: Fib, was: map<string, Programmed>, next: map<string, Programmed>)
    requires Closed(fib, was, next)
    ensures Between(fib, was, next)
  {
    hide NhgName;
  }

  lemma StaleGone(fib: Fib, was: map<string, Programmed>, next: map<string, Programmed>, names: seq<string>)
    requires Closed(fib, was, next) && StaleNames(was, next, names) && Wanted(next) && Keyed(was.Keys)
    ensures Installed(fib.(groups := fib.groups - Elements(names)), next)
  {
    hide NhgName;
    var groups := fib.groups - Elements(names);
    forall p | p in next ensures NhgName(p) in groups {
      if NhgName(p) in names {
        var q :| q in was.Keys - next.Keys && NhgName(p) == NhgName(q);
        NhgNameInjective(p, q);
      }
    }
    forall n | n in groups ensures exists p :: p in next && n == NhgName(p) {
      var p :| p in was.Keys + next.Keys && n == NhgName(p);
      assert p in was.Keys - next.Keys ==> n in names;
    }
  }

  ghost predicate RecordBetween(record: seq<Fib>, from: nat, was: map<string, Programmed>,
                                next: map<string, Programmed>) {
    from <= |record| && forall i :: from <= i < |record| ==> Between(record[i], was, next)
  }

  /** Tables keyed by formatted prefixes are within what a sync may be given. */
  lemma FormattedKeys(rib: Table)
    requires forall p :: p in rib ==> exists x :: p == PrefixToString(x)
    ensures Keyed(rib.Keys)
  {
    hide PrefixToString;
    forall p | p in rib ensures '_' !in p {
      var x :| p == PrefixToString(x);
      KeysHaveNoUnderscore(x);
    }
  }

  // ---- Glue between the phases ----

  lemma NothingPlanned(was: map<string, Programmed>)
    ensures Planned(was, map[], [], [])
  {
  }

  lemma DesiredWanted(rib: Table)
    requires Keyed(rib.Keys)
    ensures Wanted(Desired(rib))
  {
  }

  lemma EmptyEither(was: map<string, Programmed>, next: map<string, Programmed>, entries: seq<RouteEntry>)
    requires PrefixesOf(entries) == next.Keys && |entries| == 0 && |was| == 0
    ensures next == map[] && was == map[]
  {
  }

  lemma InstalledKeys(fib: Fib, prog: map<string, Programmed>)
    requires Installed(fib, prog)
    ensures fib.routes.Keys == prog.Keys && fib.window.None?
  {
  }

  lemma InstalledBetween(fib: Fib, was: map<string, Programmed>, next: map<string, Programmed>)
    requires Installed(fib, next)
    ensures Between(fib, was, next)
  {
    hide NhgName;
  }

  /** Readiness says nothing of the window. */
  lemma ReadyFacts(fib: Fib, was: map<string, Programmed>, next: map<string, Programmed>)
    requires Ready(fib, was, next)
    ensures Between(fib, was, next) && Between(fib.(window := Some({})), was, next)
    ensures Ready(fib.(window := Some({})), was, next)
  {
    hide NhgName;
    forall p | p in fib.routes ensures RouteBetween(fib.(window := Some({})), was, next, p) {
      assert RouteBetween(fib, was, next, p);
    }
  }

  lemma WindowCloses(ready: Fib, pushed: Fib, closed: Fib, was: map<string, Programmed>, next: map<string, Programmed>)
    requires Ready(ready, was, next) && pushed.groups == ready.groups && pushed.window == Some(next.Keys)
    requires pushed.routes.Keys == was.Keys + next.Keys
    requires forall p :: p in next ==> pushed.routes[p] == FibRoute(NhgName(p), next[p].metric)
    requires closed ==
               pushed.(routes := map p | p in pushed.routes && p in next.Keys :: pushed.routes[p], window := None)
    ensures Closed(closed, was, next)
  {
    hide NhgName, Between;
  }

  lemma NoRecord(record: seq<Fib>, was: map<string, Programmed>, next: map<string, Programmed>)
    ensures RecordBetween(record, |record|, was, next)
  {
  }

  lemma RecordMore(record: seq<Fib>, from: nat, fib: Fib, was: map<string, Programmed>, next: map<string, Programmed>)
    requires RecordBetween(record, from, was, next) && Between(fib, was, next)
    ensures RecordBetween(record + [fib], from, was, next)
  {
    hide Between;
  }

  lemma RecordJoins(a: seq<Fib>, b: seq<Fib>, c: seq<Fib>, was: map<string, Programmed>, next: map<string, Programmed>)
    requires a <= b <= c && RecordBetween(b, |a|, was, next) && RecordBetween(c, |b|, was, next)
    ensures RecordBetween(c, |a|, was, next)
  {
    hide Between;
    forall i | |a| <= i < |c| ensures Between(c[i], was, next) {
      if i < |b| { assert c[i] == b[i]; }
    }
  }

  lemma NothingInstalled(fib: Fib, prog: map<string, Programmed>)
    requires Installed(fib, prog) && |prog| == 0
    ensures prog == map[] && fib == Fib(map[], map[], None)
  {
    assert prog == map[] && fib.routes.Keys == {};
  }

  lemma AllGone(fib: Fib, prog: map<string, Programmed>, prefixes: seq<string>, names: seq<string>)
    requires Installed(fib, prog) && Elements(prefixes) == prog.Keys
    requires forall n :: n in names <==> exists p :: p in prog && n == NhgName(p)
    ensures fib.routes - Elements(prefixes) == map[] && fib.groups - Elements(names) == map[] && fib.window == None
  {
    hide NhgName;
    assert forall n :: n in fib.groups ==> n in names;
  }

  class Agent {
    const ndk: Ndk
    var programmed: map<string, Programmed>

    /** What the agent believes to be installed is installed. */
    ghost predicate Valid()
      reads this, ndk
    {
      Keyed(programmed.Keys) && Installed(ndk.fib, programmed)
    }

    constructor ()
      ensures Valid() && programmed == map[] && fresh(ndk)
    {
      ndk := new Ndk();
      programmed := map[];
    }

    /** The passes over the two tables that decide what to do. */
    method Plan(newRIB: Table)
      returns (next: map<string, Programmed>, entries: seq<RouteEntry>, updates: seq<GroupUpdate>)
      ensures next == Desired(newRIB) && Planned(programmed, next, entries, updates)
      ensures forall p :: p in next <==> p in newRIB && newRIB[p].nextHops != []
      ensures forall p :: p in next ==> next[p].group == NhgName(p) && Planned32(next[p].metric, newRIB[p].metric)
      ensures forall p :: p in next ==> |next[p].addrs| == |newRIB[p].nextHops|
      ensures forall p, i :: p in next && 0 <= i < |newRIB[p].nextHops| ==>
                next[p].addrs[i] == newRIB[p].nextHops[i].addr
      ensures forall u :: u in updates <==>
                exists p :: && p in next && (p !in programmed || programmed[p].addrs != next[p].addrs)
                            && u.name == next[p].group && u.addrs == next[p].addrs
    {
      hide NhgName, Planned;
      DesiredExactly(newRIB);
      next, entries, updates := map[], [], [];
      var todo := newRIB.Keys;
      NothingPlanned(programmed);
      while todo != {}
        invariant todo <= newRIB.Keys
        invariant next == map p | p in newRIB && p !in todo && newRIB[p].nextHops != [] :: Program(p, newRIB[p])
        invariant Planned(programmed, next, entries, updates)
      {
        var p :| p in todo;
        todo := todo - {p};
        if newRIB[p].nextHops != [] {
          var g := Program(p, newRIB[p]);
          PlanOneMore(programmed, next, entries, updates, p, g);
          entries := entries + [EntryFor(p, g)];
          if p !in programmed || programmed[p].addrs != g.addrs {
            updates := updates + [GroupUpdate(g.group, g.addrs)];
          } else {
            assert updates + [] == updates;
          }
          next := next[p := g];
        }
      }
      PlannedExactly(programmed, next, entries, updates);
    }

    method StaleGroups(next: map<string, Programmed>) returns (names: seq<string>)
      ensures StaleNames(programmed, next, names)
    {
      hide NhgName;
      names := [];
      var todo := programmed.Keys;
      while todo != {}
        invariant todo <= programmed.Keys
        invariant forall n :: n in names <==> exists p :: p in programmed.Keys - todo - next.Keys && n == NhgName(p)
      {
        var p :| p in todo;
        ghost var was := programmed.Keys - todo - next.Keys;
        todo := todo - {p};
        assert programmed.Keys - todo - next.Keys == was + if p in next then {} else {p};
        if p !in next { names := names + [NhgName(p)]; }
      }
      assert programmed.Keys - todo - next.Keys == programmed.Keys - next.Keys;
    }

    /** Groups first, while the old routes still stand. */
    method UpdateGroups(next: map<string, Programmed>, entries: seq<RouteEntry>, updates: seq<GroupUpdate>)
      requires Valid() && Wanted(next) && Planned(programmed, next, entries, updates)
      modifies ndk
      ensures Ready(ndk.fib, programmed, next) && ndk.fib.window.None?
      ensures old(ndk.record) <= ndk.record && RecordBetween(ndk.record, |old(ndk.record)|, programmed, next)
    {
      hide NhgName, Planned, Installed, Between;
      ghost var start := ndk.fib;
      PlanConsistent(programmed, next, entries, updates);
      for i := 0 to |updates|
        invariant ndk.fib == start.(groups := ndk.fib.groups) && Overlaid(start.groups, updates[..i], ndk.fib.groups)
        invariant old(ndk.record) <= ndk.record && RecordBetween(ndk.record, |old(ndk.record)|, programmed, next)
      {
        OverlayMore(start.groups, updates[..i], ndk.fib.groups, updates[i]);
        assert updates[..i + 1] == updates[..i] + [updates[i]];
        ndk.AddOrUpdateNextHopGroup(updates[i].name, updates[i].addrs);
        OverlayBetween(start, programmed, next, entries, updates, i + 1, ndk.fib.groups);
      }
      assert updates[..|updates|] == updates;
      OverlayBetween(start, programmed, next, entries, updates, |updates|, ndk.fib.groups);
      AllOverlaid(start, programmed, next, entries, updates, ndk.fib.groups);
      InstalledKeys(start, programmed);
    }

    /** SyncStart, all routes, SyncEnd: the routes not pushed go when the window closes. */
    method PushInWindow(next: map<string, Programmed>, entries: seq<RouteEntry>, ghost updates: seq<GroupUpdate>)
      requires Ready(ndk.fib, programmed, next) && Wanted(next) && Planned(programmed, next, entries, updates)
      modifies ndk
      ensures Closed(ndk.fib, programmed, next)
      ensures old(ndk.record) <= ndk.record && RecordBetween(ndk.record, |old(ndk.record)|, programmed, next)
    {
      hide NhgName, Planned, Between, Ready, Closed, WithRoutes, RecordBetween;
      ghost var from := |ndk.record|;
      NoRecord(ndk.record, programmed, next);
      ReadyFacts(ndk.fib, programmed, next);
      RecordMore(ndk.record, from, ndk.fib.(window := Some({})), programmed, next);
      ndk.RouteSyncStart();
      PushedBetween(ndk.fib, programmed, next, entries, updates);
      ghost var ready := ndk.fib;
      RecordMore(ndk.record, from, WithRoutes(ready, entries), programmed, next);
      ndk.AddOrUpdateRoutes(entries);
      ghost var pushed, before := ndk.fib, ndk.record;
      ndk.RouteSyncEnd();
      WindowCloses(ready, pushed, ndk.fib, programmed, next);
      ClosedBetween(ndk.fib, programmed, next);
      RecordMore(before, from, ndk.fib, programmed, next);
    }

    /**
     * syncRoutes: ends with exactly the wanted routes and groups, and never with a route whose group is missing on the
     * way.
     */
    method SyncRoutes(newRIB: Table)
      requires Valid() && Keyed(newRIB.Keys)
      modifies this, ndk
      ensures Valid() && programmed == Desired(newRIB) && InStep(ndk.fib, newRIB)
      ensures old(ndk.record) <= ndk.record && RecordBetween(ndk.record, |old(ndk.record)|, old(programmed), programmed)
    {
      hide NhgName, Planned, Installed, InStep, Between, Ready, StaleNames, Closed, RecordBetween, Desired;
      ghost var start := ndk.record;
      var next, entries, updates := Plan(newRIB);
      DesiredWanted(newRIB);
      PlannedPrefixes(programmed, next, entries, updates);
      NoRecord(start, programmed, next);
      if |entries| == 0 && |programmed| == 0 {
        EmptyEither(programmed, next, entries);
        InstalledInStep(ndk.fib, newRIB);
        return;
      }
      var stale := StaleGroups(next);
      UpdateGroups(next, entries, updates);
      ghost var ready := ndk.record;
      PushInWindow(next, entries, updates);
      RecordJoins(start, ready, ndk.record, programmed, next);
      StaleGone(ndk.fib, programmed, next, stale);
      ghost var before := ndk.record;
      ndk.DeleteNextHopGroups(stale);
      InstalledBetween(ndk.fib, programmed, next);
      RecordMore(before, |start|, ndk.fib, programmed, next);
      programmed := next;
      InstalledInStep(ndk.fib, newRIB);
    }

    method ProgrammedLists() returns (prefixes: seq<string>, names: seq<string>)
      ensures Elements(prefixes) == programmed.Keys
      ensures forall n :: n in names <==> exists p :: p in programmed && n == NhgName(p)
    {
      hide NhgName;
      prefixes, names := [], [];
      var todo := programmed.Keys;
      while todo != {}
        invariant todo <= programmed.Keys && Elements(prefixes) == programmed.Keys - todo
        invariant forall n :: n in names <==> exists p :: p in programmed.Keys - todo && n == NhgName(p)
      {
        var p :| p in todo;
        assert programmed.Keys - (todo - {p}) == (programmed.Keys - todo) + {p};
        todo := todo - {p};
        assert Elements(prefixes + [p]) == Elements(prefixes) + {p};
        prefixes, names := prefixes + [p], names + [NhgName(p)];
      }
      assert programmed.Keys - todo == programmed.Keys;
    }

    /** withdrawAllRoutes: routes first, then their groups. */
    method WithdrawAllRoutes()
      requires Valid()
      modifies this, ndk
      ensures Valid() && programmed == map[] && ndk.fib == Fib(map[], map[], None)
      ensures old(ndk.record) <= ndk.record && RecordBetween(ndk.record, |old(ndk.record)|, old(programmed), programmed)
    {
      hide NhgName;
      ghost var start := ndk.fib;
      if |programmed| == 0 {
        NothingInstalled(start, programmed);
        return;
      }
      var prefixes, names := ProgrammedLists();
      AllGone(start, programmed, prefixes, names);
      ndk.DeleteRoutes(prefixes);
      ndk.DeleteNextHopGroups(names);
      programmed := map[];
    }
  }
}
