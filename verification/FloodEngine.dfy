/** The flood engine in the form the program has: an object whose handlers update queues and database. */
module FloodEngineClass {
  import opened RiftTypes
  import opened Lsdb
  import opened Scope
  import opened Originate
  import opened FloodSpec
  import opened TideChunks

  // ---- Facts the loops below rest on ----

  lemma NothingFlooded(s: Flood)
    ensures FloodAll(s, {}) == s
  {
    forall k | k in s.adjs ensures FloodAll(s, {}).adjs[k] == s.adjs[k] {
      var none: set<TIEID> := set id | id in {} && Scoped(s, k, id);
      assert s.adjs[k].tx + none == s.adjs[k].tx;
    }
  }

  lemma NoneAdded(a: AdjState)
    ensures a.tx + {} == a.tx && a.ack + {} == a.ack && a.req + {} == a.req
  {
  }

  lemma EnqueuedBoth(s: Flood, k: string, a: set<TIEID>, b: set<TIEID>)
    requires k in s.adjs
    ensures Enqueue(Enqueue(s, k, a, {}, {}), k, b, {}, {}) == Enqueue(s, k, a + b, {}, {})
  {
    assert (s.adjs[k].tx + a) + b == s.adjs[k].tx + (a + b);
    var twice := Enqueue(Enqueue(s, k, a, {}, {}), k, b, {}, {});
    assert twice.adjs[k] == Enqueue(s, k, a + b, {}, {}).adjs[k];
    assert twice.adjs == Enqueue(s, k, a + b, {}, {}).adjs;
  }

  lemma FloodOne(s: Flood, id: TIEID)
    ensures FloodAll(s, {id}).adjs ==
              map k | k in s.adjs :: if Scoped(s, k, id) then s.adjs[k].(tx := s.adjs[k].tx + {id}) else s.adjs[k]
  {
    hide ShouldFloodTIE;
    forall k | k in s.adjs
      ensures FloodAll(s, {id}).adjs[k] == if Scoped(s, k, id) then s.adjs[k].(tx := s.adjs[k].tx + {id}) else s.adjs[k]
    {
      var scoped := set i | i in {id} && Scoped(s, k, i);
      assert scoped == if Scoped(s, k, id) then {id} else {};
      NoneAdded(s.adjs[k]);
    }
  }

  lemma FloodTwice(s: Flood, a: set<TIEID>, b: set<TIEID>)
    ensures FloodAll(FloodAll(s, a), b) == FloodAll(s, a + b)
  {
    hide ShouldFloodTIE;
    var once := FloodAll(s, a);
    forall k | k in s.adjs ensures FloodAll(once, b).adjs[k] == FloodAll(s, a + b).adjs[k] {
      assert forall id :: Scoped(once, k, id) <==> Scoped(s, k, id);
      assert FloodAll(once, b).adjs[k].tx == FloodAll(s, a + b).adjs[k].tx;
    }
    assert FloodAll(once, b).adjs == FloodAll(s, a + b).adjs;
  }

  lemma FloodIgnoresEntries(s: Flood, entries: Entries, ids: set<TIEID>)
    ensures FloodAll(s.(entries := entries), ids) == FloodAll(s, ids).(entries := entries)
  {
    hide ShouldFloodTIE;
    var other := s.(entries := entries);
    forall k | k in s.adjs ensures FloodAll(other, ids).adjs[k] == FloodAll(s, ids).adjs[k] {
      assert forall id :: Scoped(other, k, id) <==> Scoped(s, k, id);
      assert FloodAll(other, ids).adjs[k].tx == FloodAll(s, ids).adjs[k].tx;
    }
    assert FloodAll(other, ids).adjs == FloodAll(s, ids).adjs;
  }

  function UnlistedAmong(s: Flood, k: string, t: Tide, ids: set<TIEID>): set<TIEID> {
    set id | id in ids && id in s.entries && InRange(t, id) && id !in HeaderIDs(t.headers) && Scoped(s, k, id)
  }

  lemma NothingEnqueued(s: Flood, k: string, t: Tide, ids: seq<TIEID>)
    requires k in s.adjs
    ensures s == Enqueue(s, k, UnlistedAmong(s, k, t, Elements(ids[..0])), {}, {})
  {
    assert UnlistedAmong(s, k, t, Elements(ids[..0])) == {};
    NoneAdded(s.adjs[k]);
    assert s.adjs[k := s.adjs[k]] == s.adjs;
  }

  lemma OneMoreListed(s: Flood, k: string, t: Tide, done: set<TIEID>, id: TIEID)
    requires id in s.entries
    ensures UnlistedAmong(s, k, t, done + {id}) ==
            UnlistedAmong(s, k, t, done) + if InRange(t, id) && id !in HeaderIDs(t.headers)
              && Scoped(s, k, id) then {id} else {}
  {
    hide InRange, HeaderIDs, Scoped;
  }

  lemma AllListed(s: Flood, k: string, t: Tide, ids: seq<TIEID>)
    requires Elements(ids) == s.entries.Keys
    ensures UnlistedAmong(s, k, t, Elements(ids)) == Unlisted(s, k, t)
  {
    hide InRange, HeaderIDs, Scoped;
  }

  /** Once a sorted walk passes the end of the range, nothing after it counts. */
  lemma PastTheRange(s: Flood, k: string, t: Tide, ids: seq<TIEID>, i: nat)
    requires StrictlySorted(ids) && Elements(ids) == s.entries.Keys
    requires i < |ids| && !UpTo(ids[i], t.end)
    ensures UnlistedAmong(s, k, t, Elements(ids[..i])) == Unlisted(s, k, t)
  {
    hide HeaderIDs, Scoped, CompareTIEID;
    forall id | id in Unlisted(s, k, t) ensures id in Elements(ids[..i]) {
      var j :| 0 <= j < |ids| && ids[j] == id;
      if i < j { TIEIDTotalOrder(ids[i], ids[j], t.end); }
      assert j < i;
      assert ids[..i][j] == id;
    }
  }

  function RenewedAmong(aged: Entries, done: set<TIEID>): Entries {
    map id | id in aged :: if id in done && Refreshed(aged[id]) then Bumped(aged[id]) else aged[id]
  }

  function ExpiringAmong(aged: Entries, done: set<TIEID>): set<TIEID> {
    set id | id in done && id in aged && Refreshed(aged[id])
  }

  lemma OneMoreRenewed(aged: Entries, done: set<TIEID>, id: TIEID)
    requires id in aged && id !in done
    ensures id in RenewedAmong(aged, done) && RenewedAmong(aged, done)[id] == aged[id]
    ensures RenewedAmong(aged, done + {id}) ==
              if Refreshed(aged[id]) then RenewedAmong(aged, done)[id := Bumped(aged[id])] else RenewedAmong(aged, done)
    ensures ExpiringAmong(aged, done + {id}) == ExpiringAmong(aged, done) + if Refreshed(aged[id]) then {id} else {}
  {
    hide Bumped;
  }

  lemma NotYet(ids: seq<TIEID>, i: nat)
    requires StrictlySorted(ids) && i < |ids|
    ensures ids[i] !in Elements(ids[..i])
  {
    hide CompareTIEID;
    forall j | 0 <= j < i ensures ids[j] != ids[i] { TIEIDTotalOrder(ids[j], ids[i], ids[i]); }
  }

  lemma RenewedAll(s: Flood, aged: Entries)
    requires s.entries == aged
    ensures FloodAll(s, ExpiringAmong(aged, aged.Keys)).(entries := RenewedAmong(aged, aged.Keys)) ==
            FloodAll(s.(entries := map id | id in aged :: if Refreshed(aged[id]) then Bumped(aged[id]) else aged[id]),
              ExpiringOwn(aged))
  {
    hide ShouldFloodTIE, Bumped, FloodAll;
    assert ExpiringAmong(aged, aged.Keys) == ExpiringOwn(aged);
    FloodIgnoresEntries(s, RenewedAmong(aged, aged.Keys), ExpiringOwn(aged));
    assert RenewedAmong(aged, aged.Keys) ==
             map id | id in aged :: if Refreshed(aged[id]) then Bumped(aged[id]) else aged[id];
  }

  // ---- Sending ----

  ghost predicate HeadersUpTo(s: Flood, k: string, ids: seq<TIEID>, headers: seq<HeaderWithLifetime>) {
    && k in s.adjs && SortedHeaders(headers)
    && Elements(headers) == HeadersOf(s.entries, Included(s, k) * Elements(ids))
    && forall h :: h in headers ==> IDOf(h) in ids
  }

  lemma OneMoreHeader(s: Flood, k: string, ids: seq<TIEID>, i: nat, was: seq<HeaderWithLifetime>,
                      headers: seq<HeaderWithLifetime>)
    requires Filed(s.entries) && StrictlySorted(ids) && Elements(ids) == s.entries.Keys && i < |ids|
    requires HeadersUpTo(s, k, ids[..i], was)
    requires ids[i] in s.entries
    requires headers == was + if ids[i] in Included(s, k) then [s.entries[ids[i]].Header()] else []
    ensures HeadersUpTo(s, k, ids[..i + 1], headers)
  {
    hide CompareTIEID, ShouldIncludeInTIDE;
    assert ids[..i + 1] == ids[..i] + [ids[i]];
    assert Elements(ids[..i + 1]) == Elements(ids[..i]) + {ids[i]};
    forall j | 0 <= j < |was| ensures Precedes(IDOf(was[j]), ids[i]) {
      assert was[j] in was;
      var m :| 0 <= m < i && ids[m] == IDOf(was[j]);
    }
    if ids[i] in Included(s, k) {
      assert Included(s, k) * Elements(ids[..i + 1]) == Included(s, k) * Elements(ids[..i]) + {ids[i]};
      assert Elements(headers) == Elements(was) + {s.entries[ids[i]].Header()};
    } else {
      assert Included(s, k) * Elements(ids[..i + 1]) == Included(s, k) * Elements(ids[..i]);
    }
  }

  lemma AllHeaders(s: Flood, k: string, ids: seq<TIEID>, headers: seq<HeaderWithLifetime>)
    requires Elements(ids) == s.entries.Keys && HeadersUpTo(s, k, ids, headers)
    ensures Elements(headers) == HeadersOf(s.entries, Included(s, k))
  {
    hide ShouldIncludeInTIDE;
    assert Included(s, k) * Elements(ids) == Included(s, k);
  }

  lemma OneMoreAck(entries: Entries, done: set<TIEID>, id: TIEID)
    ensures AckHeaders(entries, done + {id}) ==
              AckHeaders(entries, done) + if id in entries then {entries[id].Header()} else {}
  {
  }

  lemma OneMoreTIE(entries: Entries, a: AdjState, done: set<TIEID>, id: TIEID, was: seq<Sent>, out: seq<Sent>)
    requires TIEsOf(entries, a.(tx := done), was)
    requires out == was + if id in entries then [Sent(a.info.ifName, TIEMsg(entries[id].packet), entries[id].lifetime)]
      else []
    ensures TIEsOf(entries, a.(tx := done + {id}), out)
  {
    assert Elements(out) ==
           Elements(was) + if id in entries then {Sent(a.info.ifName, TIEMsg(entries[id].packet), entries[id].lifetime)}
             else {};
  }

  lemma SameHeader(a: AdjState, b: AdjState)
    requires a.info == b.info
    ensures forall hs, out :: TIREWith(a, hs, out) <==> TIREWith(b, hs, out)
  {
  }

  lemma SameTIEs(entries: Entries, a: AdjState, b: AdjState)
    requires a.info == b.info && a.tx == b.tx
    ensures forall out :: TIEsOf(entries, a, out) <==> TIEsOf(entries, b, out)
  {
  }

  /** `order` lists, once each, the members of `all` that are not left to do. */
  ghost predicate Visited(order: seq<string>, all: set<string>, todo: set<string>) {
    Elements(order) == all - todo && forall i, j :: 0 <= i < j < |order| ==> order[i] != order[j]
  }

  lemma VisitOne(order: seq<string>, all: set<string>, todo: set<string>, k: string)
    requires Visited(order, all, todo) && k in todo && todo <= all
    ensures Visited(order + [k], all, todo - {k})
  {
    assert Elements(order + [k]) == Elements(order) + {k};
    forall i | 0 <= i < |order| ensures order[i] != k { assert order[i] in Elements(order); }
  }

  lemma VisitedAll(s: Flood, order: seq<string>)
    requires Visited(order, s.adjs.Keys, {})
    ensures OrderOf(s, order)
  {
  }

  lemma NothingSent(s: Flood)
    ensures TIDEsInOrder(s, [], []) && DrainsInOrder(s, [], []) && Visited([], s.adjs.Keys, s.adjs.Keys)
  {
  }

  lemma OneMoreTIDEs(s: Flood, order: seq<string>, k: string, out: seq<Sent>, part: seq<Sent>)
    requires TIDEsInOrder(s, order, out) && SendsTIDEs(s, k, part)
    ensures TIDEsInOrder(s, order + [k], out + part)
  {
    hide SendsTIDEs;
    assert (order + [k])[..|order|] == order;
    assert TIDEsNext(s, Final(order + [k]), out, part, out + part);
  }

  lemma OneMoreDrain(s: Flood, order: seq<string>, k: string, out: seq<Sent>, part: seq<Sent>)
    requires DrainsInOrder(s, order, out) && k in s.adjs && Drains(s.entries, s.adjs[k], part)
    ensures DrainsInOrder(s, order + [k], out + part)
  {
    hide Drains;
    assert (order + [k])[..|order|] == order;
    assert DrainsNext(s, Final(order + [k]), out, part, out + part);
  }

  class FloodEngine {
    const self: SystemID
    const level: Level
    const lsdb: Database
    var adjs: map<string, AdjState>
    var local: seq<LocalPrefix>
    var sent: seq<Sent>

    ghost function State(): Flood
      reads this, lsdb
    {
      Flood(self, level, lsdb.entries, adjs, local)
    }

    constructor (self: SystemID, level: Level, local: seq<LocalPrefix>)
      ensures State() == Flood(self, level, map[], map[], local) && sent == [] && fresh(lsdb)
    {
      this.self, this.level, this.local := self, level, local;
      lsdb := new Database();
      adjs, sent := map[], [];
    }

    // ---- Queues ----

    method FloodTIEToAll(id: TIEID)
      modifies `adjs
      ensures State() == FloodAll(old(State()), {id})
    {
      adjs := map k | k in adjs ::
        if ShouldFloodTIE(id, self, level, adjs[k].info.neighborLevel) then adjs[k].(tx := adjs[k].tx + {id})
          else adjs[k];
      FloodOne(old(State()), id);
    }

    method FloodTIEToAllExcept(id: TIEID, excludeIf: string)
      modifies `adjs
      ensures State() == FloodExcept(old(State()), id, excludeIf)
    {
      adjs := map k | k in adjs ::
        if adjs[k].info.ifName != excludeIf && ShouldFloodTIE(id, self, level, adjs[k].info.neighborLevel)
        then adjs[k].(tx := adjs[k].tx + {id}) else adjs[k];
    }

    method EnqueueTX(k: string, id: TIEID)
      requires k in adjs
      modifies `adjs
      ensures State() == Enqueue(old(State()), k, {id}, {}, {})
    {
      NoneAdded(adjs[k]);
      adjs := adjs[k := adjs[k].(tx := adjs[k].tx + {id})];
    }

    method AckTIE(k: string, id: TIEID)
      requires k in adjs
      modifies `adjs
      ensures State() == Enqueue(old(State()), k, {}, {id}, {})
    {
      NoneAdded(adjs[k]);
      adjs := adjs[k := adjs[k].(ack := adjs[k].ack + {id})];
    }

    method EnqueueREQ(k: string, id: TIEID)
      requires k in adjs
      modifies `adjs
      ensures State() == Enqueue(old(State()), k, {}, {}, {id})
    {
      NoneAdded(adjs[k]);
      adjs := adjs[k := adjs[k].(req := adjs[k].req + {id})];
    }

    method DequeueTX(k: string, id: TIEID)
      requires k in adjs
      modifies `adjs
      ensures State() == Unqueue(old(State()), k, id)
    {
      adjs := adjs[k := adjs[k].(tx := adjs[k].tx - {id})];
    }

    // ---- Self-origination ----

    method InsertSelfOriginated(id: TIEID, el: Element)
      modifies lsdb
      ensures State() == InsertSelf(old(State()), id, el)
    {
      var existing := lsdb.Get(id);
      var seqNr := 1;
      if existing.Some? && existing.value.selfOriginated { seqNr := existing.value.packet.header.seqNr + 1; }
      var _ := lsdb.Insert(OwnEntry(id, seqNr, el));
    }

    method BumpOwnTIE(id: TIEID)
      modifies lsdb
      ensures State() == Bump(old(State()), id)
    {
      var existing := lsdb.Get(id);
      if existing.None? || !existing.value.selfOriginated { return; }
      var _ := lsdb.Insert(Bumped(existing.value));
    }

    /** Rebuilds every self-originated TIE but the disaggregation one; returns the identities written. */
    method OriginateSelfTIEs() returns (changed: seq<TIEID>)
      modifies lsdb
      ensures Originates(old(State()), State())
      ensures Elements(changed) == OwnIDs(old(State()))
    {
      var infos := map k | k in adjs :: adjs[k].info;
      var north := CollectNeighbors(infos, Northward(level, infos));
      var northEl := NodeTIE(level, north, if level == LEAF_LEVEL then Some(true) else None);
      InsertSelfOriginated(OwnID(NORTH, self, NODE_TIE), northEl);
      var prefixEl := BuildNorthPrefixes(local);
      InsertSelfOriginated(OwnID(NORTH, self, PREFIX_TIE), prefixEl);
      changed := [OwnID(NORTH, self, NODE_TIE), OwnID(NORTH, self, PREFIX_TIE)];
      var south := CollectNeighbors(infos, Southward(level, infos));
      var southEl := NodeTIE(level, south, None);
      if level > LEAF_LEVEL {
        InsertSelfOriginated(OwnID(SOUTH, self, NODE_TIE), southEl);
        InsertSelfOriginated(OwnID(SOUTH, self, PREFIX_TIE), SouthPrefixContent());
        changed := changed + [OwnID(SOUTH, self, NODE_TIE), OwnID(SOUTH, self, PREFIX_TIE)];
      }
      assert NorthNodeContent(level, infos, northEl) && SouthNodeContent(level, infos, southEl);
      assert old(State()).Infos() == infos;
      assert State() == OriginateWith(old(State()), northEl, southEl);
    }

    /** OriginatePositiveDisaggTIE: originates, withdraws by an empty list, or leaves things alone. */
    method HandleDisaggUpdate(prefixes: seq<PrefixEntry>)
      modifies `adjs, lsdb
      ensures Next(old(State()), DisaggUpdate(prefixes), State())
    {
      var id := OwnID(SOUTH, self, POS_DISAGG_TIE);
      if prefixes == [] {
        var existing := lsdb.Get(id);
        if existing.None? || !existing.value.selfOriginated { return; }
        if existing.value.packet.element.posDisagg == Some([]) { return; }
      }
      InsertSelfOriginated(id, DisaggContent(prefixes));
      FloodTIEToAll(id);
    }

    method HandleAdjChange(ifName: string, info: Option<AdjacencyInfo>)
      modifies `adjs, lsdb
      ensures Next(old(State()), AdjChange(ifName, info), State())
    {
      hide Originates, FloodAll;
      if info.Some? {
        adjs := adjs[ifName := AdjState(info.value, {}, {}, {})];
      } else {
        adjs := adjs - {ifName};
      }
      assert State() == WithAdjacency(old(State()), ifName, info);
      var changed := OriginateSelfTIEs();
      FloodEach(changed);
    }

    method FloodEach(ids: seq<TIEID>)
      modifies `adjs
      ensures State() == FloodAll(old(State()), Elements(ids))
    {
      hide FloodAll;
      ghost var mid := State();
      NothingFlooded(mid);
      assert Elements(ids[..0]) == {};
      for i := 0 to |ids|
        invariant State() == FloodAll(mid, Elements(ids[..i]))
      {
        FloodTIEToAll(ids[i]);
        FloodTwice(mid, Elements(ids[..i]), {ids[i]});
        assert Elements(ids[..i + 1]) == Elements(ids[..i]) + {ids[i]};
      }
      assert ids[..|ids|] == ids;
    }

    method UpdateLocalPrefixes(prefixes: seq<LocalPrefix>)
      modifies `local
      ensures Next(old(State()), SetLocalPrefixes(prefixes), State())
    {
      local := prefixes;
    }

    // ---- Received packets ----

    method HandleTIE(k: string, tie: TIEPacket)
      modifies `adjs, lsdb
      ensures Next(old(State()), Receive(k, TIEMsg(tie)), State())
    {
      var id := tie.header.id;
      if k !in adjs { return; }
      var existing := lsdb.Get(id);
      if existing.None? && id.originator != self
        && !ShouldAcceptTIE(id, self, level, adjs[k].info.neighborLevel) { return; }
      var cmp := if existing.None? then 1 else CompareTIEHeader(RxHeader(tie), existing.value.Header());
      if cmp > 0 {
        if id.originator == self {
          BumpOwnTIE(id);
          FloodTIEToAll(id);
        } else {
          var _ := lsdb.Insert(Entry(tie, RxHeader(tie).lifetime, false));
          AckTIE(k, id);
          FloodTIEToAllExcept(id, k);
        }
      } else if cmp < 0 {
        EnqueueTX(k, id);
      } else {
        AckTIE(k, id);
      }
    }

    method HandleTIDEHeader(k: string, h: HeaderWithLifetime)
      requires k in adjs
      modifies `adjs, lsdb
      ensures k in adjs && HeaderHandled(old(State()), k, h, State())
    {
      var id := h.header.id;
      var existing := lsdb.Get(id);
      if existing.None? {
        if id.originator == self {
          var changed := OriginateSelfTIEs();
          FloodTIEToAll(id);
        } else if ShouldAcceptTIE(id, self, level, adjs[k].info.neighborLevel) {
          EnqueueREQ(k, id);
        }
        return;
      }
      var cmp := CompareTIEHeader(h, existing.value.Header());
      if cmp > 0 {
        if id.originator == self {
          BumpOwnTIE(id);
          FloodTIEToAll(id);
        } else if ShouldAcceptTIE(id, self, level, adjs[k].info.neighborLevel) {
          EnqueueREQ(k, id);
        }
      } else if cmp < 0 {
        EnqueueTX(k, id);
      } else {
        DequeueTX(k, id);
      }
    }

    method HandleTIDE(k: string, t: Tide)
      modifies `adjs, lsdb
      ensures Next(old(State()), Receive(k, TIDEMsg(t)), State())
    {
      hide HeadersHandled, Unlisted;
      if k !in adjs { return; }
      HandleTIDEHeaders(k, t.headers);
      SendUnlisted(k, t);
    }

    method HandleTIDEHeaders(k: string, headers: seq<HeaderWithLifetime>)
      requires k in adjs
      modifies `adjs, lsdb
      ensures k in adjs && HeadersHandled(old(State()), k, headers, State())
    {
      hide HeaderHandled;
      ghost var was := State();
      for i := 0 to |headers|
        invariant k in adjs
        invariant HeadersHandled(was, k, headers[..i], State())
      {
        HandleTIDEHeader(k, headers[i]);
        assert headers[..i + 1][..i] == headers[..i];
      }
      assert headers[..|headers|] == headers;
    }

    /** Walks the database in identity order up to the end of the range. */
    method SendUnlisted(k: string, t: Tide)
      requires k in adjs
      modifies `adjs
      ensures State() == Enqueue(old(State()), k, Unlisted(old(State()), k, t), {}, {})
    {
      hide CompareTIEID, HeaderIDs, ShouldFloodTIE, UnlistedAmong, Unlisted;
      ghost var mid := State();
      var ids := SortedIDs(lsdb.entries.Keys);
      var i := 0;
      NothingEnqueued(mid, k, t, ids);
      while i < |ids|
        invariant 0 <= i <= |ids|
        invariant k in adjs && State() == Enqueue(mid, k, UnlistedAmong(mid, k, t, Elements(ids[..i])), {}, {})
        decreases |ids| - i
      {
        var id := ids[i];
        if CompareTIEID(id, t.end) > 0 {
          PastTheRange(mid, k, t, ids, i);
          break;
        }
        assert Elements(ids[..i + 1]) == Elements(ids[..i]) + {id};
        OneMoreListed(mid, k, t, Elements(ids[..i]), id);
        if CompareTIEID(id, t.start) >= 0 && id !in HeaderIDs(t.headers)
          && ShouldFloodTIE(id, self, level, adjs[k].info.neighborLevel) {
          TIEIDTotalOrder(id, t.start, id);
          EnqueueTX(k, id);
          EnqueuedBoth(mid, k, UnlistedAmong(mid, k, t, Elements(ids[..i])), {id});
        } else {
          TIEIDTotalOrder(id, t.start, id);
          NoneAdded(AdjState(adjs[k].info, UnlistedAmong(mid, k, t, Elements(ids[..i])), {}, {}));
        }
        i := i + 1;
      }
      if i == |ids| {
        assert ids[..i] == ids;
        AllListed(mid, k, t, ids);
      }
    }

    method HandleTIRE(k: string, hs: seq<HeaderWithLifetime>)
      modifies `adjs
      ensures Next(old(State()), Receive(k, TIREMsg(hs)), State())
    {
      if k !in adjs { return; }
      ghost var was := State();
      for i := 0 to |hs|
        invariant k in adjs && State() == TIREHandled(was, k, hs[..i])
      {
        var h := hs[i];
        assert hs[..i + 1][..i] == hs[..i];
        var existing := lsdb.Get(h.header.id);
        if existing.Some? {
          var cmp := CompareTIEHeader(h, existing.value.Header());
          if h.lifetime == 0 {
            if cmp <= 0 { EnqueueTX(k, h.header.id); }
          } else if cmp == 0 {
            DequeueTX(k, h.header.id);
          }
        }
      }
      assert hs[..|hs|] == hs;
    }

    method HandleFloodPacket(k: string, p: Packet)
      modifies `adjs, lsdb
      ensures Next(old(State()), Receive(k, p), State())
    {
      match p
      case TIEMsg(tie) => HandleTIE(k, tie);
      case TIDEMsg(tide) => HandleTIDE(k, tide);
      case TIREMsg(headers) => HandleTIRE(k, headers);
      case OtherMsg =>
    }

    // ---- Timers ----

    method TickLifetimes()
      requires Filed(lsdb.entries)
      modifies `adjs, lsdb
      ensures Next(old(State()), Tick, State())
    {
      hide Bumped, FloodAll;
      ghost var was := State();
      DropExpired();
      ghost var aged := AgedEntries(was.entries);
      ghost var mid := State();
      var ids := SortedIDs(lsdb.entries.Keys);
      NothingFlooded(mid);
      assert Elements(ids[..0]) == {} && RenewedAmong(aged, {}) == aged && ExpiringAmong(aged, {}) == {};
      for i := 0 to |ids|
        invariant lsdb.entries == RenewedAmong(aged, Elements(ids[..i]))
        invariant State() == FloodAll(mid, ExpiringAmong(aged, Elements(ids[..i]))).(entries := lsdb.entries)
      {
        ghost var done := Elements(ids[..i]);
        assert Elements(ids[..i + 1]) == done + {ids[i]};
        NotYet(ids, i);
        Renew(ids[i], mid, aged, done);
      }
      assert ids[..|ids|] == ids;
      RenewedAll(mid, aged);
    }

    /** Ages every entry by a second and removes what expired. */
    method DropExpired()
      modifies lsdb
      ensures lsdb.entries == AgedEntries(old(lsdb.entries))
    {
      var expired := lsdb.DecrementLifetimes(1);
      ghost var all := lsdb.entries;
      for i := 0 to |expired|
        invariant lsdb.entries == all - Elements(expired[..i])
      {
        lsdb.Remove(expired[i]);
        assert Elements(expired[..i + 1]) == Elements(expired[..i]) + {expired[i]};
      }
      assert expired[..|expired|] == expired;
    }

    method Renew(id: TIEID, ghost mid: Flood, ghost aged: Entries, ghost done: set<TIEID>)
      requires Filed(aged) && id in aged && id !in done
      requires lsdb.entries == RenewedAmong(aged, done)
      requires State() == FloodAll(mid, ExpiringAmong(aged, done)).(entries := lsdb.entries)
      modifies `adjs, lsdb
      ensures lsdb.entries == RenewedAmong(aged, done + {id})
      ensures State() == FloodAll(mid, ExpiringAmong(aged, done + {id})).(entries := lsdb.entries)
    {
      hide Bumped, FloodAll, RenewedAmong, ExpiringAmong;
      OneMoreRenewed(aged, done, id);
      var entry := lsdb.Get(id);
      if entry.Some? && entry.value.selfOriginated && entry.value.lifetime < REORIGINATE_BEFORE_EXPIRY {
        BumpOwnTIE(id);
        FloodTIEToAll(id);
        FloodIgnoresEntries(FloodAll(mid, ExpiringAmong(aged, done)), lsdb.entries, {id});
        FloodTwice(mid, ExpiringAmong(aged, done), {id});
      } else {
        assert ExpiringAmong(aged, done) + {} == ExpiringAmong(aged, done);
      }
    }

    // ---- Sending ----

    method SendFloodPacket(ifName: string, p: Packet, lifetime: int)
      modifies `sent
      ensures sent == old(sent) + [Sent(ifName, p, lifetime)]
    {
      sent := sent + [Sent(ifName, p, lifetime)];
    }

    method SendTIDEsToAdj(k: string)
      requires Filed(lsdb.entries) && k in adjs
      modifies `sent
      ensures State() == old(State())
      ensures exists part :: sent == old(sent) + part && SendsTIDEs(State(), k, part)
    {
      var headers: seq<HeaderWithLifetime> := [];
      var ids := SortedIDs(lsdb.entries.Keys);
      for i := 0 to |ids|
        invariant HeadersUpTo(State(), k, ids[..i], headers)
        invariant sent == old(sent)
      {
        ghost var was := headers;
        if ShouldIncludeInTIDE(ids[i], self, level, adjs[k].info.neighborLevel) {
          headers := headers + [lsdb.entries[ids[i]].Header()];
        }
        OneMoreHeader(State(), k, ids, i, was, headers);
      }
      assert ids[..|ids|] == ids;
      AllHeaders(State(), k, ids, headers);
      var chunks := BuildTIDEChunks(headers);
      ghost var part := TIDEPackets(adjs[k].info.ifName, chunks);
      assert sent == old(sent) + part[..0];
      for i := 0 to |chunks|
        invariant sent == old(sent) + part[..i]
      {
        SendFloodPacket(adjs[k].info.ifName, TIDEMsg(chunks[i]), 0);
        assert part[..i + 1] == part[..i] + [part[i]];
      }
      assert part[..|chunks|] == part;
      assert TIDEsFor(State(), k, headers, chunks);
    }

    method GenerateAndSendTIDEs()
      requires Filed(lsdb.entries)
      modifies `sent
      ensures Next(old(State()), SendTIDEs, State())
      ensures exists out :: sent == old(sent) + out && Outputs(old(State()), SendTIDEs, out)
    {
      hide SendsTIDEs, TIDEsInOrder, Visited, OrderOf;
      NothingSent(State());
      var todo := adjs.Keys;
      ghost var order: seq<string>, out: seq<Sent> := [], [];
      while todo != {}
        invariant todo <= adjs.Keys && Visited(order, adjs.Keys, todo)
        invariant sent == old(sent) + out && TIDEsInOrder(State(), order, out)
      {
        var k :| k in todo;
        VisitOne(order, adjs.Keys, todo, k);
        todo := todo - {k};
        ghost var before := sent;
        SendTIDEsToAdj(k);
        ghost var part :| sent == before + part && SendsTIDEs(State(), k, part);
        OneMoreTIDEs(State(), order, k, out, part);
        order, out := order + [k], out + part;
      }
      VisitedAll(State(), order);
    }

    method SendAcks(k: string)
      requires k in adjs
      modifies `adjs, `sent
      ensures lsdb.entries == old(lsdb.entries) && adjs == old(adjs)[k := old(adjs)[k].(ack := {})]
      ensures exists out :: sent ==
                old(sent) + out && TIREWith(old(adjs)[k], AckHeaders(lsdb.entries, old(adjs)[k].ack), out)
    {
      var headers: seq<HeaderWithLifetime> := [];
      var a := adjs[k];
      var todo := a.ack;
      while todo != {}
        invariant adjs == old(adjs) && sent == old(sent)
        invariant todo <= a.ack && Elements(headers) == AckHeaders(lsdb.entries, a.ack - todo)
      {
        var id :| id in todo;
        OneMoreAck(lsdb.entries, a.ack - todo, id);
        assert a.ack - (todo - {id}) == (a.ack - todo) + {id};
        todo := todo - {id};
        if id in lsdb.entries {
          var header := lsdb.entries[id].Header();
          assert Elements(headers + [header]) == Elements(headers) + {header};
          headers := headers + [header];
        }
      }
      assert a.ack - todo == a.ack;
      ghost var out: seq<Sent> := [];
      if |headers| > 0 {
        SendFloodPacket(a.info.ifName, TIREMsg(headers), 0);
        out := [Sent(a.info.ifName, TIREMsg(headers), 0)];
        assert headers[0] in Elements(headers);
      }
      assert sent == old(sent) + out;
      adjs := adjs[k := a.(ack := {})];
    }

    method SendRequests(k: string)
      requires k in adjs
      modifies `adjs, `sent
      ensures lsdb.entries == old(lsdb.entries) && adjs == old(adjs)[k := old(adjs)[k].(req := {})]
      ensures exists out :: sent == old(sent) + out && TIREWith(old(adjs)[k], ReqHeaders(old(adjs)[k].req), out)
    {
      var headers: seq<HeaderWithLifetime> := [];
      var todo := adjs[k].req;
      ghost var out: seq<Sent> := [];
      if todo == {} {
        assert sent == old(sent) + out && ReqHeaders(adjs[k].req) == {};
        assert adjs[k].(req := {}) == adjs[k];
        return;
      }
      ghost var some := Pick(todo);
      assert Request(some) in ReqHeaders(adjs[k].req);
      while todo != {}
        invariant adjs == old(adjs) && sent == old(sent)
        invariant todo <= adjs[k].req && Elements(headers) == ReqHeaders(adjs[k].req - todo)
      {
        var id :| id in todo;
        assert adjs[k].req - (todo - {id}) == (adjs[k].req - todo) + {id};
        todo := todo - {id};
        assert Elements(headers + [Request(id)]) == Elements(headers) + {Request(id)};
        headers := headers + [Request(id)];
      }
      assert adjs[k].req - todo == adjs[k].req;
      SendFloodPacket(adjs[k].info.ifName, TIREMsg(headers), 0);
      out := [Sent(adjs[k].info.ifName, TIREMsg(headers), 0)];
      assert sent == old(sent) + out;
      adjs := adjs[k := adjs[k].(req := {})];
    }

    method SendQueuedTIEs(k: string)
      requires k in adjs
      modifies `adjs, `sent
      ensures lsdb.entries == old(lsdb.entries) && adjs == old(adjs)[k := old(adjs)[k].(tx := {})]
      ensures exists out :: sent == old(sent) + out && TIEsOf(lsdb.entries, old(adjs)[k], out)
    {
      var a := adjs[k];
      ghost var out: seq<Sent> := [];
      assert a.(tx := a.tx) == a && adjs[k := a] == adjs;
      while adjs[k].tx != {}
        invariant k in adjs && adjs == old(adjs)[k := a.(tx := adjs[k].tx)] && adjs[k].tx <= a.tx
        invariant sent == old(sent) + out && TIEsOf(lsdb.entries, a.(tx := a.tx - adjs[k].tx), out)
        decreases adjs[k].tx
      {
        var id :| id in adjs[k].tx;
        var entry := lsdb.Get(id);
        ghost var done, was := a.tx - adjs[k].tx, out;
        if entry.Some? {
          SendFloodPacket(a.info.ifName, TIEMsg(entry.value.packet), entry.value.lifetime);
          out := out + [Sent(a.info.ifName, TIEMsg(entry.value.packet), entry.value.lifetime)];
        }
        OneMoreTIE(lsdb.entries, a, done, id, was, out);
        adjs := adjs[k := adjs[k].(tx := adjs[k].tx - {id})];
        assert a.tx - adjs[k].tx == done + {id};
      }
      assert a.tx - adjs[k].tx == a.tx;
    }

    method DrainAdjQueues(k: string)
      requires k in adjs
      modifies `adjs, `sent
      ensures lsdb.entries == old(lsdb.entries) && adjs == old(adjs)[k := AdjState(old(adjs)[k].info, {}, {}, {})]
      ensures exists part :: sent == old(sent) + part && Drains(lsdb.entries, old(adjs)[k], part)
    {
      hide TIREWith, TIEsOf, AckHeaders, ReqHeaders;
      ghost var a, start := adjs[k], sent;
      SendAcks(k);
      ghost var acks :| sent == start + acks && TIREWith(a, AckHeaders(lsdb.entries, a.ack), acks);
      SendRequests(k);
      SameHeader(a, a.(ack := {}));
      ghost var reqs :| sent == start + acks + reqs && TIREWith(a, ReqHeaders(a.req), reqs);
      SendQueuedTIEs(k);
      SameTIEs(lsdb.entries, a, a.(ack := {}, req := {}));
      ghost var ties :| sent == start + acks + reqs + ties && TIEsOf(lsdb.entries, a, ties);
      assert sent == start + (acks + reqs + ties);
    }

    method DrainQueues()
      modifies `adjs, `sent
      ensures Next(old(State()), Drain, State())
      ensures exists out :: sent == old(sent) + out && Outputs(old(State()), Drain, out)
    {
      hide Drains, DrainsInOrder, Visited, OrderOf;
      NothingSent(State());
      ghost var was := State();
      var todo := adjs.Keys;
      ghost var order: seq<string>, out: seq<Sent> := [], [];
      while todo != {}
        invariant todo <= adjs.Keys == was.adjs.Keys && Visited(order, was.adjs.Keys, todo)
        invariant sent == old(sent) + out && DrainsInOrder(was, order, out)
        invariant forall k :: k in adjs ==>
                    adjs[k] == if k in todo then was.adjs[k] else AdjState(was.adjs[k].info, {}, {}, {})
      {
        var k :| k in todo;
        VisitOne(order, was.adjs.Keys, todo, k);
        todo := todo - {k};
        ghost var before := sent;
        DrainAdjQueues(k);
        ghost var part :| sent == before + part && Drains(lsdb.entries, was.adjs[k], part);
        OneMoreDrain(was, order, k, out, part);
        order, out := order + [k], out + part;
      }
      VisitedAll(was, order);
    }
  }
}
