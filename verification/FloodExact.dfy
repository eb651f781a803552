/** What each input does to the flood engine's entries and queues, adjacency by adjacency. */
module FloodExact {
  import opened RiftTypes
  import opened Lsdb
  import opened Scope
  import opened Originate
  import opened FloodSpec
  import opened TideChunks
  import FloodEngineClass

  predicate SameNode(s: Flood, s': Flood) {
    s'.self == s.self && s'.level == s.level && s'.local == s.local && s'.adjs.Keys == s.adjs.Keys
  }

  /** An own TIE written anew: the next sequence number and a lifetime of a week. */
  function Anew(e: Entry): Entry {
    Entry(TIEPacket(TIEHeader(e.packet.header.id, e.packet.header.seqNr + 1, Some(604800)), e.packet.element), 604800,
          e.selfOriginated)
  }

  /** The TIE waits for every adjacency in scope, and nothing else is queued. */
  ghost predicate QueuedInScope(s: Flood, id: TIEID, s': Flood) {
    s'.adjs.Keys == s.adjs.Keys
      && forall j :: j in s.adjs ==>
        s'.adjs[j] == s.adjs[j].(tx := s.adjs[j].tx +
          if ShouldFloodTIE(id, s.self, s.level, s.adjs[j].info.neighborLevel) then {id} else {})
  }

  /** Our copy, if we hold one of our own, is written anew; the identity waits for every adjacency in scope. */
  ghost predicate OwnRenewed(s: Flood, id: TIEID, s': Flood) {
    && QueuedInScope(s, id, s')
    && s'.entries == if id in s.entries && s.entries[id].selfOriginated
                     then s.entries[s.entries[id].packet.header.id := Anew(s.entries[id])] else s.entries
  }

  // ---- A TIE ----

  predicate PassedOn(s: Flood, k: string, id: TIEID, j: string)
    requires j in s.adjs
  {
    s.adjs[j].info.ifName != k && ShouldFloodTIE(id, s.self, s.level, s.adjs[j].info.neighborLevel)
  }

  /** Stored, acknowledged on k, and queued on every adjacency in scope with another interface name; no other change. */
  ghost predicate StoredAndPassedOn(s: Flood, k: string, tie: TIEPacket, life: int, s': Flood) {
    var id := tie.header.id;
    && SameNode(s, s') && s'.entries == s.entries[id := Entry(tie, life, false)]
    && forall j :: j in s.adjs ==>
         s'.adjs[j] == AdjState(s.adjs[j].info, s.adjs[j].tx + (if PassedOn(s, k, id, j) then {id} else {}),
                                s.adjs[j].ack + (if j == k then {id} else {}), s.adjs[j].req)
  }

  /** These, and nothing else, are added to the queues of k. */
  ghost predicate Answered(s: Flood, k: string, tx: set<TIEID>, ack: set<TIEID>, req: set<TIEID>, s': Flood) {
    && SameNode(s, s') && s'.entries == s.entries
    && forall j :: j in s.adjs ==>
         s'.adjs[j] == if j != k then s.adjs[j]
                       else AdjState(s.adjs[j].info, s.adjs[j].tx + tx, s.adjs[j].ack + ack, s.adjs[j].req + req)
  }

  /**
   * News from elsewhere that is acceptable is stored and passed on. News of our own TIE makes us write it anew. If our
   * copy is newer it is sent back; if both are the same the TIE is acknowledged.
   */
  ghost predicate TIETaken(s: Flood, k: string, tie: TIEPacket, s': Flood)
    requires k in s.adjs
  {
    var id := tie.header.id;
    var life := match tie.header.originationLifetime case Some(l) => l case None => 604800;
    if id !in s.entries then
      if id.originator == s.self then OwnRenewed(s, id, s')
      else if ShouldAcceptTIE(id, s.self, s.level, s.adjs[k].info.neighborLevel) then
        StoredAndPassedOn(s, k, tie, life, s')
      else s' == s
    else
      var news := CompareTIEHeader(HeaderWithLifetime(tie.header, life), s.entries[id].Header());
      if news > 0 then
        if id.originator == s.self then OwnRenewed(s, id, s') else StoredAndPassedOn(s, k, tie, life, s')
      else if news < 0 then Answered(s, k, {id}, {}, {}, s')
      else Answered(s, k, {}, {id}, {}, s')
  }

  lemma FloodedQueues(s: Flood, id: TIEID)
    ensures QueuedInScope(s, id, FloodAll(s, {id})) && FloodAll(s, {id}).entries == s.entries
  {
    hide ShouldFloodTIE;
    FloodEngineClass.FloodOne(s, id);
    forall j | j in s.adjs ensures s.adjs[j].tx + {} == s.adjs[j].tx {
      FloodEngineClass.NoneAdded(s.adjs[j]);
    }
  }

  lemma Renewal(s: Flood, id: TIEID)
    ensures OwnRenewed(s, id, FloodAll(Bump(s, id), {id}))
  {
    hide ShouldFloodTIE, FloodAll;
    FloodedQueues(Bump(s, id), id);
  }

  lemma EnqueuedAt(s: Flood, k: string, tx: set<TIEID>, ack: set<TIEID>, req: set<TIEID>)
    requires k in s.adjs
    ensures Answered(s, k, tx, ack, req, Enqueue(s, k, tx, ack, req))
  {
  }

  lemma InstalledAt(s: Flood, k: string, tie: TIEPacket)
    requires k in s.adjs
    ensures StoredAndPassedOn(s, k, tie,
              match tie.header.originationLifetime case Some(l) => l case None => 604800, Installed(s, k, tie))
  {
    hide ShouldFloodTIE, FloodExcept, Enqueue;
    var id := tie.header.id;
    var a := s.(entries := s.entries[id := Entry(tie, RxHeader(tie).lifetime, false)]);
    var b := Enqueue(a, k, {}, {id}, {});
    EnqueuedAt(a, k, {}, {id}, {});
    ExceptAt(b, id, k);
    var c := FloodExcept(b, id, k);
    forall j | j in s.adjs
      ensures c.adjs[j] == AdjState(s.adjs[j].info, s.adjs[j].tx + (if PassedOn(s, k, id, j) then {id} else {}),
                                    s.adjs[j].ack + (if j == k then {id} else {}), s.adjs[j].req)
    {
      assert PassedOn(b, k, id, j) <==> PassedOn(s, k, id, j);
      FloodEngineClass.NoneAdded(s.adjs[j]);
    }
  }

  lemma ExceptAt(s: Flood, id: TIEID, k: string)
    ensures var s' := FloodExcept(s, id, k);
            && SameNode(s, s') && s'.entries == s.entries
            && forall j :: j in s.adjs ==>
                 s'.adjs[j] == if PassedOn(s, k, id, j) then s.adjs[j].(tx := s.adjs[j].tx + {id}) else s.adjs[j]
  {
    hide ShouldFloodTIE;
  }

  /** What a received TIE does. */
  lemma TIEExactly(s: Flood, k: string, tie: TIEPacket, s': Flood)
    requires Next(s, Receive(k, TIEMsg(tie)), s')
    ensures if k in s.adjs then TIETaken(s, k, tie, s') else s' == s
  {
    hide ShouldFloodTIE, ShouldAcceptTIE, CompareTIEHeader, Installed, FloodAll, Bump, Enqueue, OwnRenewed, Answered,
      StoredAndPassedOn;
    if k in s.adjs {
      Renewal(s, tie.header.id);
      InstalledAt(s, k, tie);
      EnqueuedAt(s, k, {tie.header.id}, {}, {});
      EnqueuedAt(s, k, {}, {tie.header.id}, {});
    }
  }

  // ---- The headers of a TIDE ----

  /** The identities a node originates whatever happens: Node and Prefix TIEs, south only above the leaves. */
  function AlwaysOwn(self: SystemID, level: Level): set<TIEID> {
    {TIEID(2, self, 2, 1), TIEID(2, self, 3, 1)} +
    if level > 0 then {TIEID(1, self, 2, 1), TIEID(1, self, 3, 1)} else {}
  }

  /** A Node TIE's neighbours: those of the adjacencies kept, each with what one such adjacency says. */
  ghost predicate ListsNeighbors(s: Flood, e: Element, up: bool) {
    && e.node.Some? && e.node.value.level == s.level && e.prefixes == None && e.posDisagg == None
    && (forall n :: n in e.node.value.neighbors <==>
                    exists j :: j in s.adjs && s.adjs[j].info.neighborID == n
                                && (up <==> s.adjs[j].info.neighborLevel >= s.level))
    && (forall n :: n in e.node.value.neighbors ==>
          exists j :: j in s.adjs && s.adjs[j].info.neighborID == n && (up <==> s.adjs[j].info.neighborLevel >= s.level)
                      && e.node.value.neighbors[n] == NodeNeighbor(s.adjs[j].info.neighborLevel, Some(1),
                                                                   s.adjs[j].info.localLink,
                                                                   s.adjs[j].info.neighborLink))
  }

  /** What each of our TIEs says. */
  ghost predicate Says(s: Flood, id: TIEID, e: Element) {
    if id.tieType == 2 then
      && ListsNeighbors(s, e, id.direction == 2)
      && e.node.value.overload == if id.direction == 2 && s.level == 0 then Some(true) else None
    else if id.direction == 2 then
      && e.node == None && e.posDisagg == None && e.prefixes.Some? && |e.prefixes.value| == |s.local|
      && forall i :: 0 <= i < |s.local| ==>
           e.prefixes.value[i] == PrefixEntry(s.local[i].prefix, s.local[i].metric, s.local[i].loopback)
    else e == Element(None, Some([PrefixEntry(IPv4(0, 0), 1, false)]), None)
  }

  /** One above the number of our copy, or 1 without one. */
  function NumberAfter(entries: Entries, id: TIEID): int {
    if id in entries && entries[id].selfOriginated then entries[id].packet.header.seqNr + 1 else 1
  }

  ghost predicate Rewritten(s: Flood, ids: set<TIEID>, entries: Entries) {
    && entries.Keys == s.entries.Keys + ids
    && (forall id :: id in s.entries && id !in ids ==> entries[id] == s.entries[id])
    && forall id :: id in ids ==>
         && entries[id].packet.header == TIEHeader(id, NumberAfter(s.entries, id), Some(604800))
         && entries[id].lifetime == 604800 && entries[id].selfOriginated
  }

  /** All of them are written, and nothing else is. */
  ghost predicate AllWritten(s: Flood, entries: Entries) {
    && Rewritten(s, AlwaysOwn(s.self, s.level), entries)
    && forall id :: id in AlwaysOwn(s.self, s.level) ==> Says(s, id, entries[id].packet.element)
  }

  lemma NeighborsListed(s: Flood, nbrs: map<SystemID, NodeNeighbor>, up: bool, overload: Option<bool>)
    requires NeighborsOf(s.Infos(), if up then Northward(s.level, s.Infos()) else Southward(s.level, s.Infos()), nbrs)
    ensures ListsNeighbors(s, NodeTIE(s.level, nbrs, overload), up)
  {
    var kept := if up then Northward(s.level, s.Infos()) else Southward(s.level, s.Infos());
    forall j | j in s.adjs ensures j in kept <==> (up <==> s.adjs[j].info.neighborLevel >= s.level) {
      assert s.Infos()[j] == s.adjs[j].info;
    }
    forall n | n in nbrs
      ensures exists j :: j in s.adjs && s.adjs[j].info.neighborID == n
                          && (up <==> s.adjs[j].info.neighborLevel >= s.level)
                          && nbrs[n] == NodeNeighbor(s.adjs[j].info.neighborLevel, Some(1), s.adjs[j].info.localLink,
                                                     s.adjs[j].info.neighborLink)
    {
      var j :| j in kept && j in s.Infos() && s.Infos()[j].neighborID == n && nbrs[n] == NeighborOf(s.Infos()[j]);
      assert s.adjs[j].info == s.Infos()[j];
    }
    forall j | j in s.adjs && (up <==> s.adjs[j].info.neighborLevel >= s.level)
      ensures s.adjs[j].info.neighborID in nbrs
    {
      assert j in kept && j in s.Infos();
    }
  }

  lemma SaysAll(s: Flood, north: Element, south: Element)
    requires NorthNodeContent(s.level, s.Infos(), north) && SouthNodeContent(s.level, s.Infos(), south)
    ensures Says(s, TIEID(2, s.self, 2, 1), north) && Says(s, TIEID(1, s.self, 2, 1), south)
    ensures Says(s, TIEID(2, s.self, 3, 1), NorthPrefixContent(s.local))
    ensures Says(s, TIEID(1, s.self, 3, 1), SouthPrefixContent())
  {
    hide NeighborsOf, Northward, Southward, ListsNeighbors;
    var n :| NeighborsOf(s.Infos(), Northward(s.level, s.Infos()), n)
      && north == NodeTIE(s.level, n, if s.level == LEAF_LEVEL then Some(true) else None);
    NeighborsListed(s, n, true, if s.level == LEAF_LEVEL then Some(true) else None);
    var m :| NeighborsOf(s.Infos(), Southward(s.level, s.Infos()), m) && south == NodeTIE(s.level, m, None);
    NeighborsListed(s, m, false, None);
  }

  /** What writing all our TIEs does to the entries. */
  lemma OriginatesExactly(s: Flood, s': Flood)
    requires Originates(s, s')
    ensures AllWritten(s, s'.entries) && s' == s.(entries := s'.entries)
  {
    hide NorthNodeContent, SouthNodeContent, NorthPrefixContent, SouthPrefixContent, Says;
    var north, south :| NorthNodeContent(s.level, s.Infos(), north) && SouthNodeContent(s.level, s.Infos(), south)
      && s' == OriginateWith(s, north, south);
    SaysAll(s, north, south);
    WrittenOnce(s, north, south);
  }

  /** One more TIE written: only its entry changes. */
  lemma OneMoreWritten(s: Flood, ids: set<TIEID>, t: Flood, id: TIEID, el: Element)
    requires Rewritten(s, ids, t.entries) && id !in ids
    ensures var t' := InsertSelf(t, id, el);
            && t' == t.(entries := t'.entries) && Rewritten(s, ids + {id}, t'.entries)
            && t'.entries[id].packet.element == el && forall x :: x in ids ==> t'.entries[x] == t.entries[x]
  {
  }

  lemma WrittenOnce(s: Flood, north: Element, south: Element)
    ensures var s' := OriginateWith(s, north, south);
            && Rewritten(s, AlwaysOwn(s.self, s.level), s'.entries) && s' == s.(entries := s'.entries)
            && s'.entries[TIEID(2, s.self, 2, 1)].packet.element == north
            && s'.entries[TIEID(2, s.self, 3, 1)].packet.element == NorthPrefixContent(s.local)
            && (s.level > 0 ==> s'.entries[TIEID(1, s.self, 2, 1)].packet.element == south
                                && s'.entries[TIEID(1, s.self, 3, 1)].packet.element == SouthPrefixContent())
  {
    hide NorthPrefixContent, SouthPrefixContent, InsertSelf, Rewritten;
    var i, j := TIEID(2, s.self, 2, 1), TIEID(2, s.self, 3, 1);
    var a := InsertSelf(s, i, north);
    var b := InsertSelf(a, j, NorthPrefixContent(s.local));
    NoneWritten(s);
    OneMoreWritten(s, {}, s, i, north);
    OneMoreWritten(s, {} + {i}, a, j, NorthPrefixContent(s.local));
    assert {} + {i} + {j} == {i, j};
    if s.level > 0 {
      var k, l := TIEID(1, s.self, 2, 1), TIEID(1, s.self, 3, 1);
      OneMoreWritten(s, {i, j}, b, k, south);
      OneMoreWritten(s, {i, j} + {k}, InsertSelf(b, k, south), l, SouthPrefixContent());
      assert {i, j} + {k} + {l} == {i, j} + {k, l};
      KeysWritten(s, {i, j} + {k, l}, OriginateWith(s, north, south).entries);
    } else {
      assert {i, j} + {} == {i, j};
      KeysWritten(s, {i, j}, b.entries);
    }
  }

  lemma NoneWritten(s: Flood)
    ensures Rewritten(s, {}, s.entries)
  {
  }

  lemma KeysWritten(s: Flood, ids: set<TIEID>, entries: Entries)
    requires Rewritten(s, ids, entries)
    ensures ids <= entries.Keys
  {
  }

  /**
   * Of a header in a TIDE: a TIE of ours that we lack makes us write all we originate, a newer number write ours anew;
   * any other we lack, or hold an older copy of, is requested if acceptable; if ours is newer it is sent; if both are
   * the same it is no longer due.
   */
  ghost predicate HeaderTaken(s: Flood, k: string, h: HeaderWithLifetime, s': Flood)
    requires k in s.adjs
  {
    var id := h.header.id;
    var news := if id in s.entries then CompareTIEHeader(h, s.entries[id].Header()) else 1;
    if news > 0 && id.originator == s.self then
      if id in s.entries then OwnRenewed(s, id, s')
      else QueuedInScope(s, id, s') && AllWritten(s, s'.entries)
    else if news > 0 then
      if ShouldAcceptTIE(id, s.self, s.level, s.adjs[k].info.neighborLevel) then Answered(s, k, {}, {}, {id}, s')
      else s' == s
    else if news < 0 then Answered(s, k, {id}, {}, {}, s')
    else s' == s.(adjs := s.adjs[k := s.adjs[k].(tx := s.adjs[k].tx - {id})])
  }

  lemma WrittenAndQueued(s: Flood, mid: Flood, id: TIEID)
    requires Originates(s, mid)
    ensures QueuedInScope(s, id, FloodAll(mid, {id})) && AllWritten(s, FloodAll(mid, {id}).entries)
  {
    hide ShouldFloodTIE, FloodAll, Originates, AllWritten;
    OriginatesExactly(s, mid);
    FloodedQueues(mid, id);
  }

  lemma HeaderExactly(s: Flood, k: string, h: HeaderWithLifetime, s': Flood)
    requires k in s.adjs && HeaderHandled(s, k, h, s')
    ensures HeaderTaken(s, k, h, s')
  {
    hide ShouldFloodTIE, ShouldAcceptTIE, CompareTIEHeader, FloodAll, Bump, Enqueue, OwnRenewed, Answered, Originates,
      QueuedInScope, AllWritten;
    var id := h.header.id;
    Renewal(s, id);
    EnqueuedAt(s, k, {id}, {}, {});
    EnqueuedAt(s, k, {}, {}, {id});
    if id !in s.entries && id.originator == s.self {
      var mid :| Originates(s, mid) && s' == FloodAll(mid, {id});
      WrittenAndQueued(s, mid, id);
    }
  }

  /** What is sent beyond the headers: everything in scope that lies in the range of the TIDE and is not listed. */
  lemma UnlistedExactly(s: Flood, k: string, t: Tide, id: TIEID)
    requires k in s.adjs
    ensures id in Unlisted(s, k, t) <==>
              && id in s.entries && CompareTIEID(t.start, id) <= 0 && CompareTIEID(id, t.end) <= 0
              && (forall h :: h in t.headers ==> h.header.id != id)
              && ShouldFloodTIE(id, s.self, s.level, s.adjs[k].info.neighborLevel)
  {
    hide ShouldFloodTIE, CompareTIEID;
  }

  // ---- A TIRE ----

  /** An entry that matches the header in time: its TIE is asked for by lifetime 0, or acknowledged by any other. */
  ghost predicate Asked(s: Flood, h: HeaderWithLifetime, id: TIEID) {
    h.header.id == id && h.lifetime == 0 && id in s.entries && CompareTIEHeader(h, s.entries[id].Header()) <= 0
  }

  ghost predicate Cleared(s: Flood, h: HeaderWithLifetime, id: TIEID) {
    h.header.id == id && h.lifetime != 0 && id in s.entries && CompareTIEHeader(h, s.entries[id].Header()) == 0
  }

  ghost predicate AskedLast(s: Flood, hs: seq<HeaderWithLifetime>, i: nat, id: TIEID) {
    i < |hs| && Asked(s, hs[i], id) && forall m :: i < m < |hs| ==> !Cleared(s, hs[m], id)
  }

  ghost predicate ClearedLast(s: Flood, hs: seq<HeaderWithLifetime>, i: nat, id: TIEID) {
    i < |hs| && Cleared(s, hs[i], id) && forall m :: i < m < |hs| ==> !Asked(s, hs[m], id)
  }

  /** The queue of TIEs that the headers leave: of several headers for one TIE the last that counts decides. */
  ghost predicate Decided(s: Flood, hs: seq<HeaderWithLifetime>, was: set<TIEID>, tx: set<TIEID>) {
    && (forall id, i: nat :: AskedLast(s, hs, i, id) ==> id in tx)
    && (forall id, i: nat :: ClearedLast(s, hs, i, id) ==> id !in tx)
    && (forall id :: (forall h :: h in hs ==> !Asked(s, h, id) && !Cleared(s, h, id)) ==> (id in tx <==> id in was))
  }

  /** Only the queue of TIEs of k changes. */
  ghost predicate TIRETaken(s: Flood, k: string, hs: seq<HeaderWithLifetime>, s': Flood) {
    && k in s.adjs && k in s'.adjs
    && s' == s.(adjs := s.adjs[k := s.adjs[k].(tx := s'.adjs[k].tx)])
    && Decided(s, hs, s.adjs[k].tx, s'.adjs[k].tx)
  }

  /** One header adds its TIE, takes it off, or leaves the queue alone. */
  lemma TIREHeaderExactly(s: Flood, k: string, h: HeaderWithLifetime)
    requires k in s.adjs
    ensures var tx := s.adjs[k].tx;
            TIREHeaderHandled(s, k, h) ==
              s.(adjs := s.adjs[k := s.adjs[k].(tx := if Asked(s, h, h.header.id) then tx + {h.header.id}
                                                      else if Cleared(s, h, h.header.id) then tx - {h.header.id}
                                                      else tx)])
  {
    hide CompareTIEHeader;
    FloodEngineClass.NoneAdded(s.adjs[k]);
    assert s.adjs[k := s.adjs[k]] == s.adjs;
  }

  lemma OneMoreDecided(s: Flood, hs: seq<HeaderWithLifetime>, was: set<TIEID>, tx: set<TIEID>, h: HeaderWithLifetime)
    requires Decided(s, hs, was, tx)
    ensures Decided(s, hs + [h], was, if Asked(s, h, h.header.id) then tx + {h.header.id}
                                      else if Cleared(s, h, h.header.id) then tx - {h.header.id} else tx)
  {
    var more := hs + [h];
    var tx' := if Asked(s, h, h.header.id) then tx + {h.header.id}
      else if Cleared(s, h, h.header.id) then tx - {h.header.id} else tx;
    forall id, i: nat | AskedLast(s, more, i, id) ensures id in tx' {
      if i < |hs| { EarlierAsked(s, hs, h, i, id); }
    }
    forall id, i: nat | ClearedLast(s, more, i, id) ensures id !in tx' {
      if i < |hs| { EarlierCleared(s, hs, h, i, id); }
    }
    forall id | forall x :: x in more ==> !Asked(s, x, id) && !Cleared(s, x, id) ensures id in tx' <==> id in was {
      assert h in more && forall x :: x in hs ==> x in more;
    }
  }

  lemma EarlierAsked(s: Flood, hs: seq<HeaderWithLifetime>, h: HeaderWithLifetime, i: nat, id: TIEID)
    requires i < |hs| && AskedLast(s, hs + [h], i, id)
    ensures AskedLast(s, hs, i, id) && !Cleared(s, h, id)
  {
    hide Asked, Cleared;
    var more := hs + [h];
    assert more[|hs|] == h && more[i] == hs[i];
    forall m | i < m < |hs| ensures !Cleared(s, hs[m], id) { assert more[m] == hs[m]; }
  }

  lemma EarlierCleared(s: Flood, hs: seq<HeaderWithLifetime>, h: HeaderWithLifetime, i: nat, id: TIEID)
    requires i < |hs| && ClearedLast(s, hs + [h], i, id)
    ensures ClearedLast(s, hs, i, id) && !Asked(s, h, id)
  {
    hide Asked, Cleared;
    var more := hs + [h];
    assert more[|hs|] == h && more[i] == hs[i];
    forall m | i < m < |hs| ensures !Asked(s, hs[m], id) { assert more[m] == hs[m]; }
  }

  /** What a received TIRE does. */
  lemma {:induction false} TIREExactly(s: Flood, k: string, hs: seq<HeaderWithLifetime>)
    requires k in s.adjs
    ensures TIRETaken(s, k, hs, TIREHandled(s, k, hs))
    decreases |hs|
  {
    hide Decided, Asked, Cleared, TIREHeaderHandled;
    if hs == [] {
      NoneDecided(s, s.adjs[k].tx);
      assert s.adjs[k := s.adjs[k]] == s.adjs;
    } else {
      var init, h := hs[..|hs| - 1], hs[|hs| - 1];
      assert hs == init + [h];
      TIREExactly(s, k, init);
      var mid := TIREHandled(s, k, init);
      TIREHeaderExactly(mid, k, h);
      OneMoreDecided(s, init, s.adjs[k].tx, mid.adjs[k].tx, h);
      SameCounts(s, mid, h);
    }
  }

  lemma NoneDecided(s: Flood, tx: set<TIEID>)
    ensures Decided(s, [], tx, tx)
  {
  }

  lemma SameCounts(s: Flood, mid: Flood, h: HeaderWithLifetime)
    requires mid.entries == s.entries
    ensures Asked(mid, h, h.header.id) <==> Asked(s, h, h.header.id)
    ensures Cleared(mid, h, h.header.id) <==> Cleared(s, h, h.header.id)
  {
    hide CompareTIEHeader;
  }

  // ---- A second ----

  /** Our own copy of a TIE has less than an hour left after this second. */
  predicate RunsOut(e: Entry) { e.selfOriginated && Wrap32(e.lifetime - 1) < 3600 }

  /** Lifetimes fall by one; what has none left goes, unless our own is written anew in time and queued in scope. */
  ghost predicate SecondTaken(s: Flood, s': Flood) {
    && SameNode(s, s')
    && (forall id :: id in s'.entries <==> id in s.entries && Wrap32(s.entries[id].lifetime - 1) > 0)
    && (forall id :: id in s'.entries ==>
          s'.entries[id] == if RunsOut(s.entries[id]) then Anew(s.entries[id])
                            else s.entries[id].(lifetime := Wrap32(s.entries[id].lifetime - 1)))
    && (forall j :: j in s.adjs ==> s'.adjs[j] == s.adjs[j].(tx := s'.adjs[j].tx))
    && forall j, id :: j in s.adjs ==>
         (id in s'.adjs[j].tx <==>
            id in s.adjs[j].tx || (id in s'.entries && RunsOut(s.entries[id])
                                   && ShouldFloodTIE(id, s.self, s.level, s.adjs[j].info.neighborLevel)))
  }

  lemma FloodedAll(s: Flood, ids: set<TIEID>)
    ensures var s' := FloodAll(s, ids);
            && s' == s.(adjs := s'.adjs) && s'.adjs.Keys == s.adjs.Keys
            && (forall j :: j in s.adjs ==> s'.adjs[j] == s.adjs[j].(tx := s'.adjs[j].tx))
            && forall j, id :: j in s.adjs ==>
                 (id in s'.adjs[j].tx <==>
                    id in s.adjs[j].tx
                      || (id in ids && ShouldFloodTIE(id, s.self, s.level, s.adjs[j].info.neighborLevel)))
  {
    hide ShouldFloodTIE;
  }

  /** The entries a second leaves. */
  lemma Remaining(entries: Entries, id: TIEID)
    ensures var aged := AgedEntries(entries);
            && (id in aged <==> id in entries && Wrap32(entries[id].lifetime - 1) > 0)
            && (id in ExpiringOwn(aged) <==> id in aged && RunsOut(entries[id]))
            && (id in aged ==>
                  (if Refreshed(aged[id]) then Bumped(aged[id]) else aged[id]) ==
                    if RunsOut(entries[id]) then Anew(entries[id])
                    else entries[id].(lifetime := Wrap32(entries[id].lifetime - 1)))
  {
    hide Wrap32;
  }

  lemma SecondExactly(s: Flood, s': Flood)
    requires Next(s, Tick, s')
    ensures SecondTaken(s, s')
  {
    hide ShouldFloodTIE, FloodAll, Wrap32, AgedEntries, ExpiringOwn, RunsOut, Refreshed, Bumped, Anew, SecondTaken;
    var aged := AgedEntries(s.entries);
    var mid := s.(entries := map id | id in aged :: if Refreshed(aged[id]) then Bumped(aged[id]) else aged[id]);
    assert s' == FloodAll(mid, ExpiringOwn(aged));
    forall id ensures id in mid.entries <==> id in s.entries && Wrap32(s.entries[id].lifetime - 1) > 0 {
      Remaining(s.entries, id);
    }
    forall id | id in mid.entries
      ensures mid.entries[id] == if RunsOut(s.entries[id]) then Anew(s.entries[id])
                                 else s.entries[id].(lifetime := Wrap32(s.entries[id].lifetime - 1))
    {
      Remaining(s.entries, id);
    }
    forall id ensures id in ExpiringOwn(aged) <==> id in mid.entries && RunsOut(s.entries[id]) {
      Remaining(s.entries, id);
    }
    SecondQueues(s, mid, ExpiringOwn(aged));
  }

  lemma SecondQueues(s: Flood, mid: Flood, ids: set<TIEID>)
    requires mid == s.(entries := mid.entries)
    requires forall id :: id in mid.entries <==> id in s.entries && Wrap32(s.entries[id].lifetime - 1) > 0
    requires forall id :: id in mid.entries ==>
               mid.entries[id] == if RunsOut(s.entries[id]) then Anew(s.entries[id])
                                  else s.entries[id].(lifetime := Wrap32(s.entries[id].lifetime - 1))
    requires forall id :: id in ids <==> id in mid.entries && RunsOut(s.entries[id])
    ensures SecondTaken(s, FloodAll(mid, ids))
  {
    hide ShouldFloodTIE, FloodAll, Wrap32, RunsOut, Anew;
    FloodedAll(mid, ids);
  }

  // ---- Adjacencies and disaggregation ----

  /** The adjacency starts with empty queues or goes; all our TIEs are written for it and queued in scope. */
  ghost predicate AdjacencyTaken(s: Flood, ifName: string, info: Option<AdjacencyInfo>, s': Flood) {
    var now := s.(adjs := match info case Some(a) => s.adjs[ifName := AdjState(a, {}, {}, {})]
                                     case None => s.adjs - {ifName});
    && SameNode(now, s') && AllWritten(now, s'.entries)
    && (forall j :: j in now.adjs ==> s'.adjs[j] == now.adjs[j].(tx := s'.adjs[j].tx))
    && forall j, id :: j in now.adjs ==>
         (id in s'.adjs[j].tx <==>
            id in now.adjs[j].tx || (id in AlwaysOwn(s.self, s.level)
                                     && ShouldFloodTIE(id, s.self, s.level, now.adjs[j].info.neighborLevel)))
  }

  lemma AdjacencyExactly(s: Flood, ifName: string, info: Option<AdjacencyInfo>, s': Flood)
    requires Next(s, AdjChange(ifName, info), s')
    ensures AdjacencyTaken(s, ifName, info, s')
  {
    hide ShouldFloodTIE, FloodAll, Originates, AllWritten;
    var mid :| Originates(WithAdjacency(s, ifName, info), mid) && s' == FloodAll(mid, OwnIDs(s));
    OriginatesExactly(WithAdjacency(s, ifName, info), mid);
    FloodedAll(mid, OwnIDs(s));
  }

  /** The prefixes to disaggregate are written and queued in scope; none, only to take back what was said before. */
  ghost predicate DisaggTaken(s: Flood, prefixes: seq<PrefixEntry>, s': Flood) {
    var id := TIEID(1, s.self, 4, 1);
    if prefixes == []
      && (id !in s.entries || !s.entries[id].selfOriginated || s.entries[id].packet.element.posDisagg == Some([]))
    then s' == s
    else
      && QueuedInScope(s, id, s')
      && s'.entries == s.entries[id := Entry(TIEPacket(TIEHeader(id, NumberAfter(s.entries, id), Some(604800)),
                                                       Element(None, None, Some(prefixes))), 604800, true)]
  }

  lemma DisaggExactly(s: Flood, prefixes: seq<PrefixEntry>, s': Flood)
    requires Next(s, DisaggUpdate(prefixes), s')
    ensures DisaggTaken(s, prefixes, s')
  {
    hide ShouldFloodTIE, FloodAll;
    var id := OwnID(SOUTH, s.self, POS_DISAGG_TIE);
    FloodedQueues(InsertSelf(s, id, DisaggContent(prefixes)), id);
    assert prefixes == [] ==> DisaggContent(prefixes) == DisaggContent([]);
  }

  // ---- What a drain sends ----

  /** A TIE of the queue of k that is stored, with what is left of its lifetime. */
  ghost predicate SendsTIE(s: Flood, k: string, m: Sent) {
    && k in s.adjs
    && exists id :: && id in s.adjs[k].tx && id in s.entries
                    && m == Sent(s.adjs[k].info.ifName, TIEMsg(s.entries[id].packet), s.entries[id].lifetime)
  }

  /** The headers of all stored TIEs to acknowledge on k. */
  ghost predicate SendsAcks(s: Flood, k: string, m: Sent) {
    && k in s.adjs && m.ifName == s.adjs[k].info.ifName && m.lifetime == 0 && m.packet.TIREMsg?
    && forall h :: h in m.packet.headers <==>
         exists id :: id in s.adjs[k].ack && id in s.entries
                      && h == HeaderWithLifetime(s.entries[id].packet.header, s.entries[id].lifetime)
  }

  /** The requests of k: number and lifetime 0. */
  ghost predicate SendsRequests(s: Flood, k: string, m: Sent) {
    && k in s.adjs && m.ifName == s.adjs[k].info.ifName && m.lifetime == 0 && m.packet.TIREMsg?
    && forall h :: h in m.packet.headers <==>
         exists id :: id in s.adjs[k].req && h == HeaderWithLifetime(TIEHeader(id, 0, None), 0)
  }

  ghost predicate SentOf(s: Flood, k: string, out: seq<Sent>) {
    && k in s.adjs
    && (forall m :: SendsTIE(s, k, m) ==> m in out)
    && (s.adjs[k].ack * s.entries.Keys != {} ==> exists m :: m in out && SendsAcks(s, k, m))
    && (s.adjs[k].req != {} ==> exists m :: m in out && SendsRequests(s, k, m))
  }

  ghost predicate Expected(s: Flood, m: Sent) {
    exists k :: SendsTIE(s, k, m) || SendsAcks(s, k, m) || SendsRequests(s, k, m)
  }

  lemma DrainPieces(s: Flood, k: string, part: seq<Sent>)
    requires k in s.adjs && Drains(s.entries, s.adjs[k], part)
    ensures SentOf(s, k, part)
    ensures forall m :: m in part ==> SendsTIE(s, k, m) || SendsAcks(s, k, m) || SendsRequests(s, k, m)
  {
    hide SendsAcks, SendsRequests, SendsTIE, TIREWith, TIEsOf;
    var a := s.adjs[k];
    var acks, reqs, ties :| part == acks + reqs + ties
      && TIREWith(a, AckHeaders(s.entries, a.ack), acks) && TIREWith(a, ReqHeaders(a.req), reqs)
      && TIEsOf(s.entries, a, ties);
    AckPiece(s, k, acks);
    RequestPiece(s, k, reqs);
    TIEPiece(s, k, ties);
  }

  lemma AckPiece(s: Flood, k: string, out: seq<Sent>)
    requires k in s.adjs && TIREWith(s.adjs[k], AckHeaders(s.entries, s.adjs[k].ack), out)
    ensures s.adjs[k].ack * s.entries.Keys != {} ==> exists m :: m in out && SendsAcks(s, k, m)
    ensures forall m :: m in out ==> SendsAcks(s, k, m)
  {
    var headers := AckHeaders(s.entries, s.adjs[k].ack);
    if s.adjs[k].ack * s.entries.Keys != {} {
      ghost var id := Pick(s.adjs[k].ack * s.entries.Keys);
      assert s.entries[id].Header() in headers;
      assert out[0] in out;
    }
    forall m | m in out ensures SendsAcks(s, k, m) {
      assert Elements(m.packet.headers) == headers;
      forall h ensures h in m.packet.headers <==> h in headers {
        assert h in m.packet.headers <==> h in Elements(m.packet.headers);
      }
    }
  }

  lemma RequestPiece(s: Flood, k: string, out: seq<Sent>)
    requires k in s.adjs && TIREWith(s.adjs[k], ReqHeaders(s.adjs[k].req), out)
    ensures s.adjs[k].req != {} ==> exists m :: m in out && SendsRequests(s, k, m)
    ensures forall m :: m in out ==> SendsRequests(s, k, m)
  {
    var headers := ReqHeaders(s.adjs[k].req);
    if s.adjs[k].req != {} {
      ghost var id := Pick(s.adjs[k].req);
      assert Request(id) in headers;
      assert out[0] in out;
    }
    forall m | m in out ensures SendsRequests(s, k, m) {
      assert Elements(m.packet.headers) == headers;
      forall h ensures h in m.packet.headers <==> h in headers {
        assert h in m.packet.headers <==> h in Elements(m.packet.headers);
      }
    }
  }

  lemma TIEPiece(s: Flood, k: string, out: seq<Sent>)
    requires k in s.adjs && TIEsOf(s.entries, s.adjs[k], out)
    ensures forall m :: m in out <==> SendsTIE(s, k, m)
  {
    forall m ensures m in out <==> SendsTIE(s, k, m) {
      assert m in out <==> m in Elements(out);
    }
  }

  /** What a drain sends: on every adjacency its acknowledgments, its requests and its TIEs, and nothing else. */
  lemma {:induction false} DrainExactly(s: Flood, order: seq<string>, out: seq<Sent>)
    requires DrainsInOrder(s, order, out)
    ensures forall k :: k in order ==> SentOf(s, k, out)
    ensures forall m :: m in out ==> Expected(s, m)
    decreases |order|
  {
    hide Drains, SendsTIE, SendsAcks, SendsRequests, SentOf;
    if order != [] {
      var init, k := order[..|order| - 1], Final(order);
      assert order == init + [k];
      var before, part :| DrainsNext(s, k, before, part, out) && DrainsInOrder(s, init, before);
      DrainExactly(s, init, before);
      DrainPieces(s, k, part);
      forall j | j in order ensures SentOf(s, j, out) {
        if j in init { SentMore(s, j, before, out); } else { SentMore(s, j, part, out); }
      }
      forall m | m in out ensures Expected(s, m) {
        if m !in before { assert m in part; }
      }
    }
  }

  lemma SentMore(s: Flood, k: string, some: seq<Sent>, out: seq<Sent>)
    requires SentOf(s, k, some) && forall m :: m in some ==> m in out
    ensures SentOf(s, k, out)
  {
    hide SendsTIE, SendsAcks, SendsRequests;
  }

  lemma DrainSentExactly(s: Flood, out: seq<Sent>)
    requires Outputs(s, Drain, out)
    ensures forall k :: k in s.adjs ==> SentOf(s, k, out)
    ensures forall m :: m in out ==> Expected(s, m)
  {
    hide DrainsInOrder, SentOf, Expected;
    var order :| OrderOf(s, order) && DrainsInOrder(s, order, out);
    DrainExactly(s, order, out);
    forall k | k in s.adjs ensures SentOf(s, k, out) {
      assert k in Elements(order);
    }
  }

  // ---- What TIDEs list ----

  lemma {:induction false} PieceOf(chunks: seq<Tide>, t: Tide, h: HeaderWithLifetime)
    requires t in chunks && h in t.headers
    ensures h in Concat(chunks)
    decreases |chunks|
  {
    var init, last := chunks[..|chunks| - 1], chunks[|chunks| - 1];
    assert chunks == init + [last];
    if t in init { PieceOf(init, t, h); }
  }

  lemma {:induction false} InSomePiece(chunks: seq<Tide>, h: HeaderWithLifetime) returns (i: nat)
    requires h in Concat(chunks)
    ensures i < |chunks| && h in chunks[i].headers
    decreases |chunks|
  {
    i := |chunks| - 1;
    if h !in chunks[i].headers {
      i := InSomePiece(chunks[..|chunks| - 1], h);
    }
  }

  /** The TIDEs for an adjacency list exactly the headers of what is stored and in TIDE scope there. */
  lemma ListingExactly(s: Flood, k: string, out: seq<Sent>, h: HeaderWithLifetime)
    requires SendsTIDEs(s, k, out)
    ensures forall m :: m in out ==> m.packet.TIDEMsg? && m.ifName == s.adjs[k].info.ifName && m.lifetime == 0
    ensures (exists m :: m in out && h in m.packet.tide.headers) <==>
              exists id :: && id in s.entries
                           && ShouldIncludeInTIDE(id, s.self, s.level, s.adjs[k].info.neighborLevel)
                           && h == HeaderWithLifetime(s.entries[id].packet.header, s.entries[id].lifetime)
  {
    hide ShouldIncludeInTIDE, Tiling, SortedHeaders, Listable;
    var headers: seq<HeaderWithLifetime>, chunks: seq<Tide> :| TIDEsFor(s, k, headers, chunks)
      && out == TIDEPackets(s.adjs[k].info.ifName, chunks);
    assert Concat(chunks) == headers by { TilesAll(headers, chunks); }
    assert h in headers <==> h in Elements(headers);
    if m :| m in out && h in m.packet.tide.headers {
      var i :| 0 <= i < |out| && out[i] == m;
      PieceOf(chunks, chunks[i], h);
    }
    if h in headers {
      var i := InSomePiece(chunks, h);
      assert out[i] in out && out[i].packet.tide == chunks[i];
    }
  }

  lemma TilesAll(headers: seq<HeaderWithLifetime>, chunks: seq<Tide>)
    requires Tiling(headers, chunks)
    ensures Concat(chunks) == headers
  {
  }
}
