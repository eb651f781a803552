/** What every run of the flood engine keeps. */
module FloodInvariants {
  import opened RiftTypes
  import opened Lsdb
  import opened Scope
  import opened Originate
  import opened TideChunks
  import opened FloodSpec

  // ---- Invariants of a state ----

  predicate Own(s: Flood, id: TIEID) { id.originator == s.self }

  ghost predicate OwnFlagged(s: Flood) {
    forall id :: id in s.entries ==> (s.entries[id].selfOriginated <==> Own(s, id))
  }

  /** A neighbour at one of these levels would be allowed to give us the TIE. */
  ghost predicate Acceptable(s: Flood, levels: set<Level>, id: TIEID) {
    exists l :: l in levels && ShouldAcceptTIE(id, s.self, s.level, l)
  }

  ghost predicate ForeignAcceptable(s: Flood, levels: set<Level>) {
    forall id :: id in s.entries && !Own(s, id) ==> Acceptable(s, levels, id)
  }

  ghost predicate LevelsWithin(s: Flood, levels: set<Level>) {
    forall k :: k in s.adjs ==> s.adjs[k].info.neighborLevel in levels
  }

  ghost predicate OwnAlive(s: Flood) {
    forall id :: id in s.entries && Own(s, id) ==>
      REORIGINATE_BEFORE_EXPIRY <= s.entries[id].lifetime <= DEFAULT_LIFETIME
  }

  /** The identities under which we originate. */
  function Originated(s: Flood): set<TIEID> { OwnIDs(s) + {OwnID(SOUTH, s.self, POS_DISAGG_TIE)} }

  ghost predicate OwnOriginated(s: Flood) {
    forall id :: id in s.entries && Own(s, id) ==> id in Originated(s)
  }

  ghost predicate Good(s: Flood, levels: set<Level>) {
    Filed(s.entries) && OwnFlagged(s) && OwnOriginated(s) && ForeignAcceptable(s, levels) && LevelsWithin(s, levels)
      && OwnAlive(s)
  }

  /** Our own Node TIEs, once originated, describe the adjacency table as it is now. */
  ghost predicate Accurate(s: Flood) {
    var north, south := OwnID(NORTH, s.self, NODE_TIE), OwnID(SOUTH, s.self, NODE_TIE);
    && (north in s.entries ==> NorthNodeContent(s.level, s.Infos(), s.entries[north].packet.element))
    && (south in s.entries ==> SouthNodeContent(s.level, s.Infos(), s.entries[south].packet.element))
  }

  // ---- What a step may do to the database ----

  /** Nothing stored goes back in sequence, and nothing of ours disappears. */
  ghost predicate Advances(s: Flood, s': Flood) {
    && s'.self == s.self && s'.level == s.level
    && (forall id :: id in s.entries && id in s'.entries ==> SeqNr(s, id) <= SeqNr(s', id))
    && (forall id :: id in s.entries && Own(s, id) ==> id in s'.entries)
  }

  function SeqNr(s: Flood, id: TIEID): int
    requires id in s.entries
  {
    s.entries[id].packet.header.seqNr
  }

  /** The adjacency table, and the content of everything of ours, are as before. */
  ghost predicate OwnContentKept(s: Flood, s': Flood) {
    && s'.self == s.self && s'.level == s.level && s'.Infos() == s.Infos()
    && (forall id :: Own(s, id) ==> (id in s.entries <==> id in s'.entries))
    && (forall id :: id in s.entries && Own(s, id) && id in s'.entries ==>
      s'.entries[id].packet.element == s.entries[id].packet.element)
  }

  lemma AccurateKept(s: Flood, s': Flood)
    requires Accurate(s) && OwnContentKept(s, s')
    ensures Accurate(s')
  {
    hide NorthNodeContent, SouthNodeContent;
    var north, south := OwnID(NORTH, s.self, NODE_TIE), OwnID(SOUTH, s.self, NODE_TIE);
    assert Own(s, north) && Own(s, south);
  }

  lemma AdvancesThrough(a: Flood, b: Flood, c: Flood)
    requires Advances(a, b) && Advances(b, c) && a.entries.Keys * c.entries.Keys <= b.entries.Keys
    ensures Advances(a, c)
  {
    forall id | id in a.entries && id in c.entries ensures SeqNr(a, id) <= SeqNr(c, id) {
      assert id in a.entries.Keys * c.entries.Keys;
    }
  }

  // ---- The building blocks of the steps ----

  /** Work on the queues alone. */
  ghost predicate OnlyQueues(s: Flood, s': Flood) {
    s'.self == s.self && s'.level == s.level && s'.local == s.local && s'.entries == s.entries
      && s'.Infos() == s.Infos()
  }

  lemma QueueWork(s: Flood, s': Flood, levels: set<Level>)
    requires Good(s, levels) && OnlyQueues(s, s')
    ensures Good(s', levels) && Advances(s, s') && OwnContentKept(s, s')
  {
    hide ShouldAcceptTIE;
    assert forall id :: Own(s', id) <==> Own(s, id);
    forall id | id in s'.entries && !Own(s', id) ensures Acceptable(s', levels, id) {
      assert Acceptable(s, levels, id);
    }
    forall k | k in s'.adjs ensures s'.adjs[k].info.neighborLevel in levels {
      assert k in s'.Infos() && s'.Infos()[k] == s'.adjs[k].info;
      assert k in s.adjs && s.Infos()[k] == s.adjs[k].info;
    }
  }

  lemma FloodAllQueues(s: Flood, ids: set<TIEID>)
    ensures OnlyQueues(s, FloodAll(s, ids))
  {
    hide ShouldFloodTIE;
    assert FloodAll(s, ids).Infos() == s.Infos();
  }

  lemma FloodExceptQueues(s: Flood, id: TIEID, k: string)
    ensures OnlyQueues(s, FloodExcept(s, id, k))
  {
    hide ShouldFloodTIE;
    assert FloodExcept(s, id, k).Infos() == s.Infos();
  }

  lemma EnqueueQueues(s: Flood, k: string, tx: set<TIEID>, ack: set<TIEID>, req: set<TIEID>)
    requires k in s.adjs
    ensures OnlyQueues(s, Enqueue(s, k, tx, ack, req))
  {
    assert Enqueue(s, k, tx, ack, req).Infos() == s.Infos();
  }

  lemma UnqueueQueues(s: Flood, k: string, id: TIEID)
    requires k in s.adjs
    ensures OnlyQueues(s, Unqueue(s, k, id))
  {
    assert Unqueue(s, k, id).Infos() == s.Infos();
  }

  /** Writing one entry that may stand where it is put. */
  lemma WriteOne(s: Flood, id: TIEID, e: Entry, levels: set<Level>)
    requires Good(s, levels)
    requires e.packet.header.id == id && (e.selfOriginated <==> Own(s, id))
    requires Own(s, id) ==> id in Originated(s) && REORIGINATE_BEFORE_EXPIRY <= e.lifetime <= DEFAULT_LIFETIME
    requires Own(s, id) || Acceptable(s, levels, id)
    requires id in s.entries ==> SeqNr(s, id) <= e.packet.header.seqNr
    ensures Good(s.(entries := s.entries[id := e]), levels) && Advances(s, s.(entries := s.entries[id := e]))
  {
    hide ShouldAcceptTIE;
    var s' := s.(entries := s.entries[id := e]);
    assert forall x :: Own(s', x) <==> Own(s, x);
    forall x | x in s'.entries && !Own(s', x) ensures Acceptable(s', levels, x) {
      assert Acceptable(s, levels, x);
    }
  }

  lemma BumpKeeps(s: Flood, id: TIEID, levels: set<Level>)
    requires Good(s, levels)
    ensures Good(Bump(s, id), levels) && Advances(s, Bump(s, id)) && OwnContentKept(s, Bump(s, id))
    ensures id in s.entries && Own(s, id) ==> id in Bump(s, id).entries && SeqNr(Bump(s, id), id) == SeqNr(s, id) + 1
  {
    hide ForeignAcceptable, LevelsWithin, NorthNodeContent, SouthNodeContent;
    if id in s.entries && s.entries[id].selfOriginated {
      WriteOne(s, id, Bumped(s.entries[id]), levels);
      assert Bump(s, id) == s.(entries := s.entries[id := Bumped(s.entries[id])]);
      assert Bump(s, id).Infos() == s.Infos();
    }
  }

  lemma InsertKeeps(s: Flood, id: TIEID, el: Element, levels: set<Level>)
    requires Good(s, levels) && id in Originated(s)
    ensures Good(InsertSelf(s, id, el), levels) && Advances(s, InsertSelf(s, id, el))
    ensures InsertSelf(s, id, el).Infos() == s.Infos()
  {
    hide ForeignAcceptable, LevelsWithin;
    WriteOne(s, id, OwnEntry(id, NextSeq(s.entries, id), el), levels);
    assert InsertSelf(s, id, el).Infos() == s.Infos();
  }

  lemma LeafHasNoSouthNode(s: Flood, levels: set<Level>)
    requires Good(s, levels) && s.level <= LEAF_LEVEL
    ensures OwnID(SOUTH, s.self, NODE_TIE) !in s.entries
  {
    hide ForeignAcceptable, LevelsWithin, OwnAlive;
    assert Own(s, OwnID(SOUTH, s.self, NODE_TIE));
  }

  lemma OriginateKeeps(s: Flood, s': Flood, levels: set<Level>)
    requires Good(s, levels) && Originates(s, s')
    ensures Good(s', levels) && Advances(s, s') && Accurate(s')
    ensures s'.Infos() == s.Infos() && s'.local == s.local && s'.adjs == s.adjs
    ensures s'.entries.Keys == s.entries.Keys + OwnIDs(s)
  {
    hide NorthNodeContent, SouthNodeContent, Good;
    var north, south :| NorthNodeContent(s.level, s.Infos(), north) && SouthNodeContent(s.level, s.Infos(), south)
                        && s' == OriginateWith(s, north, south);
    var a := InsertSelf(s, OwnID(NORTH, s.self, NODE_TIE), north);
    var b := InsertSelf(a, OwnID(NORTH, s.self, PREFIX_TIE), NorthPrefixContent(s.local));
    InsertKeeps(s, OwnID(NORTH, s.self, NODE_TIE), north, levels);
    InsertKeeps(a, OwnID(NORTH, s.self, PREFIX_TIE), NorthPrefixContent(s.local), levels);
    AdvancesThrough(s, a, b);
    if s.level > LEAF_LEVEL {
      var c := InsertSelf(b, OwnID(SOUTH, s.self, NODE_TIE), south);
      InsertKeeps(b, OwnID(SOUTH, s.self, NODE_TIE), south, levels);
      InsertKeeps(c, OwnID(SOUTH, s.self, PREFIX_TIE), SouthPrefixContent(), levels);
      AdvancesThrough(s, b, c);
      AdvancesThrough(s, c, s');
    } else {
      LeafHasNoSouthNode(s', levels);
    }
  }

  // ---- Received packets ----

  /** What origination would write under the identity now. */
  ghost predicate Current(s: Flood, id: TIEID, el: Element) {
    || (id == OwnID(NORTH, s.self, NODE_TIE) && NorthNodeContent(s.level, s.Infos(), el))
    || (id == OwnID(NORTH, s.self, PREFIX_TIE) && el == NorthPrefixContent(s.local))
    || (id == OwnID(SOUTH, s.self, NODE_TIE) && SouthNodeContent(s.level, s.Infos(), el))
    || (id == OwnID(SOUTH, s.self, PREFIX_TIE) && el == SouthPrefixContent())
  }

  /** Nothing is lost or set back, and what is ours holds the content it had or what we would originate now. */
  ghost predicate Settles(s: Flood, s': Flood) {
    && s'.self == s.self && s'.level == s.level && s'.local == s.local && s'.Infos() == s.Infos()
    && s.entries.Keys <= s'.entries.Keys
    && (forall id :: id in s.entries ==> SeqNr(s, id) <= SeqNr(s', id))
    && (forall id :: id in s'.entries && Own(s, id) ==> OwnOrCurrent(s, s', id))
  }

  ghost predicate OwnOrCurrent(s: Flood, s': Flood, id: TIEID)
    requires id in s'.entries
  {
    Current(s, id, s'.entries[id].packet.element)
      || (id in s.entries && s'.entries[id].packet.element == s.entries[id].packet.element)
  }

  lemma SettlesThrough(a: Flood, b: Flood, c: Flood)
    requires Settles(a, b) && Settles(b, c)
    ensures Settles(a, c)
  {
    hide NorthNodeContent, SouthNodeContent, NorthPrefixContent;
    forall id | id in c.entries && Own(a, id) ensures OwnOrCurrent(a, c, id) {
      assert OwnOrCurrent(b, c, id);
      if id in b.entries { assert OwnOrCurrent(a, b, id); }
    }
    forall id | id in a.entries ensures SeqNr(a, id) <= SeqNr(c, id) {
      assert id in b.entries;
    }
  }

  lemma KeptSettles(s: Flood, s': Flood)
    requires OwnContentKept(s, s') && s'.local == s.local && s.entries.Keys <= s'.entries.Keys && Advances(s, s')
    ensures Settles(s, s')
  {
    hide Current;
    forall id | id in s'.entries && Own(s, id) ensures OwnOrCurrent(s, s', id) {
      assert id in s.entries;
    }
  }

  lemma QueuesSettle(s: Flood, s': Flood, levels: set<Level>)
    requires Good(s, levels) && OnlyQueues(s, s')
    ensures Good(s', levels) && Settles(s, s')
  {
    hide Good, Current;
    QueueWork(s, s', levels);
    KeptSettles(s, s');
  }

  lemma BumpSettles(s: Flood, id: TIEID, levels: set<Level>)
    requires Good(s, levels)
    ensures Good(Bump(s, id), levels) && Settles(s, Bump(s, id)) && OwnContentKept(s, Bump(s, id))
  {
    hide Good, Current, Settles;
    BumpKeeps(s, id, levels);
    KeptSettles(s, Bump(s, id));
  }

  lemma OriginateSettles(s: Flood, s': Flood, levels: set<Level>)
    requires Good(s, levels) && Originates(s, s')
    ensures Good(s', levels) && Settles(s, s')
  {
    hide Good, NorthNodeContent, SouthNodeContent, NorthPrefixContent;
    OriginateKeeps(s, s', levels);
    var north, south :| NorthNodeContent(s.level, s.Infos(), north) && SouthNodeContent(s.level, s.Infos(), south)
                        && s' == OriginateWith(s, north, south);
    forall id | id in s'.entries && Own(s, id) ensures OwnOrCurrent(s, s', id) {
      WrittenIsCurrent(s, north, south, id);
    }
  }

  lemma WrittenIsCurrent(s: Flood, north: Element, south: Element, id: TIEID)
    requires NorthNodeContent(s.level, s.Infos(), north) && SouthNodeContent(s.level, s.Infos(), south)
    requires id in OriginateWith(s, north, south).entries
    ensures OwnOrCurrent(s, OriginateWith(s, north, south), id)
  {
    hide NorthNodeContent, SouthNodeContent, NorthPrefixContent;
  }

  lemma BumpFloodSettles(s: Flood, id: TIEID, levels: set<Level>)
    requires Good(s, levels)
    ensures Good(FloodAll(Bump(s, id), {id}), levels) && Settles(s, FloodAll(Bump(s, id), {id}))
    ensures OwnContentKept(s, FloodAll(Bump(s, id), {id}))
  {
    hide Good, Settles, FloodAll, Bump;
    BumpSettles(s, id, levels);
    FloodQueues(Bump(s, id), {id}, levels);
    SettlesThrough(s, Bump(s, id), FloodAll(Bump(s, id), {id}));
  }

  lemma FloodQueues(s: Flood, ids: set<TIEID>, levels: set<Level>)
    requires Good(s, levels)
    ensures Good(FloodAll(s, ids), levels) && Settles(s, FloodAll(s, ids)) && OwnContentKept(s, FloodAll(s, ids))
  {
    hide Good, Settles;
    FloodAllQueues(s, ids);
    QueuesSettle(s, FloodAll(s, ids), levels);
  }

  lemma HeaderSettles(s: Flood, k: string, h: HeaderWithLifetime, s': Flood, levels: set<Level>)
    requires Good(s, levels) && k in s.adjs && HeaderHandled(s, k, h, s')
    ensures Good(s', levels) && Settles(s, s')
  {
    hide Good, Settles, FloodAll, Bump, Originates, OnlyQueues, CompareTIEHeader, ShouldAcceptTIE;
    var id := h.header.id;
    EnqueueQueues(s, k, {}, {}, {id});
    EnqueueQueues(s, k, {id}, {}, {});
    UnqueueQueues(s, k, id);
    QueuesSettle(s, Enqueue(s, k, {}, {}, {id}), levels);
    QueuesSettle(s, Enqueue(s, k, {id}, {}, {}), levels);
    QueuesSettle(s, Unqueue(s, k, id), levels);
    BumpFloodSettles(s, id, levels);
    SettlesItself(s);
    if id !in s.entries && id.originator == s.self {
      var mid :| Originates(s, mid) && s' == FloodAll(mid, {id});
      OriginateSettles(s, mid, levels);
      FloodQueues(mid, {id}, levels);
      SettlesThrough(s, mid, s');
    }
  }

  lemma SettlesItself(s: Flood)
    ensures Settles(s, s)
  {
    hide Current;
    assert forall id :: id in s.entries ==> OwnOrCurrent(s, s, id);
  }

  lemma {:induction false} HeadersSettle(s: Flood, k: string, hs: seq<HeaderWithLifetime>, s': Flood,
                                         levels: set<Level>)
    requires Good(s, levels) && HeadersHandled(s, k, hs, s')
    ensures Good(s', levels) && Settles(s, s')
  {
    hide Good, Settles, HeaderHandled;
    if hs == [] {
      SettlesItself(s);
    } else {
      var mid :| HeadersHandled(s, k, hs[..|hs| - 1], mid) && k in mid.adjs && HeaderHandled(mid, k, hs[|hs| - 1], s');
      HeadersSettle(s, k, hs[..|hs| - 1], mid, levels);
      HeaderSettles(mid, k, hs[|hs| - 1], s', levels);
      SettlesThrough(s, mid, s');
    }
  }

  lemma TIDESettles(s: Flood, k: string, t: Tide, s': Flood, levels: set<Level>)
    requires Good(s, levels) && TIDEHandled(s, k, t, s')
    ensures Good(s', levels) && Settles(s, s')
  {
    hide Good, Settles, HeadersHandled, OnlyQueues, Unlisted, Enqueue;
    if k !in s.adjs {
      SettlesItself(s);
    } else {
      var mid :| HeadersHandled(s, k, t.headers, mid) && k in mid.adjs
        && s' == Enqueue(mid, k, Unlisted(mid, k, t), {}, {});
      HeadersSettle(s, k, t.headers, mid, levels);
      EnqueueQueues(mid, k, Unlisted(mid, k, t), {}, {});
      QueuesSettle(mid, s', levels);
      SettlesThrough(s, mid, s');
    }
  }

  lemma InstalledKeeps(s: Flood, k: string, tie: TIEPacket, levels: set<Level>)
    requires Good(s, levels) && k in s.adjs && !Own(s, tie.header.id)
    requires if tie.header.id in s.entries then SeqNr(s, tie.header.id) <= tie.header.seqNr
             else ShouldAcceptTIE(tie.header.id, s.self, s.level, s.adjs[k].info.neighborLevel)
    ensures Good(Installed(s, k, tie), levels) && Settles(s, Installed(s, k, tie))
    ensures OwnContentKept(s, Installed(s, k, tie))
  {
    hide ShouldAcceptTIE, Current, FloodExcept;
    var id := tie.header.id;
    var e := Entry(tie, RxHeader(tie).lifetime, false);
    var a := s.(entries := s.entries[id := e]);
    assert Acceptable(s, levels, id) by {
      if id !in s.entries { assert s.adjs[k].info.neighborLevel in levels; }
    }
    WriteOne(s, id, e, levels);
    assert a.Infos() == s.Infos();
    KeptSettles(s, a);
    var b := Enqueue(a, k, {}, {id}, {});
    EnqueueQueues(a, k, {}, {id}, {});
    FloodExceptQueues(b, id, k);
    InstalledQueues(s, a, b, Installed(s, k, tie), id, levels);
  }

  lemma InstalledQueues(s: Flood, a: Flood, b: Flood, c: Flood, id: TIEID, levels: set<Level>)
    requires Good(a, levels) && Settles(s, a) && OwnContentKept(s, a)
    requires OnlyQueues(a, b) && OnlyQueues(b, c)
    ensures Good(c, levels) && Settles(s, c) && OwnContentKept(s, c)
  {
    hide Good, Settles;
    QueuesSettle(a, b, levels);
    QueuesSettle(b, c, levels);
    SettlesThrough(s, a, b);
    SettlesThrough(s, b, c);
  }

  /** A received TIE never touches the content of what is ours. */
  lemma TIEKeeps(s: Flood, k: string, tie: TIEPacket, levels: set<Level>)
    requires Good(s, levels)
    ensures Good(TIEHandled(s, k, tie), levels) && Settles(s, TIEHandled(s, k, tie))
    ensures OwnContentKept(s, TIEHandled(s, k, tie))
  {
    hide Good, Settles, FloodAll, Bump, Installed, OnlyQueues, CompareTIEHeader, ShouldAcceptTIE, Enqueue;
    var id := tie.header.id;
    SettlesItself(s);
    if k in s.adjs {
      BumpFloodSettles(s, id, levels);
      EnqueueSettles(s, k, {id}, {}, {}, levels);
      EnqueueSettles(s, k, {}, {id}, {}, levels);
      if id in s.entries { HeaderOrder(RxHeader(tie), s.entries[id].Header()); }
      if !Own(s, id) && (if id in s.entries then CompareTIEHeader(RxHeader(tie), s.entries[id].Header()) > 0
                         else ShouldAcceptTIE(id, s.self, s.level, s.adjs[k].info.neighborLevel)) {
        InstalledKeeps(s, k, tie, levels);
      }
    }
  }

  lemma EnqueueSettles(s: Flood, k: string, tx: set<TIEID>, ack: set<TIEID>, req: set<TIEID>, levels: set<Level>)
    requires Good(s, levels) && k in s.adjs
    ensures Good(Enqueue(s, k, tx, ack, req), levels) && Settles(s, Enqueue(s, k, tx, ack, req))
    ensures OwnContentKept(s, Enqueue(s, k, tx, ack, req))
  {
    hide Good, Settles;
    EnqueueQueues(s, k, tx, ack, req);
    QueuesSettle(s, Enqueue(s, k, tx, ack, req), levels);
  }

  /** A TIRE changes queues only. */
  lemma {:induction false} TIREQueues(s: Flood, k: string, hs: seq<HeaderWithLifetime>)
    ensures OnlyQueues(s, TIREHandled(s, k, hs))
  {
    hide CompareTIEHeader, Enqueue, Unqueue;
    if k in s.adjs && hs != [] {
      TIREQueues(s, k, hs[..|hs| - 1]);
      var mid := TIREHandled(s, k, hs[..|hs| - 1]);
      TIREHeaderQueues(mid, k, hs[|hs| - 1]);
    }
  }

  lemma TIREHeaderQueues(s: Flood, k: string, h: HeaderWithLifetime)
    requires k in s.adjs
    ensures OnlyQueues(s, TIREHeaderHandled(s, k, h))
  {
    hide CompareTIEHeader;
    EnqueueQueues(s, k, {h.header.id}, {}, {});
    UnqueueQueues(s, k, h.header.id);
  }

  lemma PacketSettles(s: Flood, k: string, p: Packet, s': Flood, levels: set<Level>)
    requires Good(s, levels) && PacketHandled(s, k, p, s')
    ensures Good(s', levels) && Settles(s, s')
    ensures !p.TIDEMsg? ==> OwnContentKept(s, s')
  {
    hide Good, Settles, TIDEHandled, TIEHandled, TIREHandled;
    match p
    case TIEMsg(tie) => TIEKeeps(s, k, tie, levels);
    case TIDEMsg(tide) => TIDESettles(s, k, tide, s', levels);
    case TIREMsg(hs) =>
      TIREQueues(s, k, hs);
      QueuesSettle(s, s', levels);
      QueueWork(s, s', levels);
    case OtherMsg => SettlesItself(s);
  }

  // ---- Time ----

  lemma TickKeeps(s: Flood, levels: set<Level>)
    requires Good(s, levels)
    ensures Good(Ticked(s), levels) && Advances(s, Ticked(s)) && OwnContentKept(s, Ticked(s))
  {
    hide FloodAll, ShouldAcceptTIE, AgedEntries, ExpiringOwn, Bumped;
    var aged := AgedEntries(s.entries);
    var mid := s.(entries := map id | id in aged :: if Refreshed(aged[id]) then Bumped(aged[id]) else aged[id]);
    forall id | id in s.entries && Own(s, id) ensures id in aged {
      AgedOne(s.entries, id);
    }
    forall id | id in mid.entries ensures RenewedFrom(s.entries, id, mid.entries[id]) {
      AgedOne(s.entries, id);
      RenewedOne(s.entries, id);
    }
    RenewalGood(s, mid, levels);
    FloodAllQueues(mid, ExpiringOwn(aged));
    QueueWork(mid, Ticked(s), levels);
    AdvancesThrough(s, mid, Ticked(s));
  }

  /**
   * What a second leaves of an entry: the same header but for a possible bump, and for ours a lifetime still in bounds.
   */
  ghost predicate RenewedFrom(entries: Entries, id: TIEID, e: Entry) {
    && id in entries && e.selfOriginated == entries[id].selfOriginated && e.packet.element == entries[id].packet.element
    && e.packet.header.id == entries[id].packet.header.id && entries[id].packet.header.seqNr <= e.packet.header.seqNr
    && (e.selfOriginated && REORIGINATE_BEFORE_EXPIRY <= entries[id].lifetime <= DEFAULT_LIFETIME
        ==> REORIGINATE_BEFORE_EXPIRY <= e.lifetime <= DEFAULT_LIFETIME)
  }

  lemma AgedOne(entries: Entries, id: TIEID)
    ensures id in AgedEntries(entries) ==> id in entries && AgedEntries(entries)[id] == Aged(entries[id], 1)
    ensures id in entries && 1 < entries[id].lifetime <= DEFAULT_LIFETIME ==> id in AgedEntries(entries)
  {
  }

  lemma RenewedOne(entries: Entries, id: TIEID)
    requires id in entries
    ensures RenewedFrom(entries, id, if Refreshed(Aged(entries[id], 1)) then Bumped(Aged(entries[id], 1))
      else Aged(entries[id], 1))
  {
  }

  lemma RenewalGood(s: Flood, mid: Flood, levels: set<Level>)
    requires Good(s, levels) && mid == s.(entries := mid.entries)
    requires forall id :: id in mid.entries ==> RenewedFrom(s.entries, id, mid.entries[id])
    requires forall id :: id in s.entries && Own(s, id) ==> id in mid.entries
    ensures Good(mid, levels) && Advances(s, mid) && OwnContentKept(s, mid)
  {
    hide ShouldAcceptTIE;
    assert forall id :: Own(mid, id) <==> Own(s, id);
    forall id | id in mid.entries && !Own(mid, id) ensures Acceptable(mid, levels, id) {
      assert RenewedFrom(s.entries, id, mid.entries[id]) && Acceptable(s, levels, id);
    }
    assert mid.Infos() == s.Infos();
  }

  // ---- Every step ----

  ghost predicate StepWithin(step: Step, levels: set<Level>) {
    step.AdjChange? && step.info.Some? ==> step.info.value.neighborLevel in levels
  }

  lemma AdjacencySet(s: Flood, ifName: string, info: Option<AdjacencyInfo>, levels: set<Level>)
    requires Good(s, levels) && (info.Some? ==> info.value.neighborLevel in levels)
    ensures Good(WithAdjacency(s, ifName, info), levels) && Advances(s, WithAdjacency(s, ifName, info))
  {
    hide ShouldAcceptTIE;
    var s' := WithAdjacency(s, ifName, info);
    assert forall id :: Own(s', id) <==> Own(s, id);
    forall id | id in s'.entries && !Own(s', id) ensures Acceptable(s', levels, id) {
      assert Acceptable(s, levels, id);
    }
  }

  lemma AdjChangeKeeps(s: Flood, ifName: string, info: Option<AdjacencyInfo>, s': Flood, levels: set<Level>)
    requires Good(s, levels) && (info.Some? ==> info.value.neighborLevel in levels) && AdjChanged(s, ifName, info, s')
    ensures Good(s', levels) && Advances(s, s') && Accurate(s') && OwnIDs(s) <= s'.entries.Keys
  {
    hide Good, Accurate, Originates, FloodAll, Advances;
    var mid :| Originates(WithAdjacency(s, ifName, info), mid) && s' == FloodAll(mid, OwnIDs(s));
    var set0 := WithAdjacency(s, ifName, info);
    AdjacencySet(s, ifName, info, levels);
    OriginateKeeps(set0, mid, levels);
    FloodAllQueues(mid, OwnIDs(s));
    QueueWork(mid, s', levels);
    AccurateKept(mid, s');
    Stays(s, set0, mid, s');
  }

  lemma Stays(a: Flood, b: Flood, c: Flood, d: Flood)
    requires Advances(a, b) && Advances(b, c) && Advances(c, d)
    requires a.entries.Keys == b.entries.Keys <= c.entries.Keys == d.entries.Keys
    ensures Advances(a, d)
  {
    AdvancesThrough(a, b, c);
    AdvancesThrough(a, c, d);
  }

  lemma DisaggKeeps(s: Flood, prefixes: seq<PrefixEntry>, levels: set<Level>)
    requires Good(s, levels) && Accurate(s)
    ensures Good(DisaggUpdated(s, prefixes), levels) && Advances(s, DisaggUpdated(s, prefixes))
    ensures Accurate(DisaggUpdated(s, prefixes))
  {
    hide Good, Accurate, FloodAll, Advances, InsertSelf;
    var id := OwnID(SOUTH, s.self, POS_DISAGG_TIE);
    var mid := InsertSelf(s, id, DisaggContent(prefixes));
    InsertKeeps(s, id, DisaggContent(prefixes), levels);
    FloodAllQueues(mid, {id});
    QueueWork(mid, FloodAll(mid, {id}), levels);
    AccurateBeside(s, id, DisaggContent(prefixes));
    AccurateKept(mid, FloodAll(mid, {id}));
    AdvancesItself(s);
    InsertGrows(s, id, DisaggContent(prefixes));
    AdvancesThrough(s, mid, FloodAll(mid, {id}));
    assert prefixes == [] ==> DisaggContent(prefixes) == DisaggContent([]);
  }

  lemma InsertGrows(s: Flood, id: TIEID, el: Element)
    ensures s.entries.Keys <= InsertSelf(s, id, el).entries.Keys
  {
  }

  lemma AdvancesItself(s: Flood)
    ensures Advances(s, s)
  {
  }

  lemma AccurateBeside(s: Flood, id: TIEID, el: Element)
    requires Accurate(s) && id.tieType != NODE_TIE
    ensures Accurate(InsertSelf(s, id, el))
  {
    hide NorthNodeContent, SouthNodeContent;
    assert InsertSelf(s, id, el).Infos() == s.Infos();
  }

  lemma SettledAccurate(s: Flood, s': Flood)
    requires Accurate(s) && Settles(s, s')
    ensures Accurate(s') && Advances(s, s')
  {
    hide NorthNodeContent, SouthNodeContent, NorthPrefixContent;
    var north, south := OwnID(NORTH, s.self, NODE_TIE), OwnID(SOUTH, s.self, NODE_TIE);
    if north in s'.entries { assert Own(s, north) && OwnOrCurrent(s, s', north); }
    if south in s'.entries { assert Own(s, south) && OwnOrCurrent(s, s', south); }
  }

  lemma LocalSet(s: Flood, local: seq<LocalPrefix>, levels: set<Level>)
    requires Good(s, levels) && Accurate(s)
    ensures Good(s.(local := local), levels) && Accurate(s.(local := local)) && Advances(s, s.(local := local))
  {
    hide ShouldAcceptTIE, NorthNodeContent, SouthNodeContent;
    var s' := s.(local := local);
    assert s'.Infos() == s.Infos();
    assert forall id :: Own(s', id) <==> Own(s, id);
    forall id | id in s'.entries && !Own(s', id) ensures Acceptable(s', levels, id) {
      assert Acceptable(s, levels, id);
    }
  }

  lemma DrainKeeps(s: Flood, levels: set<Level>)
    requires Good(s, levels) && Accurate(s)
    ensures Good(Drained(s), levels) && Accurate(Drained(s)) && Advances(s, Drained(s))
  {
    hide Good, Accurate;
    assert Drained(s).Infos() == s.Infos();
    QueueWork(s, Drained(s), levels);
    AccurateKept(s, Drained(s));
  }

  /** Every step of the engine keeps the state invariants and never sets the database back. */
  lemma StepKeeps(s: Flood, step: Step, s': Flood, levels: set<Level>)
    requires Good(s, levels) && Accurate(s) && Next(s, step, s') && StepWithin(step, levels)
    ensures Good(s', levels) && Accurate(s') && Advances(s, s')
  {
    hide Good, Accurate, Advances, Settles, AdjChanged, DisaggUpdated, PacketHandled, Ticked, Drained, OwnContentKept;
    match step
    case AdjChange(ifName, info) => AdjChangeKeeps(s, ifName, info, s', levels);
    case DisaggUpdate(prefixes) => DisaggKeeps(s, prefixes, levels);
    case SetLocalPrefixes(local) => LocalSet(s, local, levels);
    case Receive(k, p) =>
      PacketSettles(s, k, p, s', levels);
      SettledAccurate(s, s');
    case Tick =>
      TickKeeps(s, levels);
      AccurateKept(s, s');
    case Drain => DrainKeeps(s, levels);
    case SendTIDEs => AdvancesItself(s);
  }

  // ---- Runs ----

  predicate Started(s: Flood) { s.entries == map[] && s.adjs == map[] }

  /** A run of the engine from its start, with neighbours at the given levels only. */
  ghost predicate Run(states: seq<Flood>, steps: seq<Step>, levels: set<Level>) {
    && |states| == |steps| + 1 && Started(states[0])
    && forall i :: 0 <= i < |steps| ==> Next(states[i], steps[i], states[i + 1]) && StepWithin(steps[i], levels)
  }

  /**
   * In every reachable state: entries filed under their own identity, flagged as ours exactly when they are, acceptable
   * when not ours, and ours alive and accurate.
   */
  lemma {:induction false} RunInvariant(states: seq<Flood>, steps: seq<Step>, levels: set<Level>, i: nat)
    requires Run(states, steps, levels) && i < |states|
    ensures Good(states[i], levels) && Accurate(states[i])
  {
    hide Next, StepWithin;
    if i == 0 {
      StartGood(states[0], levels);
    } else {
      hide Good, Accurate;
      RunInvariant(states, steps, levels, i - 1);
      StepKeeps(states[i - 1], steps[i - 1], states[i], levels);
    }
  }

  lemma StartGood(s: Flood, levels: set<Level>)
    requires Started(s)
    ensures Good(s, levels) && Accurate(s)
  {
  }

  /**
   * A node whose neighbours are never below it, such as a leaf among non-negative levels, never holds a foreign North
   * TIE.
   */
  lemma NoForeignNorth(states: seq<Flood>, steps: seq<Step>, levels: set<Level>, i: nat, id: TIEID)
    requires Run(states, steps, levels) && i < |states| && id in states[i].entries
    requires id.direction == NORTH && forall l :: l in levels ==> l >= states[i].level
    ensures Own(states[i], id)
  {
    hide Run;
    RunInvariant(states, steps, levels, i);
    ForeignFrom(states[i], levels, id);
  }

  lemma ForeignFrom(s: Flood, levels: set<Level>, id: TIEID)
    requires Good(s, levels) && id in s.entries
    ensures Own(s, id) || Acceptable(s, levels, id)
  {
  }

  ghost predicate StoredThroughout(states: seq<Flood>, i: nat, j: nat, id: TIEID)
    requires i <= j < |states|
  {
    forall m :: i <= m <= j ==> id in states[m].entries
  }

  /** While an entry stays stored its sequence number never falls. */
  lemma {:induction false} SeqNeverFalls(states: seq<Flood>, steps: seq<Step>, levels: set<Level>, i: nat, j: nat,
                                         id: TIEID)
    requires Run(states, steps, levels) && i <= j < |states| && StoredThroughout(states, i, j, id)
    ensures SeqNr(states[i], id) <= SeqNr(states[j], id)
  {
    hide Next, StepWithin, Good, Accurate;
    if i < j {
      SeqNeverFalls(states, steps, levels, i, j - 1, id);
      RunInvariant(states, steps, levels, j - 1);
      StepKeeps(states[j - 1], steps[j - 1], states[j], levels);
    }
  }

  /** What is ours never leaves the database, whatever is received and however much time passes. */
  lemma {:induction false} OwnStays(states: seq<Flood>, steps: seq<Step>, levels: set<Level>, i: nat, j: nat, id: TIEID)
    requires Run(states, steps, levels) && i <= j < |states| && id in states[i].entries && Own(states[i], id)
    ensures states[j].self == states[i].self && StoredThroughout(states, i, j, id)
    ensures states[j].entries[id].selfOriginated && states[j].entries[id].lifetime >= REORIGINATE_BEFORE_EXPIRY
  {
    hide Next, StepWithin, ForeignAcceptable, Accurate;
    RunInvariant(states, steps, levels, j);
    if i < j {
      OwnStays(states, steps, levels, i, j - 1, id);
      RunInvariant(states, steps, levels, j - 1);
      StepKeeps(states[j - 1], steps[j - 1], states[j], levels);
    }
  }

  // ---- Stale copies of what is ours ----

  /** The step hands us, on a known adjacency, a copy of one of our TIEs with sequence number r. */
  predicate GetsCopy(s: Flood, step: Step, id: TIEID, r: int) {
    step.Receive? && step.rxIf in s.adjs && step.packet.TIEMsg? && step.packet.tie.header.id == id
      && step.packet.tie.header.seqNr == r
  }

  /** A newer copy narrows the gap by exactly one; it does not close it. */
  lemma CopyNarrowsGap(s: Flood, step: Step, s': Flood, id: TIEID, r: int, levels: set<Level>)
    requires Good(s, levels) && Next(s, step, s') && GetsCopy(s, step, id, r)
    requires id in s.entries && Own(s, id) && SeqNr(s, id) < r
    ensures id in s'.entries && SeqNr(s', id) == SeqNr(s, id) + 1
    ensures s'.entries[id].packet.element == s.entries[id].packet.element
    ensures forall k :: k in s.adjs && ShouldFloodTIE(id, s.self, s.level, s.adjs[k].info.neighborLevel) ==>
              k in s'.adjs && id in s'.adjs[k].tx
  {
    hide ShouldFloodTIE, Good, OwnContentKept;
    var tie := step.packet.tie;
    HeaderOrder(RxHeader(tie), s.entries[id].Header());
    BumpKeeps(s, id, levels);
    FlaggedOwn(s, id, levels);
    assert s' == FloodAll(Bump(s, id), {id});
    assert Bump(s, id).adjs == s.adjs;
  }

  lemma FlaggedOwn(s: Flood, id: TIEID, levels: set<Level>)
    requires Good(s, levels) && id in s.entries && Own(s, id)
    ensures s.entries[id].selfOriginated && s.entries[id].packet.header.id == id
  {
  }

  function Copies(states: seq<Flood>, steps: seq<Step>, i: nat, j: nat, id: TIEID, r: int): nat
    requires i <= j <= |steps| < |states|
  {
    if i == j then 0
      else Copies(states, steps, i, j - 1, id, r) + if GetsCopy(states[j - 1], steps[j - 1], id, r) then 1 else 0
  }

  function Min(a: int, b: int): int { if a < b then a else b }

  /** Over any run, n copies with sequence number r raise ours by n until r is reached. */
  lemma {:induction false} GapCloses(states: seq<Flood>, steps: seq<Step>, levels: set<Level>, i: nat, j: nat,
                                     id: TIEID, r: int)
    requires Run(states, steps, levels) && i <= j < |states| && id in states[i].entries && Own(states[i], id)
    ensures id in states[j].entries
    ensures SeqNr(states[j], id) >= Min(r, SeqNr(states[i], id) + Copies(states, steps, i, j, id, r))
  {
    hide Next, StepWithin, Good, Accurate, GetsCopy;
    OwnStays(states, steps, levels, i, j, id);
    if i < j {
      var s, s' := states[j - 1], states[j];
      GapCloses(states, steps, levels, i, j - 1, id, r);
      OwnStays(states, steps, levels, i, j - 1, id);
      RunInvariant(states, steps, levels, j - 1);
      StepKeeps(s, steps[j - 1], s', levels);
      if GetsCopy(s, steps[j - 1], id, r) && SeqNr(s, id) < r {
        CopyNarrowsGap(s, steps[j - 1], s', id, r, levels);
      }
    }
  }

  /** Over any run no received packet gives what is ours a content other than what we would originate at that moment. */
  lemma ReceivedNeverReplacesOwn(states: seq<Flood>, steps: seq<Step>, levels: set<Level>, i: nat, id: TIEID)
    requires Run(states, steps, levels) && i < |steps| && steps[i].Receive? && id in states[i + 1].entries
    requires Own(states[i], id)
    ensures OwnOrCurrent(states[i], states[i + 1], id)
    ensures !steps[i].packet.TIDEMsg? ==>
        id in states[i].entries && states[i + 1].entries[id].packet.element == states[i].entries[id].packet.element
  {
    hide Good, Accurate, PacketHandled, StepWithin, OwnOrCurrent;
    RunInvariant(states, steps, levels, i);
    assert Next(states[i], steps[i], states[i + 1]);
    PacketSettles(states[i], steps[i].rxIf, steps[i].packet, states[i + 1], levels);
  }
}
