/** A whole round of TIDEs at the receiver: what gets queued, and nothing else. */
module TideRound {
  import opened RiftTypes
  import opened Lsdb
  import opened Scope
  import opened Originate
  import opened TideChunks
  import opened FloodSpec
  import opened FloodInvariants

  // ---- What a header says relative to the database ----

  predicate ListedOlder(s: Flood, h: HeaderWithLifetime) {
    IDOf(h) in s.entries && CompareTIEHeader(h, s.entries[IDOf(h)].Header()) < 0
  }

  predicate Wanted(s: Flood, k: string, h: HeaderWithLifetime)
    requires k in s.adjs
  {
    && !Own(s, IDOf(h)) && ShouldAcceptTIE(IDOf(h), s.self, s.level, s.adjs[k].info.neighborLevel)
    && (IDOf(h) in s.entries ==> CompareTIEHeader(h, s.entries[IDOf(h)].Header()) > 0)
  }

  function Requested(s: Flood, k: string, hs: set<HeaderWithLifetime>): set<TIEID>
    requires k in s.adjs
  {
    set h | h in hs && Wanted(s, k, h) :: IDOf(h)
  }

  function IDsOf(hs: set<HeaderWithLifetime>): set<TIEID> { set h | h in hs :: IDOf(h) }

  predicate OmittedBy(s: Flood, k: string, t: Tide, id: TIEID) {
    id in s.entries && InRange(t, id) && id !in HeaderIDs(t.headers) && Scoped(s, k, id)
  }

  // ---- What the handling of headers does to the database ----

  /** Foreign entries are untouched; ours are untouched or have moved on in sequence. */
  ghost predicate Moved(s: Flood, m: Flood) {
    && m.self == s.self && m.level == s.level && m.Infos() == s.Infos()
    && (forall id :: !Own(s, id) ==> (id in m.entries <==> id in s.entries))
    && (forall id :: id in s.entries ==>
      id in m.entries && (m.entries[id] == s.entries[id] || (Own(s, id) && SeqNr(s, id) < SeqNr(m, id))))
  }

  lemma MovedThrough(a: Flood, b: Flood, c: Flood)
    requires Moved(a, b) && Moved(b, c)
    ensures Moved(a, c)
  {
  }

  lemma QueuesMoved(s: Flood, m: Flood)
    requires OnlyQueues(s, m)
    ensures Moved(s, m)
  {
  }

  lemma BumpMoves(s: Flood, id: TIEID, levels: set<Level>)
    requires Good(s, levels) && Own(s, id)
    ensures Moved(s, Bump(s, id)) && Bump(s, id).adjs == s.adjs && Bump(s, id).self == s.self
  {
    hide ForeignAcceptable, LevelsWithin;
    assert Bump(s, id).Infos() == s.Infos();
  }

  lemma InsertMoves(s: Flood, id: TIEID, el: Element, levels: set<Level>)
    requires Good(s, levels) && id in Originated(s)
    ensures Moved(s, InsertSelf(s, id, el)) && Good(InsertSelf(s, id, el), levels)
    ensures InsertSelf(s, id, el).adjs == s.adjs
  {
    hide ForeignAcceptable, LevelsWithin;
    InsertKeeps(s, id, el, levels);
  }

  lemma OriginateMoves(s: Flood, s': Flood, levels: set<Level>)
    requires Good(s, levels) && Originates(s, s')
    ensures Moved(s, s') && s'.adjs == s.adjs && s'.self == s.self
  {
    hide NorthNodeContent, SouthNodeContent, Good, Moved;
    var north, south :| NorthNodeContent(s.level, s.Infos(), north) && SouthNodeContent(s.level, s.Infos(), south)
                        && s' == OriginateWith(s, north, south);
    var a := InsertSelf(s, OwnID(NORTH, s.self, NODE_TIE), north);
    var b := InsertSelf(a, OwnID(NORTH, s.self, PREFIX_TIE), NorthPrefixContent(s.local));
    InsertMoves(s, OwnID(NORTH, s.self, NODE_TIE), north, levels);
    InsertMoves(a, OwnID(NORTH, s.self, PREFIX_TIE), NorthPrefixContent(s.local), levels);
    MovedThrough(s, a, b);
    if s.level > LEAF_LEVEL {
      var c := InsertSelf(b, OwnID(SOUTH, s.self, NODE_TIE), south);
      InsertMoves(b, OwnID(SOUTH, s.self, NODE_TIE), south, levels);
      InsertMoves(c, OwnID(SOUTH, s.self, PREFIX_TIE), SouthPrefixContent(), levels);
      MovedThrough(s, b, c);
      MovedThrough(s, c, s');
    }
  }

  /** The queues of the adjacency grew by `tx` at least, and by foreign identities in `tx` at most. */
  ghost predicate Grew(m: Flood, m': Flood, k: string, tx: set<TIEID>, req: set<TIEID>, off: set<TIEID>) {
    && k in m.adjs && k in m'.adjs
    && m'.adjs[k].req == m.adjs[k].req + req
    && (forall id :: id in m.adjs[k].tx && id !in off ==> id in m'.adjs[k].tx)
    && (forall id :: id in tx ==> id in m'.adjs[k].tx)
    && (forall id :: id in m'.adjs[k].tx && !Own(m, id) ==> id in m.adjs[k].tx || id in tx)
  }

  /** One header: what it does to the database and to the queues of the adjacency it came in on. */
  lemma HeaderEffect(m: Flood, k: string, h: HeaderWithLifetime, m': Flood, levels: set<Level>)
    requires Good(m, levels) && k in m.adjs && HeaderHandled(m, k, h, m')
    ensures Good(m', levels) && Moved(m, m')
    ensures Grew(m, m', k, if ListedOlder(m, h) then {IDOf(h)} else {}, if Wanted(m, k, h) then {IDOf(h)}
      else {}, {IDOf(h)})
  {
    hide Good, Moved, FloodAll, Bump, Originates, CompareTIEHeader, ShouldAcceptTIE, ShouldFloodTIE;
    var id := IDOf(h);
    HeaderSettles(m, k, h, m', levels);
    EnqueueQueues(m, k, {}, {}, {id});
    EnqueueQueues(m, k, {id}, {}, {});
    UnqueueQueues(m, k, id);
    QueuesMoved(m, m);
    if Own(m, id) {
      BumpMoves(m, id, levels);
      FloodGrows(Bump(m, id), id, k);
    }
    if Own(m, id) && id !in m.entries {
      var mid :| Originates(m, mid) && m' == FloodAll(mid, {id});
      OriginateMoves(m, mid, levels);
      FloodGrows(mid, id, k);
      FloodMoved(m, mid, {id});
    } else if Own(m, id) && CompareTIEHeader(h, m.entries[id].Header()) > 0 {
      FloodMoved(m, Bump(m, id), {id});
    } else {
      QueuesMoved(m, m');
    }
  }

  lemma FloodMoved(s: Flood, m: Flood, ids: set<TIEID>)
    requires Moved(s, m)
    ensures Moved(s, FloodAll(m, ids))
  {
    hide FloodAll, Moved;
    FloodAllQueues(m, ids);
    QueuesMoved(m, FloodAll(m, ids));
    MovedThrough(s, m, FloodAll(m, ids));
  }

  lemma FloodGrows(m: Flood, id: TIEID, k: string)
    requires Own(m, id)
    ensures k in m.adjs ==> Grew(m, FloodAll(m, {id}), k, {}, {}, {})
  {
    hide ShouldFloodTIE;
  }

  // ---- A round ----

  /** Where the round stands once the headers of `seen` and the omissions of the pieces of `walked` are dealt with. */
  ghost predicate Progress(s: Flood, k: string, m: Flood, seen: set<HeaderWithLifetime>, walked: set<Tide>,
                           listed: set<TIEID>)
    requires k in s.adjs
  {
    && Moved(s, m) && k in m.adjs
    && m.adjs[k].req == s.adjs[k].req + Requested(s, k, seen)
    && (forall h :: h in seen && ListedOlder(s, h) ==> IDOf(h) in m.adjs[k].tx)
    && (forall t, id :: t in walked && OmittedBy(s, k, t, id) && id !in listed ==> id in m.adjs[k].tx)
    && (forall id :: id in m.adjs[k].tx && !Own(s, id) ==> Excused(s, k, seen, walked, id))
  }

  /** Why a foreign identity may be queued: it was, it was listed as older, or some piece omits it. */
  ghost predicate Excused(s: Flood, k: string, seen: set<HeaderWithLifetime>, walked: set<Tide>, id: TIEID)
    requires k in s.adjs
  {
    || id in s.adjs[k].tx
    || (exists h :: h in seen && ListedOlder(s, h) && IDOf(h) == id)
    || (exists t :: t in walked && OmittedBy(s, k, t, id))
  }

  lemma SameVerdict(s: Flood, k: string, m: Flood, h: HeaderWithLifetime)
    requires k in s.adjs && k in m.adjs && Moved(s, m)
    ensures ListedOlder(s, h) ==> ListedOlder(m, h)
    ensures !Own(s, IDOf(h)) ==> (ListedOlder(s, h) <==> ListedOlder(m, h))
    ensures Wanted(s, k, h) <==> Wanted(m, k, h)
  {
    hide ShouldAcceptTIE;
    var id := IDOf(h);
    assert k in s.Infos() && k in m.Infos();
    assert s.Infos()[k] == s.adjs[k].info && m.Infos()[k] == m.adjs[k].info;
    if id in s.entries && Own(s, id) { HeaderOrder(h, s.entries[id].Header()); HeaderOrder(h, m.entries[id].Header()); }
  }

  lemma SeeHeader(s: Flood, k: string, m: Flood, h: HeaderWithLifetime, m': Flood, seen: set<HeaderWithLifetime>,
                  walked: set<Tide>, listed: set<TIEID>, levels: set<Level>)
    requires Good(m, levels) && k in s.adjs && Progress(s, k, m, seen, walked, listed)
    requires HeaderHandled(m, k, h, m') && IDOf(h) !in IDsOf(seen) && IDOf(h) in listed
    ensures Good(m', levels) && Progress(s, k, m', seen + {h}, walked, listed)
  {
    hide Good, Moved, HeaderHandled, ListedOlder, Wanted, OmittedBy;
    HeaderEffect(m, k, h, m', levels);
    MovedThrough(s, m, m');
    SameVerdict(s, k, m, h);
    assert Requested(s, k, seen + {h}) == Requested(s, k, seen) + if Wanted(s, k, h) then {IDOf(h)} else {};
    forall g | g in seen + {h} && ListedOlder(s, g) ensures IDOf(g) in m'.adjs[k].tx {
      if g != h { assert IDOf(g) in IDsOf(seen); }
    }
    forall id | id in m'.adjs[k].tx && !Own(s, id) ensures Excused(s, k, seen + {h}, walked, id) {
      SelfKept(s, m);
      if id in m.adjs[k].tx { assert Excused(s, k, seen, walked, id); }
    }
  }

  lemma SelfKept(s: Flood, m: Flood)
    requires Moved(s, m)
    ensures m.self == s.self && m.level == s.level
  {
  }

  lemma WalkPiece(s: Flood, k: string, m: Flood, t: Tide, seen: set<HeaderWithLifetime>, walked: set<Tide>,
                  listed: set<TIEID>, levels: set<Level>)
    requires Good(m, levels) && k in s.adjs && Progress(s, k, m, seen, walked, listed)
    ensures k in m.adjs && Good(Enqueue(m, k, Unlisted(m, k, t), {}, {}), levels)
    ensures Progress(s, k, Enqueue(m, k, Unlisted(m, k, t), {}, {}), seen, walked + {t}, listed)
  {
    hide Good, Moved, ListedOlder, OmittedBy, Wanted;
    var m' := Enqueue(m, k, Unlisted(m, k, t), {}, {});
    EnqueueQueues(m, k, Unlisted(m, k, t), {}, {});
    QueueWork(m, m', levels);
    QueuesMoved(m, m');
    MovedThrough(s, m, m');
    SelfKept(s, m);
    SameOmissions(s, k, m, t);
    assert m'.adjs[k].req == m.adjs[k].req + {};
    forall id | id in m'.adjs[k].tx && !Own(s, id) ensures Excused(s, k, seen, walked + {t}, id) {
      if id in m.adjs[k].tx { assert Excused(s, k, seen, walked, id); }
    }
  }

  lemma SameOmissions(s: Flood, k: string, m: Flood, t: Tide)
    requires k in s.adjs && k in m.adjs && Moved(s, m)
    ensures forall id :: OmittedBy(s, k, t, id) ==> id in Unlisted(m, k, t)
    ensures forall id :: id in Unlisted(m, k, t) && !Own(s, id) ==> OmittedBy(s, k, t, id)
  {
    hide ShouldFloodTIE, InRange, HeaderIDs;
    assert k in s.Infos() && k in m.Infos();
    assert s.Infos()[k] == s.adjs[k].info && m.Infos()[k] == m.adjs[k].info;
    assert forall id :: Scoped(m, k, id) <==> Scoped(s, k, id);
  }

  /** No identity is listed twice. */
  ghost predicate ListedOnce(hs: seq<HeaderWithLifetime>) {
    forall i, j :: 0 <= i < j < |hs| ==> IDOf(hs[i]) != IDOf(hs[j])
  }

  lemma {:induction false} SeeHeaders(s: Flood, k: string, m: Flood, hs: seq<HeaderWithLifetime>, m': Flood,
                                      seen: set<HeaderWithLifetime>, walked: set<Tide>, listed: set<TIEID>,
                                      levels: set<Level>)
    requires Good(m, levels) && k in s.adjs && Progress(s, k, m, seen, walked, listed)
    requires HeadersHandled(m, k, hs, m') && ListedOnce(hs) && IDsOf(Elements(hs)) !! IDsOf(seen)
    requires IDsOf(Elements(hs)) <= listed
    ensures Good(m', levels) && Progress(s, k, m', seen + Elements(hs), walked, listed)
  {
    hide Good, Progress, HeaderHandled;
    if hs == [] {
      assert seen + Elements(hs) == seen;
    } else {
      var init, h := hs[..|hs| - 1], hs[|hs| - 1];
      assert hs == init + [h];
      var mid :| HeadersHandled(m, k, init, mid) && k in mid.adjs && HeaderHandled(mid, k, h, m');
      assert Elements(hs) == Elements(init) + {h};
      assert IDsOf(Elements(hs)) == IDsOf(Elements(init)) + {IDOf(h)};
      SeeHeaders(s, k, m, init, mid, seen, walked, listed, levels);
      FreshID(seen, hs);
      SeeHeader(s, k, mid, h, m', seen + Elements(init), walked, listed, levels);
      assert seen + Elements(hs) == seen + Elements(init) + {h};
    }
  }

  lemma FreshID(seen: set<HeaderWithLifetime>, hs: seq<HeaderWithLifetime>)
    requires hs != [] && ListedOnce(hs) && IDsOf(Elements(hs)) !! IDsOf(seen)
    ensures IDOf(hs[|hs| - 1]) !in IDsOf(seen + Elements(hs[..|hs| - 1]))
  {
    var h := hs[|hs| - 1];
    assert h in Elements(hs) && IDOf(h) in IDsOf(Elements(hs));
  }

  /** The pieces, handled one after another. */
  ghost predicate Round(s: Flood, k: string, ts: seq<Tide>, s': Flood) {
    if ts == [] then s' == s else exists mid :: Round(s, k, ts[..|ts| - 1], mid) && TIDEHandled(mid, k, Final(ts), s')
  }

  function HeadersIn(ts: seq<Tide>): set<HeaderWithLifetime> { set t, h | t in ts && h in t.headers :: h }

  /** No identity is listed twice, within a piece or in two. */
  ghost predicate EachListedOnce(ts: seq<Tide>) {
    && (forall t :: t in ts ==> ListedOnce(t.headers))
    && (forall i, j :: 0 <= i < j < |ts| ==> IDsOf(Elements(ts[i].headers)) !! IDsOf(Elements(ts[j].headers)))
  }

  lemma {:induction false} RoundProgress(s: Flood, k: string, ts: seq<Tide>, s': Flood, listed: set<TIEID>,
                                         levels: set<Level>)
    requires Good(s, levels) && k in s.adjs && Round(s, k, ts, s') && EachListedOnce(ts)
    requires IDsOf(HeadersIn(ts)) <= listed
    ensures Good(s', levels) && Progress(s, k, s', HeadersIn(ts), Elements(ts), listed)
  {
    hide Good, HeadersHandled, Unlisted;
    if ts == [] {
      StartOfRound(s, k, listed);
    } else {
      hide Progress, TIDEHandled, Round;
      var init, t := ts[..|ts| - 1], Final(ts);
      assert ts == init + [t];
      var mid := BeforeLast(s, k, ts, s');
      HeadersInMore(init, t);
      NotSeen(init, t);
      RoundProgress(s, k, init, mid, listed, levels);
      OnePiece(s, k, mid, t, s', HeadersIn(init), Elements(init), listed, levels);
      assert Elements(ts) == Elements(init) + {t};
    }
  }

  lemma BeforeLast(s: Flood, k: string, ts: seq<Tide>, s': Flood) returns (mid: Flood)
    requires ts != [] && Round(s, k, ts, s')
    ensures Round(s, k, ts[..|ts| - 1], mid) && TIDEHandled(mid, k, Final(ts), s')
  {
    hide TIDEHandled;
    mid :| Round(s, k, ts[..|ts| - 1], mid) && TIDEHandled(mid, k, Final(ts), s');
  }

  lemma OnePiece(s: Flood, k: string, mid: Flood, t: Tide, s': Flood, seen: set<HeaderWithLifetime>, walked: set<Tide>,
                 listed: set<TIEID>, levels: set<Level>)
    requires Good(mid, levels) && k in s.adjs && Progress(s, k, mid, seen, walked, listed) && TIDEHandled(mid, k, t, s')
    requires ListedOnce(t.headers) && IDsOf(Elements(t.headers)) !! IDsOf(seen) && IDsOf(Elements(t.headers)) <= listed
    ensures Good(s', levels) && Progress(s, k, s', seen + Elements(t.headers), walked + {t}, listed)
  {
    hide Good, Progress, HeadersHandled, Unlisted, ListedOnce, IDsOf, Enqueue;
    AdjacencyKept(s, k, mid, seen, walked, listed);
    var after :| HeadersHandled(mid, k, t.headers, after) && k in after.adjs
      && s' == Enqueue(after, k, Unlisted(after, k, t), {}, {});
    SeeHeaders(s, k, mid, t.headers, after, seen, walked, listed, levels);
    WalkPiece(s, k, after, t, seen + Elements(t.headers), walked, listed, levels);
  }

  lemma StartOfRound(s: Flood, k: string, listed: set<TIEID>)
    requires k in s.adjs
    ensures Progress(s, k, s, HeadersIn([]), Elements([]), listed)
  {
    hide ListedOlder, OmittedBy;
    assert s.adjs[k].req == s.adjs[k].req + Requested(s, k, HeadersIn([]));
  }

  lemma AdjacencyKept(s: Flood, k: string, m: Flood, seen: set<HeaderWithLifetime>, walked: set<Tide>,
                      listed: set<TIEID>)
    requires k in s.adjs && Progress(s, k, m, seen, walked, listed)
    ensures k in m.adjs
  {
  }

  lemma HeadersInMore(init: seq<Tide>, t: Tide)
    ensures HeadersIn(init + [t]) == HeadersIn(init) + Elements(t.headers)
    ensures IDsOf(HeadersIn(init + [t])) == IDsOf(HeadersIn(init)) + IDsOf(Elements(t.headers))
    ensures EachListedOnce(init + [t]) ==> EachListedOnce(init)
  {
    assert HeadersIn(init + [t]) == HeadersIn(init) + Elements(t.headers);
    if EachListedOnce(init + [t]) {
      forall i, j | 0 <= i < j < |init| ensures IDsOf(Elements(init[i].headers)) !! IDsOf(Elements(init[j].headers)) {
        assert (init + [t])[i] == init[i] && (init + [t])[j] == init[j];
      }
    }
  }

  lemma NotSeen(init: seq<Tide>, t: Tide)
    requires EachListedOnce(init + [t])
    ensures IDsOf(Elements(t.headers)) !! IDsOf(HeadersIn(init)) && ListedOnce(t.headers)
  {
    var ts := init + [t];
    assert t in ts;
    forall h, g | h in t.headers && g in HeadersIn(init) ensures IDOf(h) != IDOf(g) {
      var u :| u in init && g in u.headers;
      var i :| 0 <= i < |init| && init[i] == u;
      assert ts[i] == u && ts[|init|] == t;
      assert IDOf(g) in IDsOf(Elements(ts[i].headers)) && IDOf(h) in IDsOf(Elements(ts[|init|].headers));
    }
  }

  // ---- The pieces of one list ----

  /** `ts` is `chunks` in some order. */
  ghost predicate Arranged(ts: seq<Tide>, chunks: seq<Tide>) {
    exists order: seq<nat> :: Permutes(order, |chunks|) && |ts| == |chunks| && forall i :: 0 <= i < |ts| ==>
      ts[i] == chunks[order[i]]
  }

  ghost predicate Permutes(order: seq<nat>, n: nat) {
    && |order| == n && (forall i :: 0 <= i < n ==> order[i] < n)
    && (forall i, j :: 0 <= i < j < n ==> order[i] != order[j])
    && (forall m :: 0 <= m < n ==> m in order)
  }

  lemma {:induction false} EarlierPieceFirst(chunks: seq<Tide>, i: nat, j: nat, h: HeaderWithLifetime,
                                             g: HeaderWithLifetime)
    requires SortedHeaders(Concat(chunks)) && i < j < |chunks| && h in chunks[i].headers && g in chunks[j].headers
    ensures Precedes(IDOf(h), IDOf(g))
  {
    hide CompareTIEID;
    var init, last := chunks[..|chunks| - 1], chunks[|chunks| - 1];
    var all := Concat(chunks);
    if j < |chunks| - 1 {
      assert all[..|Concat(init)|] == Concat(init);
      EarlierPieceFirst(init, i, j, h, g);
    } else {
      assert init[i] == chunks[i];
      ConcatHas(init, h);
      var x :| 0 <= x < |Concat(init)| && Concat(init)[x] == h;
      var y :| 0 <= y < |last.headers| && last.headers[y] == g;
      assert all[x] == h && all[|Concat(init)| + y] == g;
    }
  }

  lemma {:induction false} PieceSorted(chunks: seq<Tide>, i: nat)
    requires SortedHeaders(Concat(chunks)) && i < |chunks|
    ensures SortedHeaders(chunks[i].headers)
  {
    hide CompareTIEID;
    var init, last := chunks[..|chunks| - 1], chunks[|chunks| - 1];
    var all := Concat(chunks);
    if i < |chunks| - 1 {
      assert all[..|Concat(init)|] == Concat(init);
      PieceSorted(init, i);
    } else {
      assert all[|Concat(init)|..] == last.headers;
    }
  }

  lemma SortedOnce(chunks: seq<Tide>, ts: seq<Tide>)
    requires SortedHeaders(Concat(chunks)) && Arranged(ts, chunks)
    ensures EachListedOnce(ts)
  {
    hide CompareTIEID;
    var order :| Permutes(order, |chunks|) && |ts| == |chunks| && forall i :: 0 <= i < |ts| ==>
      ts[i] == chunks[order[i]];
    forall t | t in ts ensures ListedOnce(t.headers) {
      var i :| 0 <= i < |ts| && ts[i] == t;
      PieceSorted(chunks, order[i]);
      forall x, y | 0 <= x < y < |t.headers| ensures IDOf(t.headers[x]) != IDOf(t.headers[y]) {
        TIEIDTotalOrder(IDOf(t.headers[x]), IDOf(t.headers[y]), IDOf(t.headers[y]));
      }
    }
    forall i, j | 0 <= i < j < |ts| ensures IDsOf(Elements(ts[i].headers)) !! IDsOf(Elements(ts[j].headers)) {
      forall h, g | h in ts[i].headers && g in ts[j].headers ensures IDOf(h) != IDOf(g) {
        if order[i] < order[j] {
          EarlierPieceFirst(chunks, order[i], order[j], h, g);
        } else {
          EarlierPieceFirst(chunks, order[j], order[i], g, h);
        }
        TIEIDTotalOrder(IDOf(h), IDOf(g), IDOf(h));
      }
    }
  }

  lemma ArrangedSame(ts: seq<Tide>, chunks: seq<Tide>)
    requires Arranged(ts, chunks)
    ensures Elements(ts) == Elements(chunks)
  {
    var order :| Permutes(order, |chunks|) && |ts| == |chunks| && forall i :: 0 <= i < |ts| ==>
      ts[i] == chunks[order[i]];
    forall t | t in chunks ensures t in ts {
      var m :| 0 <= m < |chunks| && chunks[m] == t;
      assert m in order;
      var i :| 0 <= i < |order| && order[i] == m;
    }
  }

  lemma HeadersTogether(ts: seq<Tide>, chunks: seq<Tide>)
    requires Arranged(ts, chunks)
    ensures HeadersIn(ts) == Elements(Concat(chunks))
  {
    ArrangedSame(ts, chunks);
    assert forall t :: t in ts <==> t in Elements(ts);
    assert forall t :: t in chunks <==> t in Elements(chunks);
    forall h ensures h in HeadersIn(ts) <==> h in Concat(chunks) {
      ConcatHas(chunks, h);
    }
  }

  // ---- The main result ----

  ghost predicate Boundary(chunks: seq<Tide>, id: TIEID) {
    exists i :: 0 <= i < |chunks| - 1 && id == chunks[i].end
  }

  /** In scope towards the peer, in the range a round covers, and absent from the list. */
  predicate Omitted(s: Flood, k: string, headers: seq<HeaderWithLifetime>, id: TIEID) {
    id in s.entries && InFullRange(id) && id !in HeaderIDs(headers) && Scoped(s, k, id)
  }

  /** The pieces the peer's list is cut into. */
  ghost predicate CutFrom(headers: seq<HeaderWithLifetime>, chunks: seq<Tide>) {
    Listable(headers) && Tiling(headers, chunks) && forall t :: t in chunks ==> Inside(t)
  }

  /** A whole round, its pieces in any order: every omitted or older TIE is queued, exactly what is wanted is requested,
      and no other foreign TIE is queued but those at a shared boundary of two pieces. */
  lemma WholeRound(s: Flood, k: string, headers: seq<HeaderWithLifetime>, chunks: seq<Tide>, ts: seq<Tide>, s': Flood,
                   levels: set<Level>)
    requires Good(s, levels) && k in s.adjs && CutFrom(headers, chunks) && Arranged(ts, chunks) && Round(s, k, ts, s')
    ensures k in s'.adjs && Good(s', levels) && Moved(s, s')
    ensures forall id :: Omitted(s, k, headers, id) ==> id in s'.adjs[k].tx
    ensures forall h :: h in headers && ListedOlder(s, h) ==> IDOf(h) in s'.adjs[k].tx
    ensures s'.adjs[k].req == s.adjs[k].req + Requested(s, k, Elements(headers))
    ensures forall id :: id in s'.adjs[k].tx && !Own(s, id) ==> QueuedFor(s, k, headers, chunks, id)
  {
    hide Good, Moved, Round, ListedOlder, Omitted, OmittedBy, Arranged, CutFrom, QueuedFor, Wanted;
    CutFacts(headers, chunks);
    SortedOnce(chunks, ts);
    HeadersTogether(ts, chunks);
    ArrangedSame(ts, chunks);
    RoundProgress(s, k, ts, s', IDsOf(HeadersIn(ts)), levels);
    forall id | Omitted(s, k, headers, id) ensures id in s'.adjs[k].tx {
      var t := OmittedSomewhere(s, k, headers, chunks, id);
      assert t in Elements(ts);
    }
    forall id | id in s'.adjs[k].tx && !Own(s, id) ensures QueuedFor(s, k, headers, chunks, id) {
      assert Excused(s, k, HeadersIn(ts), Elements(ts), id);
      ExcuseExplained(s, k, headers, chunks, id);
    }
  }

  /** The reasons a foreign TIE may be queued after a round. */
  ghost predicate QueuedFor(s: Flood, k: string, headers: seq<HeaderWithLifetime>, chunks: seq<Tide>, id: TIEID)
    requires k in s.adjs
  {
    || id in s.adjs[k].tx
    || (exists h :: h in headers && ListedOlder(s, h) && IDOf(h) == id)
    || Omitted(s, k, headers, id)
    || (id in s.entries && Scoped(s, k, id) && Boundary(chunks, id))
  }

  lemma CutFacts(headers: seq<HeaderWithLifetime>, chunks: seq<Tide>)
    requires CutFrom(headers, chunks)
    ensures SortedHeaders(Concat(chunks)) && Concat(chunks) == headers
  {
  }

  lemma OmittedSomewhere(s: Flood, k: string, headers: seq<HeaderWithLifetime>, chunks: seq<Tide>, id: TIEID)
    returns (t: Tide)
    requires CutFrom(headers, chunks) && Omitted(s, k, headers, id)
    ensures t in chunks && OmittedBy(s, k, t, id) && id !in IDsOf(Elements(headers))
  {
    hide Scoped, CompareTIEID, Listable;
    var i := Covered(chunks, id);
    t := chunks[i];
    forall h | h in t.headers ensures h in headers { ConcatHas(chunks, h); }
  }

  lemma ExcuseExplained(s: Flood, k: string, headers: seq<HeaderWithLifetime>, chunks: seq<Tide>, id: TIEID)
    requires k in s.adjs && CutFrom(headers, chunks) && Excused(s, k, Elements(headers), Elements(chunks), id)
    ensures QueuedFor(s, k, headers, chunks, id)
  {
    hide Scoped, CompareTIEID, ListedOlder, CutFrom;
    if t :| t in chunks && OmittedBy(s, k, t, id) {
      if id in HeaderIDs(headers) {
        ListedElsewhere(headers, chunks, t, id);
      } else {
        PieceInFullRange(headers, chunks, t, id);
      }
    }
  }

  /** Every piece lies in the range of the whole. */
  lemma PieceInFullRange(headers: seq<HeaderWithLifetime>, chunks: seq<Tide>, t: Tide, id: TIEID)
    requires CutFrom(headers, chunks) && t in chunks && InRange(t, id)
    ensures InFullRange(id)
  {
    hide CompareTIEID, Listable;
    var i :| 0 <= i < |chunks| && chunks[i] == t;
    AllSpan(headers, chunks);
    var n := |chunks| - 1;
    if 0 < i {
      EndsBeforeStart(chunks, 0, i);
      assert chunks[0] in chunks;
      TIEIDTotalOrder(MIN_TIEID, chunks[0].end, t.start);
    }
    TIEIDTotalOrder(MIN_TIEID, t.start, id);
    if i < n {
      EndsBeforeStart(chunks, i, n);
      assert chunks[n] in chunks;
      TIEIDTotalOrder(t.end, chunks[n].start, MAX_TIEID);
    }
    TIEIDTotalOrder(id, t.end, MAX_TIEID);
  }

  lemma AllSpan(headers: seq<HeaderWithLifetime>, chunks: seq<Tide>)
    requires CutFrom(headers, chunks)
    ensures forall t :: t in chunks ==> Spans(t)
  {
    hide CompareTIEID, Listable;
    forall t | t in chunks ensures Spans(t) {
      if t.headers != [] {
        InsideSpans(t);
      } else {
        var i :| 0 <= i < |chunks| && chunks[i] == t;
        MinUpToMax();
      }
    }
  }

  lemma MinUpToMax()
    ensures UpTo(MIN_TIEID, MAX_TIEID)
  {
  }

  /** Omitted by one piece and listed by another: the identity lies on their boundary. */
  lemma ListedElsewhere(headers: seq<HeaderWithLifetime>, chunks: seq<Tide>, t: Tide, id: TIEID)
    requires CutFrom(headers, chunks) && t in chunks && InRange(t, id) && id !in HeaderIDs(t.headers)
    requires id in HeaderIDs(headers)
    ensures Boundary(chunks, id)
  {
    hide CompareTIEID, Listable;
    var h :| h in headers && IDOf(h) == id;
    ConcatHas(chunks, h);
    var j :| 0 <= j < |chunks| && h in chunks[j].headers;
    var i :| 0 <= i < |chunks| && chunks[i] == t;
    assert chunks[j] in chunks && Inside(chunks[j]) && InRange(chunks[j], id);
    AllSpan(headers, chunks);
    assert i != j;
    if i < j {
      OverlapIsBoundary(chunks, i, j, id);
    } else {
      OverlapIsBoundary(chunks, j, i, id);
    }
  }

  // ---- The excess is real ----

  lemma {:induction false} RoundInTwo(s: Flood, k: string, first: seq<Tide>, rest: seq<Tide>, s': Flood)
    returns (mid: Flood)
    requires Round(s, k, first + rest, s')
    ensures Round(s, k, first, mid) && Round(mid, k, rest, s')
  {
    hide TIDEHandled;
    if rest == [] {
      assert first + rest == first;
      mid := s';
    } else {
      var all := first + rest;
      var before := BeforeLast(s, k, all, s');
      assert all[..|all| - 1] == first + rest[..|rest| - 1];
      mid := RoundInTwo(s, k, first, rest[..|rest| - 1], before);
      assert Round(mid, k, rest[..|rest| - 1], before) && TIDEHandled(before, k, Final(rest), s');
    }
  }

  /**
   * Pieces handled in the order they were cut: every identity in scope on an inner boundary is sent again, however
   * equal the headers.
   */
  lemma BoundaryResent(s: Flood, k: string, headers: seq<HeaderWithLifetime>, chunks: seq<Tide>, s': Flood,
                       levels: set<Level>, i: nat)
    requires Good(s, levels) && k in s.adjs && CutFrom(headers, chunks) && Round(s, k, chunks, s')
    requires i < |chunks| - 1 && chunks[i].end in s.entries && Scoped(s, k, chunks[i].end)
    ensures k in s'.adjs && chunks[i].end in s'.adjs[k].tx
  {
    hide Good, Moved, Round, CutFrom, Scoped, Listable;
    var id, first, rest := chunks[i].end, chunks[..i + 1], chunks[i + 1..];
    assert first + rest == chunks;
    var mid := RoundInTwo(s, k, first, rest, s');
    CutFacts(headers, chunks);
    InOrder(chunks);
    SortedOnce(chunks, chunks);
    OnceInPart(chunks, first, rest);
    RoundProgress(s, k, first, mid, IDsOf(HeadersIn(first)), levels);
    RoundProgress(mid, k, rest, s', IDsOf(HeadersIn(rest)), levels);
    StillScoped(s, k, mid, id);
    NextOmits(headers, chunks, mid, k, i);
    assert rest[0] in Elements(rest);
  }

  lemma InOrder(chunks: seq<Tide>)
    ensures Arranged(chunks, chunks)
  {
    var order: seq<nat> := seq(|chunks|, i => i);
    forall m | 0 <= m < |chunks| ensures m in order { assert order[m] == m; }
    assert Permutes(order, |chunks|);
  }

  lemma OnceInPart(chunks: seq<Tide>, first: seq<Tide>, rest: seq<Tide>)
    requires chunks == first + rest && EachListedOnce(chunks)
    ensures EachListedOnce(first) && EachListedOnce(rest)
  {
    forall i, j | 0 <= i < j < |first| ensures IDsOf(Elements(first[i].headers)) !! IDsOf(Elements(first[j].headers)) {
      assert chunks[i] == first[i] && chunks[j] == first[j];
    }
    forall i, j | 0 <= i < j < |rest| ensures IDsOf(Elements(rest[i].headers)) !! IDsOf(Elements(rest[j].headers)) {
      assert chunks[|first| + i] == rest[i] && chunks[|first| + j] == rest[j];
    }
  }

  lemma StillScoped(s: Flood, k: string, m: Flood, id: TIEID)
    requires k in s.adjs && k in m.adjs && Moved(s, m) && id in s.entries && Scoped(s, k, id)
    ensures id in m.entries && Scoped(m, k, id)
  {
    assert s.Infos()[k] == s.adjs[k].info && m.Infos()[k] == m.adjs[k].info;
  }

  /** The piece after a boundary covers it without listing it, and no later piece lists it. */
  lemma NextOmits(headers: seq<HeaderWithLifetime>, chunks: seq<Tide>, m: Flood, k: string, i: nat)
    requires CutFrom(headers, chunks) && i < |chunks| - 1 && chunks[i].end in m.entries && Scoped(m, k, chunks[i].end)
    ensures OmittedBy(m, k, chunks[i + 1], chunks[i].end) && chunks[i].end !in IDsOf(HeadersIn(chunks[i + 1..]))
  {
    hide CompareTIEID, Scoped, Listable;
    var id, rest := chunks[i].end, chunks[i + 1..];
    CutFacts(headers, chunks);
    AllSpan(headers, chunks);
    assert EndListed(chunks[i]) && chunks[i + 1] in chunks && chunks[i + 1].start == id;
    TIEIDTotalOrder(id, id, id);
    var h := chunks[i].headers[|chunks[i].headers| - 1];
    forall g | g in HeadersIn(rest) ensures IDOf(g) != id {
      var t :| t in rest && g in t.headers;
      var j :| 0 <= j < |rest| && rest[j] == t;
      assert chunks[i + 1 + j] == t;
      EarlierPieceFirst(chunks, i, i + 1 + j, h, g);
      TIEIDTotalOrder(id, IDOf(g), id);
    }
    assert rest[0] == chunks[i + 1];
  }
}
