/** Two flood engines, one lossless round: TIDEs one way, requests back, TIEs one way. */
module Sync {
  import opened RiftTypes
  import opened Lsdb
  import opened Scope
  import opened TideChunks
  import opened FloodSpec
  import opened FloodInvariants
  import opened TideRound

  // ---- Requests ----

  predicate Int32(x: int) { MIN32 <= x <= MAX32 }

  /** A request is answered. */
  predicate Answered(id: TIEID, h: HeaderWithLifetime) { CompareTIEHeader(Request(id), h) <= 0 }

  predicate Requestable(h: HeaderWithLifetime) {
    h.header.seqNr > 0 || (h.header.seqNr == 0 && (h.lifetime >= -LIFETIME_DIFF_TO_IGNORE || h.lifetime == MIN32))
  }

  /**
   * Exactly which stored headers a request is answered for: sequence 0 is enough unless the lifetime lies far below
   * zero.
   */
  lemma AnsweredExactly(id: TIEID, h: HeaderWithLifetime)
    requires Int32(h.lifetime)
    ensures Answered(id, h) <==> Requestable(h)
  {
    assert Wrap32(0x8000_0000) == MIN32;
    assert h.lifetime == MIN32 ==> Wrap32(0 - h.lifetime) == MIN32;
  }

  /** A request gets its TIE queued exactly then. */
  lemma RequestQueues(s: Flood, k: string, id: TIEID)
    requires k in s.adjs && id in s.entries && id !in s.adjs[k].tx && Int32(s.entries[id].lifetime)
    ensures id in TIREHeaderHandled(s, k, Request(id)).adjs[k].tx <==> Requestable(s.entries[id].Header())
  {
    AnsweredExactly(id, s.entries[id].Header());
  }

  // ---- Delivery ----

  datatype Receipt = Receipt(k: string, packet: Packet)

  /** Packets taken in, one after another. */
  ghost predicate Handled(s: Flood, rs: seq<Receipt>, s': Flood) {
    if rs == [] then s' == s
    else exists mid :: Handled(s, rs[..|rs| - 1], mid) && PacketHandled(mid, Final(rs).k, Final(rs).packet, s')
  }

  /** Everything sent arrives on the adjacency, and nothing else: order and repetition are free. */
  ghost predicate DeliversExactly(k: string, out: seq<Sent>, rs: seq<Receipt>) {
    Elements(rs) == set m | m in out :: Receipt(k, m.packet)
  }

  /** Everything sent arrives on the adjacency, among whatever else arrives anywhere. */
  ghost predicate DeliversAll(k: string, out: seq<Sent>, rs: seq<Receipt>) {
    forall m :: m in out ==> Receipt(k, m.packet) in rs
  }

  // ---- The asked node ----

  /** What the packets of the asking node may say about an identity: nothing as recent as what is held here. */
  ghost predicate Behind(id: TIEID, seqNr: int, p: Packet) {
    match p
    case TIEMsg(tie) => tie.header.id == id ==> tie.header.seqNr < seqNr
    case TIREMsg(hs) => forall h :: h in hs && IDOf(h) == id && h.lifetime != 0 ==> h.header.seqNr < seqNr
    case TIDEMsg(tide) => false
    case OtherMsg => true
  }

  ghost predicate Holding(m: Flood, k: string, id: TIEID, e: Entry) {
    k in m.adjs && id in m.entries && m.entries[id] == e
  }

  ghost predicate Queued(m: Flood, k: string, id: TIEID) { k in m.adjs && id in m.adjs[k].tx }

  lemma TIEHolds(m: Flood, rx: string, tie: TIEPacket, k: string, id: TIEID, e: Entry, levels: set<Level>)
    requires Good(m, levels) && Holding(m, k, id, e) && Behind(id, e.packet.header.seqNr, TIEMsg(tie))
    ensures Holding(TIEHandled(m, rx, tie), k, id, e) && (Queued(m, k, id) ==> Queued(TIEHandled(m, rx, tie), k, id))
  {
    hide ShouldAcceptTIE, ShouldFloodTIE, ForeignAcceptable, LevelsWithin, OwnAlive;
    if tie.header.id == id { HeaderOrder(RxHeader(tie), e.Header()); }
  }

  lemma TIREHeaderHolds(m: Flood, rx: string, h: HeaderWithLifetime, k: string, id: TIEID, e: Entry)
    requires rx in m.adjs && Holding(m, k, id, e)
    requires IDOf(h) == id && h.lifetime != 0 ==> h.header.seqNr < e.packet.header.seqNr
    ensures Holding(TIREHeaderHandled(m, rx, h), k, id, e)
    ensures Queued(m, k, id) ==> Queued(TIREHeaderHandled(m, rx, h), k, id)
    ensures h == Request(id) && rx == k && Answered(id, e.Header()) ==> Queued(TIREHeaderHandled(m, rx, h), k, id)
  {
    if IDOf(h) == id { HeaderOrder(h, e.Header()); }
  }

  lemma {:induction false} TIREHolds(m: Flood, rx: string, hs: seq<HeaderWithLifetime>, k: string, id: TIEID, e: Entry)
    requires Holding(m, k, id, e) && Behind(id, e.packet.header.seqNr, TIREMsg(hs))
    ensures Holding(TIREHandled(m, rx, hs), k, id, e) && (Queued(m, k, id) ==> Queued(TIREHandled(m, rx, hs), k, id))
    ensures Request(id) in hs && rx == k && Answered(id, e.Header()) ==> Queued(TIREHandled(m, rx, hs), k, id)
  {
    hide Answered, TIREHeaderHandled;
    if rx in m.adjs && hs != [] {
      var init, h := hs[..|hs| - 1], hs[|hs| - 1];
      assert hs == init + [h];
      TIREHolds(m, rx, init, k, id, e);
      TIREHeaderHolds(TIREHandled(m, rx, init), rx, h, k, id, e);
    }
  }

  lemma {:induction false} PacketsHold(m: Flood, rs: seq<Receipt>, m': Flood, k: string, id: TIEID, e: Entry,
                                       levels: set<Level>)
    requires Good(m, levels) && Holding(m, k, id, e) && Handled(m, rs, m')
    requires forall r :: r in rs ==> Behind(id, e.packet.header.seqNr, r.packet)
    ensures Good(m', levels) && Holding(m', k, id, e) && (Queued(m, k, id) ==> Queued(m', k, id))
    ensures (exists r :: r in rs && Asks(r, k, id)) && Answered(id, e.Header()) ==> Queued(m', k, id)
  {
    hide Good, Behind, Answered, PacketHandled, Holding, Queued, Asks;
    if rs != [] {
      var init, r := rs[..|rs| - 1], Final(rs);
      assert rs == init + [r];
      var mid := BeforeFinal(m, rs, m');
      PacketsHold(m, init, mid, k, id, e, levels);
      PacketSettles(mid, r.k, r.packet, m', levels);
      OnePacketHolds(mid, r, m', k, id, e, levels);
    }
  }

  ghost predicate Asks(r: Receipt, k: string, id: TIEID) {
    r.k == k && r.packet.TIREMsg? && Request(id) in r.packet.headers
  }

  lemma BeforeFinal(m: Flood, rs: seq<Receipt>, m': Flood) returns (mid: Flood)
    requires rs != [] && Handled(m, rs, m')
    ensures Handled(m, rs[..|rs| - 1], mid) && PacketHandled(mid, Final(rs).k, Final(rs).packet, m')
  {
    hide PacketHandled;
    mid :| Handled(m, rs[..|rs| - 1], mid) && PacketHandled(mid, Final(rs).k, Final(rs).packet, m');
  }

  lemma OnePacketHolds(m: Flood, r: Receipt, m': Flood, k: string, id: TIEID, e: Entry, levels: set<Level>)
    requires Good(m, levels) && Holding(m, k, id, e) && PacketHandled(m, r.k, r.packet, m')
    requires Behind(id, e.packet.header.seqNr, r.packet)
    ensures Holding(m', k, id, e) && (Queued(m, k, id) ==> Queued(m', k, id))
    ensures Asks(r, k, id) && Answered(id, e.Header()) ==> Queued(m', k, id)
  {
    hide Good, Holding, Queued, Answered, TIREHandled, TIEHandled;
    match r.packet
    case TIEMsg(tie) => TIEHolds(m, r.k, tie, k, id, e, levels);
    case TIREMsg(hs) => TIREHolds(m, r.k, hs, k, id, e);
    case OtherMsg =>
    case TIDEMsg(_) => assert false;
  }

  // ---- The asking node ----

  ghost predicate Has(s: Flood, id: TIEID, seqNr: int) { id in s.entries && SeqNr(s, id) >= seqNr }

  lemma SettlesHas(s: Flood, s': Flood, id: TIEID, seqNr: int)
    requires Settles(s, s') && Has(s, id, seqNr)
    ensures Has(s', id, seqNr)
  {
    hide Current;
  }

  ghost predicate Accepts(s: Flood, k: string, id: TIEID) {
    k in s.adjs && !Own(s, id) && ShouldAcceptTIE(id, s.self, s.level, s.adjs[k].info.neighborLevel)
  }

  lemma SettlesAccepts(s: Flood, s': Flood, k: string, id: TIEID)
    requires Settles(s, s') && Accepts(s, k, id)
    ensures Accepts(s', k, id)
  {
    hide Current, ShouldAcceptTIE;
    assert k in s.Infos() && k in s'.Infos();
    assert s.Infos()[k] == s.adjs[k].info && s'.Infos()[k] == s'.adjs[k].info;
  }

  /** An accepted TIE is held afterwards, at its sequence number or a later one. */
  lemma ReceivedIsHeld(s: Flood, k: string, tie: TIEPacket)
    requires Accepts(s, k, tie.header.id)
    ensures Has(TIEHandled(s, k, tie), tie.header.id, tie.header.seqNr)
  {
    hide ShouldAcceptTIE, ShouldFloodTIE;
    var id := tie.header.id;
    if id in s.entries { HeaderOrder(RxHeader(tie), s.entries[id].Header()); }
  }

  lemma {:induction false} DeliveredIsHeld(s: Flood, rs: seq<Receipt>, s': Flood, k: string, tie: TIEPacket,
                                           levels: set<Level>)
    requires Good(s, levels) && Handled(s, rs, s') && Accepts(s, k, tie.header.id)
    ensures Good(s', levels) && Settles(s, s')
    ensures Receipt(k, TIEMsg(tie)) in rs ==> Has(s', tie.header.id, tie.header.seqNr)
  {
    hide Good, Settles, PacketHandled, Accepts, Has;
    if rs == [] {
      SettlesItself(s);
    } else {
      var init, r := rs[..|rs| - 1], Final(rs);
      assert rs == init + [r];
      var mid := BeforeFinal(s, rs, s');
      DeliveredIsHeld(s, init, mid, k, tie, levels);
      PacketSettles(mid, r.k, r.packet, s', levels);
      SettlesThrough(s, mid, s');
      SettlesAccepts(s, mid, k, tie.header.id);
      if r == Receipt(k, TIEMsg(tie)) {
        ReceivedIsHeld(mid, k, tie);
        HandledAsTIE(mid, k, tie, s');
      } else if Receipt(k, TIEMsg(tie)) in init {
        SettlesHas(mid, s', tie.header.id, tie.header.seqNr);
      }
    }
  }

  lemma HandledAsTIE(s: Flood, k: string, tie: TIEPacket, s': Flood)
    requires PacketHandled(s, k, TIEMsg(tie), s')
    ensures s' == TIEHandled(s, k, tie)
  {
  }

  // ---- What the asking node sends ----

  lemma DrainSays(s: Flood, k: string, out: seq<Sent>, id: TIEID, seqNr: int)
    requires Filed(s.entries) && k in s.adjs && Drains(s.entries, s.adjs[k], out)
    requires id in s.entries ==> SeqNr(s, id) < seqNr
    ensures forall m :: m in out ==> Behind(id, seqNr, m.packet)
    ensures id in s.adjs[k].req ==> exists m :: m in out && m.packet.TIREMsg? && Request(id) in m.packet.headers
  {
    var a := s.adjs[k];
    hide Drains;
    var acks, reqs, ties := DrainParts(s.entries, a, out);
    forall m | m in acks ensures Behind(id, seqNr, m.packet) { AcksBehind(s, a, acks, m, id, seqNr); }
    forall m | m in reqs ensures Behind(id, seqNr, m.packet) { RequestsBehind(a, reqs, m, id, seqNr); }
    forall m | m in ties ensures Behind(id, seqNr, m.packet) { TIEsBehind(s, a, ties, m, id, seqNr); }
    if id in a.req {
      assert Request(id) in ReqHeaders(a.req);
      assert Request(id) in Elements(reqs[0].packet.headers) && reqs[0] in out;
    }
  }

  lemma DrainParts(entries: Entries, a: AdjState, out: seq<Sent>)
    returns (acks: seq<Sent>, reqs: seq<Sent>, ties: seq<Sent>)
    requires Drains(entries, a, out)
    ensures out == acks + reqs + ties
    ensures TIREWith(a, AckHeaders(entries, a.ack), acks) && TIREWith(a, ReqHeaders(a.req), reqs)
    ensures TIEsOf(entries, a, ties)
  {
    hide TIREWith, TIEsOf;
    acks, reqs, ties :| out == acks + reqs + ties
      && TIREWith(a, AckHeaders(entries, a.ack), acks) && TIREWith(a, ReqHeaders(a.req), reqs)
      && TIEsOf(entries, a, ties);
  }

  lemma AcksBehind(s: Flood, a: AdjState, acks: seq<Sent>, m: Sent, id: TIEID, seqNr: int)
    requires Filed(s.entries) && TIREWith(a, AckHeaders(s.entries, a.ack), acks) && m in acks
    requires id in s.entries ==> SeqNr(s, id) < seqNr
    ensures Behind(id, seqNr, m.packet)
  {
    forall h | h in m.packet.headers && IDOf(h) == id ensures h.header.seqNr < seqNr {
      assert h in Elements(m.packet.headers);
    }
  }

  lemma RequestsBehind(a: AdjState, reqs: seq<Sent>, m: Sent, id: TIEID, seqNr: int)
    requires TIREWith(a, ReqHeaders(a.req), reqs) && m in reqs
    ensures Behind(id, seqNr, m.packet)
  {
    forall h | h in m.packet.headers ensures h.lifetime == 0 {
      assert h in Elements(m.packet.headers);
    }
  }

  lemma TIEsBehind(s: Flood, a: AdjState, ties: seq<Sent>, m: Sent, id: TIEID, seqNr: int)
    requires Filed(s.entries) && TIEsOf(s.entries, a, ties) && m in ties
    requires id in s.entries ==> SeqNr(s, id) < seqNr
    ensures Behind(id, seqNr, m.packet)
  {
    assert m in Elements(ties);
  }

  // ---- The round ----

  lemma TIEIsSent(s: Flood, k: string, out: seq<Sent>, id: TIEID)
    requires k in s.adjs && Drains(s.entries, s.adjs[k], out) && id in s.entries && id in s.adjs[k].tx
    ensures exists m :: m in out && m.packet == TIEMsg(s.entries[id].packet)
  {
    hide Drains;
    var acks, reqs, ties := DrainParts(s.entries, s.adjs[k], out);
    var m := Sent(s.adjs[k].info.ifName, TIEMsg(s.entries[id].packet), s.entries[id].lifetime);
    assert m in Elements(ties);
    assert m in out;
  }

  /** Node a lists TIEs to b; b asks back; a answers. */
  datatype Exchange = Exchange(
    a: Flood, kA: string, headers: seq<HeaderWithLifetime>, chunks: seq<Tide>,
    b: Flood, kB: string, arrived: seq<Tide>, listed: Flood,
    asked: seq<Sent>, atA: seq<Receipt>, a2: Flood,
    answered: seq<Sent>, drained: Flood, atB: seq<Receipt>, done: Flood)

  ghost predicate Lossless(x: Exchange) {
    && x.kA in x.a.adjs && x.kB in x.b.adjs
    && TIDEsFor(x.a, x.kA, x.headers, x.chunks) && Arranged(x.arrived, x.chunks)
    && Round(x.b, x.kB, x.arrived, x.listed)
    && x.kB in x.listed.adjs && Drains(x.listed.entries, x.listed.adjs[x.kB], x.asked)
    && OnlyQueues(x.listed, x.drained)
    && DeliversExactly(x.kA, x.asked, x.atA) && Handled(x.a, x.atA, x.a2)
    && x.kA in x.a2.adjs && Drains(x.a2.entries, x.a2.adjs[x.kA], x.answered)
    && DeliversAll(x.kB, x.answered, x.atB) && Handled(x.drained, x.atB, x.done)
  }

  /**
   * After one lossless round b holds, at the listed sequence number or later, every listed TIE that it accepts and did
   * not originate.
   */
  lemma OneRoundSuffices(x: Exchange, levelsA: set<Level>, levelsB: set<Level>, h: HeaderWithLifetime)
    requires Good(x.a, levelsA) && Good(x.b, levelsB) && Lossless(x)
    requires h in x.headers && Accepts(x.b, x.kB, IDOf(h)) && Answered(IDOf(h), h)
    ensures Has(x.done, IDOf(h), h.header.seqNr)
  {
    hide Good, Answered, Accepts, Round, Drains, Handled, TIDEsFor, DeliversExactly, DeliversAll, Arranged, Has,
      OnlyQueues, Asks, Behind;
    var id := IDOf(h);
    ListedHeld(x.a, x.kA, x.headers, x.chunks, h, levelsA);
    AfterListing(x, levelsB, h);
    SettlesAccepts(x.b, x.drained, x.kB, id);
    if Has(x.b, id, h.header.seqNr) {
      SettlesHas(x.b, x.drained, id, h.header.seqNr);
      DeliveredIsHeld(x.drained, x.atB, x.done, x.kB, x.a.entries[id].packet, levelsB);
      SettlesHas(x.drained, x.done, id, h.header.seqNr);
    } else {
      NotHad(x.b, x.listed, x.kB, id, h.header.seqNr, levelsB);
      DrainSays(x.listed, x.kB, x.asked, id, h.header.seqNr);
      RequestArrives(x.kA, x.asked, x.atA, id, h.header.seqNr);
      PacketsHold(x.a, x.atA, x.a2, x.kA, id, x.a.entries[id], levelsA);
      TIEIsSent(x.a2, x.kA, x.answered, id);
      AnswerArrives(x.kB, x.answered, x.atB, x.a.entries[id].packet);
      DeliveredIsHeld(x.drained, x.atB, x.done, x.kB, x.a.entries[id].packet, levelsB);
    }
  }

  lemma ListedHeld(a: Flood, k: string, headers: seq<HeaderWithLifetime>, chunks: seq<Tide>, h: HeaderWithLifetime,
                   levels: set<Level>)
    requires k in a.adjs && Good(a, levels) && TIDEsFor(a, k, headers, chunks) && h in headers
    ensures IDOf(h) in a.entries && a.entries[IDOf(h)].Header() == h && a.entries[IDOf(h)].packet.header == h.header
    ensures Holding(a, k, IDOf(h), a.entries[IDOf(h)])
  {
    hide ShouldIncludeInTIDE, ForeignAcceptable, LevelsWithin, OwnAlive, Tiling;
    assert h in Elements(headers);
  }

  /** After the TIDEs b has settled and asks for the listed TIE if it holds no copy as recent. */
  lemma AfterListing(x: Exchange, levels: set<Level>, h: HeaderWithLifetime)
    requires Good(x.b, levels) && x.kA in x.a.adjs && x.kB in x.b.adjs && h in x.headers && Accepts(x.b, x.kB, IDOf(h))
    requires TIDEsFor(x.a, x.kA, x.headers, x.chunks) && Arranged(x.arrived, x.chunks)
    requires Round(x.b, x.kB, x.arrived, x.listed)
    requires OnlyQueues(x.listed, x.drained)
    ensures Good(x.listed, levels) && Good(x.drained, levels) && Settles(x.b, x.drained) && Moved(x.b, x.listed)
    ensures x.kB in x.listed.adjs
    ensures !Has(x.b, IDOf(h), h.header.seqNr) ==> IDOf(h) in x.listed.adjs[x.kB].req
  {
    hide Good, Arranged, Round, OnlyQueues, ShouldAcceptTIE, Moved;
    SortedPieces(x);
    SortedOnce(x.chunks, x.arrived);
    HeadersTogether(x.arrived, x.chunks);
    RoundProgress(x.b, x.kB, x.arrived, x.listed, IDsOf(HeadersIn(x.arrived)), levels);
    RoundSettles(x.b, x.kB, x.arrived, x.listed, levels);
    QueuesSettle(x.listed, x.drained, levels);
    SettlesThrough(x.b, x.listed, x.drained);
    if !Has(x.b, IDOf(h), h.header.seqNr) {
      var id := IDOf(h);
      if id in x.b.entries { HeaderOrder(h, x.b.entries[id].Header()); }
      assert Wanted(x.b, x.kB, h) && h in Elements(x.headers);
    }
  }

  lemma SortedPieces(x: Exchange)
    requires x.kA in x.a.adjs && TIDEsFor(x.a, x.kA, x.headers, x.chunks)
    ensures SortedHeaders(Concat(x.chunks)) && Concat(x.chunks) == x.headers
  {
    hide CompareTIEID, ShouldIncludeInTIDE;
  }

  lemma {:induction false} RoundSettles(s: Flood, k: string, ts: seq<Tide>, s': Flood, levels: set<Level>)
    requires Good(s, levels) && Round(s, k, ts, s')
    ensures Good(s', levels) && Settles(s, s')
  {
    hide Good, Settles, TIDEHandled;
    if ts == [] {
      SettlesItself(s);
    } else {
      var mid := BeforeLast(s, k, ts, s');
      RoundSettles(s, k, ts[..|ts| - 1], mid, levels);
      TIDESettles(mid, k, Final(ts), s', levels);
      SettlesThrough(s, mid, s');
    }
  }

  lemma NotHad(b: Flood, m: Flood, k: string, id: TIEID, seqNr: int, levels: set<Level>)
    requires Moved(b, m) && Accepts(b, k, id) && !Has(b, id, seqNr) && Good(m, levels)
    ensures Filed(m.entries) && (id in m.entries ==> SeqNr(m, id) < seqNr)
  {
    hide ForeignAcceptable, LevelsWithin, OwnAlive;
  }

  lemma RequestArrives(k: string, out: seq<Sent>, rs: seq<Receipt>, id: TIEID, seqNr: int)
    requires DeliversExactly(k, out, rs) && forall m :: m in out ==> Behind(id, seqNr, m.packet)
    requires exists m :: m in out && m.packet.TIREMsg? && Request(id) in m.packet.headers
    ensures (forall r :: r in rs ==> Behind(id, seqNr, r.packet)) && exists r :: r in rs && Asks(r, k, id)
  {
    hide Behind;
    forall r | r in rs ensures Behind(id, seqNr, r.packet) { assert r in Elements(rs); }
    var m :| m in out && m.packet.TIREMsg? && Request(id) in m.packet.headers;
    assert Receipt(k, m.packet) in Elements(rs);
    assert Asks(Receipt(k, m.packet), k, id);
  }

  lemma AnswerArrives(k: string, out: seq<Sent>, rs: seq<Receipt>, tie: TIEPacket)
    requires DeliversAll(k, out, rs) && exists m :: m in out && m.packet == TIEMsg(tie)
    ensures Receipt(k, TIEMsg(tie)) in rs
  {
    var m :| m in out && m.packet == TIEMsg(tie);
    assert Receipt(k, m.packet) in rs;
  }
}
