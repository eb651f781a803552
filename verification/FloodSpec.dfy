/** The flood engine as a state machine: one relation per step, on plain values. */
module FloodSpec {
  import opened RiftTypes
  import opened Lsdb
  import opened Scope
  import opened Originate
  import opened TideChunks

  datatype AdjState = AdjState(info: AdjacencyInfo, tx: set<TIEID>, ack: set<TIEID>, req: set<TIEID>)

  // systemID and level never change; the rest is what the steps work on.
  datatype Flood = Flood(self: SystemID, level: Level, entries: Entries, adjs: map<string, AdjState>,
    local: seq<LocalPrefix>)
  {
    function Infos(): map<string, AdjacencyInfo> { map k | k in adjs :: adjs[k].info }
  }

  // OtherMsg holds none of the three, such as a LIE that arrives on the flooding port.
  datatype Packet = TIEMsg(tie: TIEPacket) | TIDEMsg(tide: Tide) | TIREMsg(headers: seq<HeaderWithLifetime>) | OtherMsg
  datatype Sent = Sent(ifName: string, packet: Packet, lifetime: int)

  datatype Step =
    | AdjChange(ifName: string, info: Option<AdjacencyInfo>)
    | DisaggUpdate(prefixes: seq<PrefixEntry>)
    | SetLocalPrefixes(local: seq<LocalPrefix>)
    | Receive(rxIf: string, packet: Packet)
    | Tick
    | Drain
    | SendTIDEs

  const REORIGINATE_BEFORE_EXPIRY := 3600

  // ---- Queues ----

  predicate Scoped(s: Flood, k: string, id: TIEID) {
    k in s.adjs && ShouldFloodTIE(id, s.self, s.level, s.adjs[k].info.neighborLevel)
  }

  function FloodAll(s: Flood, ids: set<TIEID>): Flood {
    s.(adjs := map k | k in s.adjs :: s.adjs[k].(tx := s.adjs[k].tx + set id | id in ids && Scoped(s, k, id)))
  }

  function FloodExcept(s: Flood, id: TIEID, ifName: string): Flood {
    s.(adjs := map k | k in s.adjs ::
      if s.adjs[k].info.ifName != ifName && Scoped(s, k, id) then s.adjs[k].(tx := s.adjs[k].tx + {id}) else s.adjs[k])
  }

  function Enqueue(s: Flood, k: string, tx: set<TIEID>, ack: set<TIEID>, req: set<TIEID>): Flood
    requires k in s.adjs
  {
    s.(adjs := s.adjs[k := s.adjs[k].(tx := s.adjs[k].tx + tx, ack := s.adjs[k].ack + ack, req := s.adjs[k].req + req)])
  }

  function Unqueue(s: Flood, k: string, id: TIEID): Flood
    requires k in s.adjs
  {
    s.(adjs := s.adjs[k := s.adjs[k].(tx := s.adjs[k].tx - {id})])
  }

  // ---- Self-origination ----

  function OwnEntry(id: TIEID, seqNr: int, el: Element): Entry {
    Entry(TIEPacket(TIEHeader(id, seqNr, Some(DEFAULT_LIFETIME)), el), DEFAULT_LIFETIME, true)
  }

  function NextSeq(entries: Entries, id: TIEID): int {
    if id in entries && entries[id].selfOriginated then entries[id].packet.header.seqNr + 1 else 1
  }

  function InsertSelf(s: Flood, id: TIEID, el: Element): Flood {
    s.(entries := s.entries[id := OwnEntry(id, NextSeq(s.entries, id), el)])
  }

  function Bumped(e: Entry): Entry {
    e.(packet := e.packet.(header := e.packet.header.(seqNr := e.packet.header.seqNr + 1,
      originationLifetime := Some(DEFAULT_LIFETIME))),
       lifetime := DEFAULT_LIFETIME)
  }

  function Bump(s: Flood, id: TIEID): Flood {
    if id in s.entries && s.entries[id].selfOriginated
    then s.(entries := s.entries[s.entries[id].packet.header.id := Bumped(s.entries[id])]) else s
  }

  function OwnIDs(s: Flood): set<TIEID> {
    {OwnID(NORTH, s.self, NODE_TIE), OwnID(NORTH, s.self, PREFIX_TIE)} +
    if s.level > LEAF_LEVEL then {OwnID(SOUTH, s.self, NODE_TIE), OwnID(SOUTH, s.self, PREFIX_TIE)} else {}
  }

  /** originateSelfTIEs with the given Node TIE contents. */
  function OriginateWith(s: Flood, north: Element, south: Element): Flood {
    var s1 := InsertSelf(InsertSelf(s, OwnID(NORTH, s.self, NODE_TIE), north), OwnID(NORTH, s.self, PREFIX_TIE),
                         NorthPrefixContent(s.local));
    if s.level > LEAF_LEVEL
    then InsertSelf(InsertSelf(s1, OwnID(SOUTH, s.self, NODE_TIE), south), OwnID(SOUTH, s.self, PREFIX_TIE),
      SouthPrefixContent())
    else s1
  }

  ghost predicate Originates(s: Flood, s': Flood) {
    exists north, south :: NorthNodeContent(s.level, s.Infos(), north) && SouthNodeContent(s.level, s.Infos(), south)
                           && s' == OriginateWith(s, north, south)
  }

  // ---- Steps ----

  function WithAdjacency(s: Flood, ifName: string, info: Option<AdjacencyInfo>): Flood {
    s.(adjs := if info.Some? then s.adjs[ifName := AdjState(info.value, {}, {}, {})] else s.adjs - {ifName})
  }

  ghost predicate AdjChanged(s: Flood, ifName: string, info: Option<AdjacencyInfo>, s': Flood) {
    exists mid :: Originates(WithAdjacency(s, ifName, info), mid) && s' == FloodAll(mid, OwnIDs(s))
  }

  function DisaggUpdated(s: Flood, prefixes: seq<PrefixEntry>): Flood {
    var id := OwnID(SOUTH, s.self, POS_DISAGG_TIE);
    if prefixes != [] then FloodAll(InsertSelf(s, id, DisaggContent(prefixes)), {id})
    else if id !in s.entries || !s.entries[id].selfOriginated
      || s.entries[id].packet.element.posDisagg == Some([]) then s
    else FloodAll(InsertSelf(s, id, DisaggContent([])), {id})
  }

  function RxHeader(tie: TIEPacket): HeaderWithLifetime {
    HeaderWithLifetime(tie.header, if tie.header.originationLifetime.Some? then tie.header.originationLifetime.value
      else DEFAULT_LIFETIME)
  }

  function Installed(s: Flood, k: string, tie: TIEPacket): Flood
    requires k in s.adjs
  {
    var id := tie.header.id;
    FloodExcept(Enqueue(s.(entries := s.entries[id := Entry(tie, RxHeader(tie).lifetime, false)]), k, {}, {id}, {}),
                id, k)
  }

  function TIEHandled(s: Flood, k: string, tie: TIEPacket): Flood {
    var id := tie.header.id;
    if k !in s.adjs then s
    else if id !in s.entries then
      if id.originator == s.self then FloodAll(Bump(s, id), {id})
      else if !ShouldAcceptTIE(id, s.self, s.level, s.adjs[k].info.neighborLevel) then s
      else Installed(s, k, tie)
    else
      var cmp := CompareTIEHeader(RxHeader(tie), s.entries[id].Header());
      if cmp > 0 then
        if id.originator == s.self then FloodAll(Bump(s, id), {id}) else Installed(s, k, tie)
      else if cmp < 0 then Enqueue(s, k, {id}, {}, {})
      else Enqueue(s, k, {}, {id}, {})
  }

  /** The treatment of one TIDE header. */
  ghost predicate HeaderHandled(s: Flood, k: string, h: HeaderWithLifetime, s': Flood)
    requires k in s.adjs
  {
    var id := h.header.id;
    if id !in s.entries then
      if id.originator == s.self then exists mid :: Originates(s, mid) && s' == FloodAll(mid, {id})
      else if ShouldAcceptTIE(id, s.self, s.level, s.adjs[k].info.neighborLevel) then s' == Enqueue(s, k, {}, {}, {id})
      else s' == s
    else
      var cmp := CompareTIEHeader(h, s.entries[id].Header());
      if cmp > 0 then
        if id.originator == s.self then s' == FloodAll(Bump(s, id), {id})
        else if ShouldAcceptTIE(id, s.self, s.level, s.adjs[k].info.neighborLevel) then
          s' == Enqueue(s, k, {}, {}, {id})
        else s' == s
      else if cmp < 0 then s' == Enqueue(s, k, {id}, {}, {})
      else s' == Unqueue(s, k, id)
  }

  ghost predicate HeadersHandled(s: Flood, k: string, hs: seq<HeaderWithLifetime>, s': Flood) {
    if hs == [] then s' == s
    else exists mid :: && HeadersHandled(s, k, hs[..|hs| - 1], mid) && k in mid.adjs
                       && HeaderHandled(mid, k, hs[|hs| - 1], s')
  }

  function HeaderIDs(hs: seq<HeaderWithLifetime>): set<TIEID> { set h | h in hs :: h.header.id }

  /** Entries of the range that the TIDE does not list and that belong on the adjacency. */
  function Unlisted(s: Flood, k: string, t: Tide): set<TIEID> {
    set id | id in s.entries && InRange(t, id) && id !in HeaderIDs(t.headers) && Scoped(s, k, id)
  }

  ghost predicate TIDEHandled(s: Flood, k: string, t: Tide, s': Flood) {
    if k !in s.adjs then s' == s
    else exists mid :: && HeadersHandled(s, k, t.headers, mid) && k in mid.adjs
                       && s' == Enqueue(mid, k, Unlisted(mid, k, t), {}, {})
  }

  function TIREHeaderHandled(s: Flood, k: string, h: HeaderWithLifetime): Flood
    requires k in s.adjs
  {
    var id := h.header.id;
    if id !in s.entries then s
    else
      var cmp := CompareTIEHeader(h, s.entries[id].Header());
      if h.lifetime == 0 then (if cmp <= 0 then Enqueue(s, k, {id}, {}, {}) else s)
      else if cmp == 0 then Unqueue(s, k, id) else s
  }

  function TIREHandled(s: Flood, k: string, hs: seq<HeaderWithLifetime>): (r: Flood)
    ensures k in s.adjs ==> k in r.adjs
  {
    if k !in s.adjs || hs == [] then s else TIREHeaderHandled(TIREHandled(s, k, hs[..|hs| - 1]), k, hs[|hs| - 1])
  }

  ghost predicate PacketHandled(s: Flood, k: string, p: Packet, s': Flood) {
    match p
    case TIEMsg(tie) => s' == TIEHandled(s, k, tie)
    case TIDEMsg(tide) => TIDEHandled(s, k, tide, s')
    case TIREMsg(hs) => s' == TIREHandled(s, k, hs)
    case OtherMsg => s' == s
  }

  function Refreshed(e: Entry): bool { e.selfOriginated && e.lifetime < REORIGINATE_BEFORE_EXPIRY }

  function AgedEntries(entries: Entries): Entries {
    map id | id in entries && Aged(entries[id], 1).lifetime > 0 :: Aged(entries[id], 1)
  }

  function ExpiringOwn(entries: Entries): set<TIEID> { set id | id in entries && Refreshed(entries[id]) }

  /** One second: age, drop what expired, and renew our own TIEs that come near expiry. */
  function Ticked(s: Flood): Flood {
    var aged := AgedEntries(s.entries);
    FloodAll(s.(entries := map id | id in aged :: if Refreshed(aged[id]) then Bumped(aged[id]) else aged[id]),
      ExpiringOwn(aged))
  }

  // ---- What a drain sends on one adjacency ----

  function AckHeaders(entries: Entries, ack: set<TIEID>): set<HeaderWithLifetime> {
    set id | id in ack && id in entries :: entries[id].Header()
  }

  function Request(id: TIEID): HeaderWithLifetime { HeaderWithLifetime(TIEHeader(id, 0, None), 0) }

  function ReqHeaders(req: set<TIEID>): set<HeaderWithLifetime> { set id | id in req :: Request(id) }

  /** The packets one drain puts on an adjacency: acknowledgments, requests, then the queued TIEs we hold. */
  ghost predicate Drains(entries: Entries, a: AdjState, out: seq<Sent>) {
    exists acks, reqs, ties :: out == acks + reqs + ties
      && TIREWith(a, AckHeaders(entries, a.ack), acks) && TIREWith(a, ReqHeaders(a.req), reqs)
      && TIEsOf(entries, a, ties)
  }

  ghost predicate TIREWith(a: AdjState, headers: set<HeaderWithLifetime>, out: seq<Sent>) {
    if headers == {} then out == []
    else
      && |out| == 1 && out[0].ifName == a.info.ifName && out[0].lifetime == 0
      && out[0].packet.TIREMsg? && Elements(out[0].packet.headers) == headers
  }

  ghost predicate TIEsOf(entries: Entries, a: AdjState, out: seq<Sent>) {
    Elements(out) == set id | id in a.tx
      && id in entries :: Sent(a.info.ifName, TIEMsg(entries[id].packet), entries[id].lifetime)
  }

  function Drained(s: Flood): Flood {
    s.(adjs := map k | k in s.adjs :: AdjState(s.adjs[k].info, {}, {}, {}))
  }

  function Final<T>(s: seq<T>): T
    requires s != []
  {
    s[|s| - 1]
  }

  /** The drains of the adjacencies of `order`, one after another. */
  ghost predicate DrainsInOrder(s: Flood, order: seq<string>, out: seq<Sent>) {
    if order == [] then out == []
    else exists before, part :: && DrainsNext(s, Final(order), before, part, out)
                                && DrainsInOrder(s, order[..|order| - 1], before)
  }

  ghost predicate DrainsNext(s: Flood, k: string, before: seq<Sent>, part: seq<Sent>, out: seq<Sent>) {
    out == before + part && k in s.adjs && Drains(s.entries, s.adjs[k], part)
  }

  // ---- TIDEs ----

  function Included(s: Flood, k: string): set<TIEID>
    requires k in s.adjs
  {
    set id | id in s.entries && ShouldIncludeInTIDE(id, s.self, s.level, s.adjs[k].info.neighborLevel)
  }

  function HeadersOf(entries: Entries, ids: set<TIEID>): set<HeaderWithLifetime> {
    set id | id in ids && id in entries :: entries[id].Header()
  }

  /** The pieces of a sorted list of the headers in TIDE scope. */
  ghost predicate TIDEsFor(s: Flood, k: string, headers: seq<HeaderWithLifetime>, chunks: seq<Tide>)
    requires k in s.adjs
  {
    && SortedHeaders(headers) && Elements(headers) == HeadersOf(s.entries, Included(s, k))
    && Tiling(headers, chunks) && (Listable(headers) ==> forall t :: t in chunks ==> Inside(t))
  }

  function TIDEPackets(ifName: string, chunks: seq<Tide>): seq<Sent> {
    seq(|chunks|, i requires 0 <= i < |chunks| => Sent(ifName, TIDEMsg(chunks[i]), 0))
  }

  ghost predicate SendsTIDEs(s: Flood, k: string, out: seq<Sent>) {
    k in s.adjs && exists headers, chunks :: && TIDEsFor(s, k, headers, chunks)
                                             && out == TIDEPackets(s.adjs[k].info.ifName, chunks)
  }

  ghost predicate TIDEsInOrder(s: Flood, order: seq<string>, out: seq<Sent>) {
    if order == [] then out == []
    else exists before, part :: && TIDEsNext(s, Final(order), before, part, out)
                                && TIDEsInOrder(s, order[..|order| - 1], before)
  }

  ghost predicate TIDEsNext(s: Flood, k: string, before: seq<Sent>, part: seq<Sent>, out: seq<Sent>) {
    out == before + part && SendsTIDEs(s, k, part)
  }

  /** Every adjacency once, in some order. */
  ghost predicate OrderOf(s: Flood, order: seq<string>) {
    Elements(order) == s.adjs.Keys && forall i, j :: 0 <= i < j < |order| ==> order[i] != order[j]
  }

  // ---- The step relation ----

  ghost predicate Next(s: Flood, step: Step, s': Flood) {
    match step
    case AdjChange(ifName, info) => AdjChanged(s, ifName, info, s')
    case DisaggUpdate(prefixes) => s' == DisaggUpdated(s, prefixes)
    case SetLocalPrefixes(local) => s' == s.(local := local)
    case Receive(k, p) => PacketHandled(s, k, p, s')
    case Tick => s' == Ticked(s)
    case Drain => s' == Drained(s)
    case SendTIDEs => s' == s
  }

  /** What a step puts on the wire. */
  ghost predicate Outputs(s: Flood, step: Step, out: seq<Sent>) {
    match step
    case Drain => exists order :: OrderOf(s, order) && DrainsInOrder(s, order, out)
    case SendTIDEs => exists order :: OrderOf(s, order) && TIDEsInOrder(s, order, out)
    case _ => out == []
  }
}
