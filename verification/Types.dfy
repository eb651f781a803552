/** Values shared by the route computation, the flood engine and the LIE machine. */
module RiftTypes {

  datatype Option<+T> = None | Some(value: T)

  ghost function Pick<T>(s: set<T>): (x: T)
    requires s != {}
    ensures x in s
  {
    var y :| y in s; y
  }

  ghost function Elements<T>(s: seq<T>): set<T> { set x | x in s }

  type SystemID = int   // Go int64
  type Level = int      // Go int8
  type Metric = int     // Go int32
  type Addr = int       // netip.Addr, compared for equality only

  const MAX32: int := 0x7FFF_FFFF
  const MIN32: int := -0x8000_0000

  const SOUTH := 1
  const NORTH := 2
  const DIRECTION_MAX := 3

  const NODE_TIE := 2
  const PREFIX_TIE := 3
  const POS_DISAGG_TIE := 4
  const TIE_TYPE_MAX := 10

  const LEAF_LEVEL: Level := 0
  const TOP_OF_FABRIC_LEVEL: Level := 24
  const DEFAULT_DISTANCE: Metric := 1
  const DEFAULT_LIFETIME := 604800
  const LIFETIME_DIFF_TO_IGNORE := 400

  const ROUTE_NORTH_PREFIX := 6
  const ROUTE_SOUTH_PREFIX := 8

  /** The value a Go int32 holds after arithmetic that gave x. */
  function Wrap32(x: int): (r: int)
    ensures MIN32 <= r <= MAX32
    ensures MIN32 <= x <= MAX32 ==> r == x
  {
    (x - MIN32) % 0x1_0000_0000 + MIN32
  }

  /** It differs by a multiple of 2^32. */
  lemma WrapsAround(x: int)
    ensures (x - Wrap32(x)) % 0x1_0000_0000 == 0
  {
  }

  datatype TIEID = TIEID(direction: int, originator: SystemID, tieType: int, tieNr: int)

  datatype NodeNeighbor = NodeNeighbor(level: Level, cost: Option<Metric>, localLink: int, remoteLink: int)

  datatype NodeElement = NodeElement(level: Level, neighbors: map<SystemID, NodeNeighbor>, overload: Option<bool>)

  // Only IPv4 prefixes take part in route computation.
  datatype IPPrefix = IPv4(address: int, len: int) | NotIPv4

  datatype PrefixEntry = PrefixEntry(prefix: IPPrefix, metric: Metric, loopback: bool)

  // The Go union is a struct of pointers of which several may be set after decoding.
  datatype Element = Element(
    node: Option<NodeElement>,
    prefixes: Option<seq<PrefixEntry>>,
    posDisagg: Option<seq<PrefixEntry>>)

  datatype TIEHeader = TIEHeader(id: TIEID, seqNr: int, originationLifetime: Option<int>)
  datatype HeaderWithLifetime = HeaderWithLifetime(header: TIEHeader, lifetime: int)
  datatype TIEPacket = TIEPacket(header: TIEHeader, element: Element)

  datatype Entry = Entry(packet: TIEPacket, lifetime: int, selfOriginated: bool)
  {
    function Header(): HeaderWithLifetime { HeaderWithLifetime(packet.header, lifetime) }
  }

  datatype AdjacencyInfo = AdjacencyInfo(
    ifName: string,
    neighborID: SystemID,
    neighborLevel: Level,
    neighborAddr: Addr,
    localLink: int,
    neighborLink: int)

  /** The identity every Node TIE of an originator is filed under. */
  function NodeTIEID(dir: int, originator: SystemID): TIEID {
    TIEID(dir, originator, NODE_TIE, 1)
  }

  function FindNodeTIE(entries: map<TIEID, Entry>, dir: int, originator: SystemID): Option<NodeElement> {
    var id := NodeTIEID(dir, originator);
    if id in entries then entries[id].packet.element.node else None
  }

  function LinkCost(n: NodeNeighbor): Metric {
    if n.cost.Some? then n.cost.value else DEFAULT_DISTANCE
  }

  predicate Overloaded(n: NodeElement) {
    n.overload == Some(true)
  }

  // The prefix list of an entry, by the kind of TIE it is looked up under.
  function PrefixList(tieType: int, e: Element): Option<seq<PrefixEntry>> {
    if tieType == PREFIX_TIE then e.prefixes else e.posDisagg
  }

  predicate IsPrefixTIEOf(id: TIEID, dir: int, originator: SystemID, tieType: int) {
    id.direction == dir && id.originator == originator && id.tieType == tieType
  }

  /** The prefix lists stored for a direction, an originator and a TIE type. */
  ghost function PrefixLists(entries: map<TIEID, Entry>, dir: int, originator: SystemID,
    tieType: int): set<seq<PrefixEntry>> {
    set id | id in entries && IsPrefixTIEOf(id, dir, originator, tieType)
             && PrefixList(tieType, entries[id].packet.element).Some? ::
             PrefixList(tieType, entries[id].packet.element).value
  }

  /** Spelled out: under type 3 the list of prefixes, under type 4 that of prefixes to disaggregate. */
  lemma PrefixListsExactly(entries: map<TIEID, Entry>, dir: int, originator: SystemID, tieType: int,
                           pt: seq<PrefixEntry>)
    requires tieType == 3 || tieType == 4
    ensures pt in PrefixLists(entries, dir, originator, tieType) <==>
              exists id :: && id in entries && id.direction == dir && id.originator == originator
                           && id.tieType == tieType
                           && Some(pt) == if tieType == 3 then entries[id].packet.element.prefixes
                                          else entries[id].packet.element.posDisagg
  {
  }

  /** A Node TIE is looked up under type 2 and number 1; a link without a cost counts 1; only a set flag overloads. */
  lemma NodeLookup(entries: map<TIEID, Entry>, dir: int, originator: SystemID, n: NodeElement, l: NodeNeighbor)
    ensures FindNodeTIE(entries, dir, originator) == Some(n) <==>
              var id := TIEID(dir, originator, 2, 1); id in entries && entries[id].packet.element.node == Some(n)
    ensures LinkCost(l) == match l.cost case Some(c) => c case None => 1
    ensures Overloaded(n) <==> n.overload.Some? && n.overload.value
  {
  }

  /** FindPrefixTIEs and FindPositiveDisaggPrefixTIEs: a scan in map order. */
  method FindPrefixTIEs(entries: map<TIEID, Entry>, dir: int, originator: SystemID, tieType: int)
    returns (result: seq<seq<PrefixEntry>>)
    ensures Elements(result) == PrefixLists(entries, dir, originator, tieType)
  {
    result := [];
    var todo := entries.Keys;
    while todo != {}
      invariant todo <= entries.Keys
      invariant forall pt :: pt in result <==>
        exists id :: id in entries.Keys - todo && IsPrefixTIEOf(id, dir, originator, tieType)
                     && PrefixList(tieType, entries[id].packet.element) == Some(pt)
    {
      var id :| id in todo;
      todo := todo - {id};
      var list := PrefixList(tieType, entries[id].packet.element);
      if IsPrefixTIEOf(id, dir, originator, tieType) && list.Some? {
        result := result + [list.value];
      }
      assert entries.Keys - todo == (entries.Keys - (todo + {id})) + {id};
    }
  }
}
