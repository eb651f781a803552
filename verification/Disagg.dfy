/** Which south routes a spine must advertise because a same-level peer cannot reach them. */
module Disagg {
  import opened RiftTypes
  import opened Prefixes
  import opened Routes

  datatype DisaggPrefix = DisaggPrefix(prefix: IPPrefix, distance: Metric)

  function SouthNeighbors(level: Level, adjacencies: map<string, AdjacencyInfo>): set<SystemID> {
    set k | k in adjacencies && adjacencies[k].neighborLevel < level :: adjacencies[k].neighborID
  }

  /** A reflected South Node TIE of another node at our level. */
  predicate PeerTIE(systemID: SystemID, level: Level, id: TIEID, e: Entry) {
    && id.direction == SOUTH && id.tieType == NODE_TIE && id.originator != systemID
    && e.packet.element.node.Some? && e.packet.element.node.value.level == level
  }

  function PeerSouth(level: Level, node: NodeElement): set<SystemID> {
    set n | n in node.neighbors && node.neighbors[n].level < level
  }

  /**
   * The south neighbour sets collected by originator. Should the database hold several South Node TIEs
   * of one originator, the one visited last stays, which map order leaves open.
   */
  ghost predicate PeerTable(systemID: SystemID, level: Level, entries: map<TIEID, Entry>,
                            peers: map<SystemID, set<SystemID>>) {
    && (forall id :: id in entries && PeerTIE(systemID, level, id, entries[id]) ==> id.originator in peers)
    && (forall p :: p in peers ==>
      exists id :: id in entries && PeerTIE(systemID, level, id, entries[id]) && id.originator == p
                                                && peers[p] == PeerSouth(level, entries[id].packet.element.node.value))
  }

  /** The neighbours below us. */
  lemma SouthExactly(level: Level, adjacencies: map<string, AdjacencyInfo>, n: SystemID)
    ensures n in SouthNeighbors(level, adjacencies) <==>
              exists k :: k in adjacencies && adjacencies[k].neighborID == n && adjacencies[k].neighborLevel < level
  {
  }

  /** The peers are the other originators of South Node TIEs (1, 2) at our level, each with its neighbours below it. */
  lemma PeersExactly(systemID: SystemID, level: Level, entries: map<TIEID, Entry>,
                     peers: map<SystemID, set<SystemID>>, q: SystemID)
    requires PeerTable(systemID, level, entries, peers)
    ensures q in peers <==>
              && q != systemID
              && exists id :: && id in entries && id.direction == 1 && id.tieType == 2 && id.originator == q
                              && entries[id].packet.element.node.Some?
                              && entries[id].packet.element.node.value.level == level
    ensures q in peers ==>
              exists id :: && id in entries && id.direction == 1 && id.tieType == 2 && id.originator == q
                           && entries[id].packet.element.node.Some?
                           && var node := entries[id].packet.element.node.value;
                           && node.level == level
                           && forall n :: n in peers[q] <==> n in node.neighbors && node.neighbors[n].level < level
  {
    if q in peers {
      var id :| id in entries && PeerTIE(systemID, level, id, entries[id]) && id.originator == q
                && peers[q] == PeerSouth(level, entries[id].packet.element.node.value);
    }
    if id :| && q != systemID
             && id in entries && id.direction == 1 && id.tieType == 2 && id.originator == q
             && entries[id].packet.element.node.Some? && entries[id].packet.element.node.value.level == level {
      assert PeerTIE(systemID, level, id, entries[id]);
    }
  }

  /** n is our south neighbour, and a peer that shares one with us does not have n. */
  ghost predicate PartialNeighbor(south: set<SystemID>, peers: map<SystemID, set<SystemID>>, n: SystemID) {
    n in south && exists p :: p in peers && peers[p] * south != {} && n !in peers[p]
  }

  ghost predicate NeedsDisagg(south: set<SystemID>, peers: map<SystemID, set<SystemID>>, r: RouteVal) {
    exists n :: n in Ids(r.nextHops) && PartialNeighbor(south, peers, n)
  }

  ghost function Disaggregated(south: set<SystemID>, peers: map<SystemID, set<SystemID>>,
    table: Table): set<DisaggPrefix> {
    set p | p in table && NeedsDisagg(south, peers, table[p]) && StringToPrefix(p) != NotIPv4 ::
      DisaggPrefix(StringToPrefix(p), table[p].metric)
  }

  /**
   * d is a route of the table whose key parses, with a next hop h among our south neighbours that is not among those of
   * some peer q, although q has a south neighbour m in common with us.
   */
  ghost predicate Missed(south: set<SystemID>, peers: map<SystemID, set<SystemID>>, table: Table, d: DisaggPrefix) {
    exists p, nh: NextHop, q, m ::
      && p in table && StringToPrefix(p) != NotIPv4 && d == DisaggPrefix(StringToPrefix(p), table[p].metric)
      && nh in table[p].nextHops && nh.id in south && q in peers && nh.id !in peers[q] && m in peers[q] && m in south
  }

  lemma MissedExactly(south: set<SystemID>, peers: map<SystemID, set<SystemID>>, table: Table, d: DisaggPrefix)
    ensures d in Disaggregated(south, peers, table) <==> Missed(south, peers, table, d)
  {
    hide StringToPrefix, NeedsDisagg;
    if d in Disaggregated(south, peers, table) {
      var p :| p in table && NeedsDisagg(south, peers, table[p]) && StringToPrefix(p) != NotIPv4
        && d == DisaggPrefix(StringToPrefix(p), table[p].metric);
      var nh, q, m := NeedsSource(south, peers, table[p]);
    }
    if Missed(south, peers, table, d) {
      var p, nh: NextHop, q, m :|
        && p in table && StringToPrefix(p) != NotIPv4 && d == DisaggPrefix(StringToPrefix(p), table[p].metric)
        && nh in table[p].nextHops && nh.id in south && q in peers && nh.id !in peers[q] && m in peers[q] && m in south;
      NeedsIntro(south, peers, table[p], nh, q, m);
    }
  }

  lemma NeedsSource(south: set<SystemID>, peers: map<SystemID, set<SystemID>>, r: RouteVal)
    returns (nh: NextHop, q: SystemID, m: SystemID)
    requires NeedsDisagg(south, peers, r)
    ensures nh in r.nextHops && nh.id in south && q in peers && nh.id !in peers[q] && m in peers[q] && m in south
  {
    var h :| h in Ids(r.nextHops) && PartialNeighbor(south, peers, h);
    nh :| nh in r.nextHops && nh.id == h;
    q :| q in peers && peers[q] * south != {} && h !in peers[q];
    m := Pick(peers[q] * south);
  }

  lemma NeedsIntro(south: set<SystemID>, peers: map<SystemID, set<SystemID>>, r: RouteVal, nh: NextHop, q: SystemID,
                   m: SystemID)
    requires nh in r.nextHops && nh.id in south && q in peers && nh.id !in peers[q] && m in peers[q] && m in south
    ensures NeedsDisagg(south, peers, r)
  {
    assert m in peers[q] * south;
    assert nh.id in Ids(r.nextHops) && PartialNeighbor(south, peers, nh.id);
  }

  method CollectPeers(systemID: SystemID, level: Level, entries: map<TIEID, Entry>)
    returns (peers: map<SystemID, set<SystemID>>)
    ensures PeerTable(systemID, level, entries, peers)
  {
    peers := map[];
    var todo := entries.Keys;
    while todo != {}
      invariant todo <= entries.Keys
      invariant forall id :: id in entries && id !in todo && PeerTIE(systemID, level, id, entries[id]) ==>
                  id.originator in peers
      invariant forall p :: p in peers ==>
                  exists id :: id in entries && PeerTIE(systemID, level, id, entries[id]) && id.originator == p
                                                        && peers[p] == PeerSouth(level,
                                                          entries[id].packet.element.node.value)
    {
      var id :| id in todo;
      todo := todo - {id};
      if PeerTIE(systemID, level, id, entries[id]) {
        peers := peers[id.originator := PeerSouth(level, entries[id].packet.element.node.value)];
      }
    }
  }

  /** The keys are the partial neighbours, each with the peers that miss it. */
  method FindPartialNeighbors(south: set<SystemID>, peers: map<SystemID, set<SystemID>>)
    returns (partial: map<SystemID, set<SystemID>>)
    ensures forall n :: n in partial <==> PartialNeighbor(south, peers, n)
    ensures forall n :: n in partial ==> partial[n] == set p | p in peers && peers[p] * south != {} && n !in peers[p]
  {
    partial := map[];
    var todo := peers.Keys;
    while todo != {}
      invariant todo <= peers.Keys
      invariant PartialMap(south, peers, peers.Keys - todo, partial)
    {
      ghost var some, done := Pick(todo), peers.Keys - todo;
      var p :| p in todo;
      todo := todo - {p};
      assert peers.Keys - todo == done + {p};
      OneMorePeer(south, peers, done, p);
      if peers[p] * south != {} {
        partial := map n | n in partial.Keys + (south - peers[p]) ::
          (if n in partial then partial[n] else {}) + (if n in south && n !in peers[p] then {p} else {});
      }
    }
    assert peers.Keys - todo == peers.Keys;
    forall n ensures n in partial <==> PartialNeighbor(south, peers, n) {
      if n in partial {
        ghost var p := Pick(partial[n]);
      }
      if PartialNeighbor(south, peers, n) {
        var p :| p in peers && peers[p] * south != {} && n !in peers[p];
        assert p in Missing(south, peers, peers.Keys, n);
      }
    }
  }

  ghost predicate PartialMap(south: set<SystemID>, peers: map<SystemID, set<SystemID>>, among: set<SystemID>,
                             partial: map<SystemID, set<SystemID>>) {
    && (forall n :: n in partial ==> n in south && partial[n] != {} && partial[n] == Missing(south, peers, among, n))
    && (forall n :: n in south && n !in partial ==> Missing(south, peers, among, n) == {})
  }

  lemma OneMorePeer(south: set<SystemID>, peers: map<SystemID, set<SystemID>>, done: set<SystemID>, p: SystemID)
    requires p in peers
    ensures forall n :: Missing(south, peers, done + {p}, n) ==
                        Missing(south, peers, done, n) + if peers[p] * south != {} && n !in peers[p] then {p} else {}
  {
  }

  ghost function Missing(south: set<SystemID>, peers: map<SystemID, set<SystemID>>, among: set<SystemID>,
    n: SystemID): set<SystemID> {
    set p | p in among && p in peers && peers[p] * south != {} && n !in peers[p]
  }

  method ComputeDisaggregation(systemID: SystemID, level: Level, adjacencies: map<string, AdjacencyInfo>,
                               entries: map<TIEID, Entry>,
                               southRIB: Rib)
    returns (result: seq<DisaggPrefix>)
    requires southRIB.Valid()
    ensures exists peers ::
              && PeerTable(systemID, level, entries, peers)
              && Elements(result) == Disaggregated(SouthNeighbors(level, adjacencies), peers, southRIB.View())
              && forall d :: d in result <==> Missed(SouthNeighbors(level, adjacencies), peers, southRIB.View(), d)
  {
    hide StringToPrefix, PeerTable, Missed;
    var south := SouthNeighbors(level, adjacencies);
    var found := CollectPeers(systemID, level, entries);
    ghost var peers := found;
    forall d ensures d in Disaggregated(south, peers, southRIB.View()) <==> Missed(south, peers, southRIB.View(), d) {
      MissedExactly(south, peers, southRIB.View(), d);
    }
    result := [];
    if south == {} || found == map[] {
      assert Disaggregated(south, peers, southRIB.View()) == {};
      return;
    }
    var partial := FindPartialNeighbors(south, found);
    var todo := southRIB.routes.Keys;
    while todo != {}
      invariant todo <= southRIB.routes.Keys
      invariant forall d :: d in result <==>
                  d in DisaggAmong(south, peers, southRIB.View(), southRIB.routes.Keys - todo)
    {
      var p :| p in todo;
      ghost var done := southRIB.routes.Keys - todo;
      todo := todo - {p};
      assert southRIB.routes.Keys - todo == done + {p};
      var route := southRIB.routes[p];
      assert southRIB.View()[p] == route.val;
      OneMoreRoute(south, peers, southRIB.View(), done, p);
      if exists nh :: nh in route.val.nextHops && nh.id in partial {
        var ipPrefix := StringToPrefix(route.prefix);
        if ipPrefix != NotIPv4 {
          result := result + [DisaggPrefix(ipPrefix, route.val.metric)];
        }
      }
    }
    assert southRIB.routes.Keys - todo == southRIB.View().Keys;
  }

  ghost function DisaggAmong(south: set<SystemID>, peers: map<SystemID, set<SystemID>>, table: Table,
                             keys: set<string>): set<DisaggPrefix> {
    set p | p in keys && p in table && NeedsDisagg(south, peers, table[p]) && StringToPrefix(p) != NotIPv4 ::
      DisaggPrefix(StringToPrefix(p), table[p].metric)
  }

  lemma OneMoreRoute(south: set<SystemID>, peers: map<SystemID, set<SystemID>>, table: Table, done: set<string>,
                     p: string)
    requires p in table
    ensures DisaggAmong(south, peers, table, done + {p}) == DisaggAmong(south, peers, table, done) +
            if NeedsDisagg(south, peers, table[p]) && StringToPrefix(p) != NotIPv4
            then {DisaggPrefix(StringToPrefix(p), table[p].metric)} else {}
  {
    hide StringToPrefix, NeedsDisagg;
  }
}
