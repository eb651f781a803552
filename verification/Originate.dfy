/** The content of the TIEs a node originates. */
module Originate {
  import opened RiftTypes

  datatype LocalPrefix = LocalPrefix(prefix: IPPrefix, loopback: bool, metric: Metric)

  function NeighborOf(a: AdjacencyInfo): NodeNeighbor {
    NodeNeighbor(a.neighborLevel, Some(1), a.localLink, a.neighborLink)
  }

  /** A Node TIE lists exactly the neighbours of the kept adjacencies; of parallel ones either may supply the entry. */
  ghost predicate NeighborsOf(adjs: map<string, AdjacencyInfo>, kept: set<string>,
                              neighbors: map<SystemID, NodeNeighbor>) {
    && (forall k :: k in kept && k in adjs ==> adjs[k].neighborID in neighbors)
    && (forall n :: n in neighbors ==>
      exists k :: k in kept && k in adjs && adjs[k].neighborID == n && neighbors[n] == NeighborOf(adjs[k]))
  }

  function Northward(level: Level, adjs: map<string, AdjacencyInfo>): set<string> {
    set k | k in adjs && adjs[k].neighborLevel >= level
  }

  function Southward(level: Level, adjs: map<string, AdjacencyInfo>): set<string> {
    set k | k in adjs && adjs[k].neighborLevel < level
  }

  ghost predicate NorthNodeContent(level: Level, adjs: map<string, AdjacencyInfo>, el: Element) {
    exists nbrs :: && NeighborsOf(adjs, Northward(level, adjs), nbrs)
                   && el == NodeTIE(level, nbrs, if level == LEAF_LEVEL then Some(true) else None)
  }

  ghost predicate SouthNodeContent(level: Level, adjs: map<string, AdjacencyInfo>, el: Element) {
    exists nbrs :: NeighborsOf(adjs, Southward(level, adjs), nbrs) && el == NodeTIE(level, nbrs, None)
  }

  function NodeTIE(level: Level, nbrs: map<SystemID, NodeNeighbor>, overload: Option<bool>): Element {
    Element(Some(NodeElement(level, nbrs, overload)), None, None)
  }

  function EntryOf(lp: LocalPrefix): PrefixEntry { PrefixEntry(lp.prefix, lp.metric, lp.loopback) }

  function NorthPrefixContent(local: seq<LocalPrefix>): Element {
    Element(None, Some(seq(|local|, i requires 0 <= i < |local| => EntryOf(local[i]))), None)
  }

  function SouthPrefixContent(): Element {
    Element(None, Some([PrefixEntry(IPv4(0, 0), 1, false)]), None)
  }

  function DisaggContent(prefixes: seq<PrefixEntry>): Element {
    Element(None, None, Some(prefixes))
  }

  function OwnID(dir: int, self: SystemID, tieType: int): TIEID { TIEID(dir, self, tieType, 1) }

  /** The loop that collects the neighbour map of a Node TIE. */
  method CollectNeighbors(adjs: map<string, AdjacencyInfo>, kept: set<string>)
    returns (neighbors: map<SystemID, NodeNeighbor>)
    requires kept <= adjs.Keys
    ensures NeighborsOf(adjs, kept, neighbors)
  {
    neighbors := map[];
    var todo := kept;
    while todo != {}
      invariant todo <= kept
      invariant NeighborsOf(adjs, kept - todo, neighbors)
    {
      var k :| k in todo;
      todo := todo - {k};
      neighbors := neighbors[adjs[k].neighborID := NeighborOf(adjs[k])];
    }
    assert kept - todo == kept;
  }

  method BuildNorthPrefixes(local: seq<LocalPrefix>) returns (el: Element)
    ensures el == NorthPrefixContent(local)
  {
    var prefixes: seq<PrefixEntry> := [];
    for i := 0 to |local|
      invariant |prefixes| == i && forall j :: 0 <= j < i ==> prefixes[j] == EntryOf(local[j])
    {
      prefixes := prefixes + [EntryOf(local[i])];
    }
    assert prefixes == NorthPrefixContent(local).prefixes.value;
    el := Element(None, Some(prefixes), None);
  }
}
