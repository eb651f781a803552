/** Which TIEs cross an adjacency, are listed in a TIDE, or are accepted. */
module Scope {
  import opened RiftTypes

  predicate ShouldFloodTIE(id: TIEID, local: SystemID, localLevel: Level, neighborLevel: Level) {
    var own := id.originator == local;
    var node := id.tieType == NODE_TIE;
    if id.direction == NORTH then neighborLevel > localLevel
    else if id.direction == SOUTH then
      if neighborLevel != localLevel then node || own
      else localLevel < TOP_OF_FABRIC_LEVEL && (node || own)
    else false
  }

  predicate ShouldIncludeInTIDE(id: TIEID, local: SystemID, localLevel: Level, neighborLevel: Level) {
    var own := id.originator == local;
    var node := id.tieType == NODE_TIE;
    if neighborLevel < localLevel && id.direction == NORTH then !own
    else if neighborLevel < localLevel && id.direction == SOUTH then own || node
    else if neighborLevel > localLevel && id.direction == NORTH then true
    else if neighborLevel > localLevel && id.direction == SOUTH then node || own
    else if localLevel >= TOP_OF_FABRIC_LEVEL then id.direction == NORTH
    else own
  }

  /** shouldAcceptTIE at a node of the given identity and level. */
  predicate ShouldAcceptTIE(id: TIEID, local: SystemID, localLevel: Level, neighborLevel: Level) {
    if id.originator == local then true
    else if id.direction == NORTH then neighborLevel < localLevel
    else if id.direction == SOUTH then id.tieType == NODE_TIE || neighborLevel > localLevel
    else false
  }

  /**
   * The rules as sentences. North TIEs (2) are flooded up. South TIEs (1) are flooded up and down, and sideways below
   * the top (24), if they are Node TIEs (2) or the node's own. No other is flooded.
   */
  lemma FloodRule(id: TIEID, local: SystemID, localLevel: Level, neighborLevel: Level)
    ensures ShouldFloodTIE(id, local, localLevel, neighborLevel) <==>
              || (id.direction == 2 && localLevel < neighborLevel)
              || (id.direction == 1 && (id.tieType == 2 || id.originator == local)
                  && (neighborLevel != localLevel || localLevel < 24))
  {
  }

  /**
   * A TIDE to a lower neighbour lists the North TIEs of others, and South TIEs that are own or Node TIEs; one to a
   * higher neighbour all North TIEs, and the same South TIEs. Sideways, and in other directions, it lists the node's
   * own TIEs below the top and North TIEs at the top.
   */
  lemma ListingRule(id: TIEID, local: SystemID, localLevel: Level, neighborLevel: Level)
    ensures ShouldIncludeInTIDE(id, local, localLevel, neighborLevel) <==>
              if neighborLevel != localLevel && id.direction == 2 then
                neighborLevel > localLevel || id.originator != local
              else if neighborLevel != localLevel && id.direction == 1 then id.tieType == 2 || id.originator == local
              else if localLevel < 24 then id.originator == local
              else id.direction == 2
  {
  }

  /** Own and South Node TIEs are accepted from anyone, North TIEs from below and other South TIEs from above. */
  lemma AcceptRule(id: TIEID, local: SystemID, localLevel: Level, neighborLevel: Level)
    ensures ShouldAcceptTIE(id, local, localLevel, neighborLevel) <==>
              || id.originator == local
              || (id.direction == 2 && neighborLevel < localLevel)
              || (id.direction == 1 && (id.tieType == 2 || neighborLevel > localLevel))
  {
  }

  /** What one node floods to a node at another level is accepted there, unless it is a South TIE going up. */
  lemma FloodedIsAccepted(id: TIEID, from: SystemID, to: SystemID, fromLevel: Level, toLevel: Level)
    requires ShouldFloodTIE(id, from, fromLevel, toLevel) && fromLevel != toLevel && id.originator != to
    ensures ShouldAcceptTIE(id, to, toLevel, fromLevel) <==>
              !(id.direction == 1 && id.tieType != 2 && fromLevel < toLevel)
  {
  }
}
