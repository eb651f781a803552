/** A fabric at work that meets what FloodingReaches asks for: a leaf's TIE, its spine, and the acknowledgment. */
module FloodingRun {
  import opened RiftTypes
  import opened Lsdb
  import opened Scope
  import opened Originate
  import opened TideChunks
  import opened FloodSpec
  import opened FloodInvariants
  import opened Sync
  import opened Interleaved
  import opened Fabric
  import opened Flooding

  const SPINE: SystemID := 1
  const LEAF: SystemID := 2
  const UP := "up"
  const DOWN := "down"
  const TIE := TIEID(NORTH, LEAF, PREFIX_TIE, 1)

  function ThePacket(): TIEPacket { TIEPacket(TIEHeader(TIE, 1, Some(DEFAULT_LIFETIME)), NorthPrefixContent([])) }

  function TheHeader(): HeaderWithLifetime { HeaderWithLifetime(ThePacket().header, DEFAULT_LIFETIME) }

  // The leaf with its TIE queued or sent, and the spine without it, with it, and with the acknowledgment sent.
  function AtLeaf(tx: set<TIEID>): Flood {
    Flood(LEAF, 0, map[TIE := Entry(ThePacket(), DEFAULT_LIFETIME, true)],
          map[UP := AdjState(AdjacencyInfo(UP, SPINE, 1, 0, 0, 0), tx, {}, {})], [])
  }

  function AtSpine(entries: Entries, ack: set<TIEID>): Flood {
    Flood(SPINE, 1, entries, map[DOWN := AdjState(AdjacencyInfo(DOWN, LEAF, 0, 0, 0, 0), {}, ack, {})], [])
  }

  function Held(): Entries { map[TIE := Entry(ThePacket(), DEFAULT_LIFETIME, false)] }

  function LeafRun(): Work {
    Work([AtLeaf({TIE}), AtLeaf({}), AtLeaf({}), AtLeaf({})],
         [Step.Drain, Receive(UP, TIREMsg([TheHeader()])), Step.Drain],
         [[Sent(UP, TIEMsg(ThePacket()), DEFAULT_LIFETIME)], [], []])
  }

  function SpineRun(): Work {
    Work([AtSpine(map[], {}), AtSpine(Held(), {TIE}), AtSpine(Held(), {})],
         [Receive(DOWN, TIEMsg(ThePacket())), Step.Drain],
         [[], [Sent(DOWN, TIREMsg([TheHeader()]), 0)]])
  }

  function TheFabric(): System {
    System(Net({SPINE}, {LEAF}, {(SPINE, LEAF)}, map[SPINE := [], LEAF := []]), {0, 1},
           map[SPINE := SpineRun(), LEAF := LeafRun()], map[(SPINE, LEAF) := DOWN, (LEAF, SPINE) := UP])
  }

  lemma OneDrain(s: Flood, k: string, part: seq<Sent>)
    requires s.adjs.Keys == {k} && FloodSpec.Drains(s.entries, s.adjs[k], part)
    ensures Outputs(s, Step.Drain, part)
  {
    hide FloodSpec.Drains;
    var order := [k];
    assert order[..0] == [] && Final(order) == k;
    assert DrainsNext(s, Final(order), [], part, part) by { assert [] + part == part; }
    assert DrainsInOrder(s, order[..|order| - 1], []);
    assert DrainsInOrder(s, order, part);
    assert Elements(order) == {k};
  }

  lemma LeafSteps()
    ensures Drained(AtLeaf({TIE})) == AtLeaf({}) && Drained(AtLeaf({})) == AtLeaf({})
    ensures TIREHandled(AtLeaf({}), UP, [TheHeader()]) == AtLeaf({})
    ensures Outputs(AtLeaf({TIE}), Step.Drain, [Sent(UP, TIEMsg(ThePacket()), DEFAULT_LIFETIME)])
    ensures Outputs(AtLeaf({}), Step.Drain, [])
  {
    var a, b := AtLeaf({TIE}), AtLeaf({});
    assert [TheHeader()][..0] == [];
    assert TIREHandled(b, UP, []) == b;
    assert b.adjs[UP].tx - {TIE} == {};
    var ties := [Sent(UP, TIEMsg(ThePacket()), DEFAULT_LIFETIME)];
    assert ([] + []) + ties == ties;
    assert TIEsOf(a.entries, a.adjs[UP], ties);
    assert AckHeaders(a.entries, {}) == {} && ReqHeaders({}) == {};
    assert FloodSpec.Drains(a.entries, a.adjs[UP], ties);
    OneDrain(a, UP, ties);
    var none: seq<Sent> := [];
    assert none + none + none == none;
    assert TIEsOf(b.entries, b.adjs[UP], none);
    assert FloodSpec.Drains(b.entries, b.adjs[UP], none);
    OneDrain(b, UP, none);
  }

  lemma SpineSteps()
    ensures TIEHandled(AtSpine(map[], {}), DOWN, ThePacket()) == AtSpine(Held(), {TIE})
    ensures Drained(AtSpine(Held(), {TIE})) == AtSpine(Held(), {})
    ensures Outputs(AtSpine(Held(), {TIE}), Step.Drain, [Sent(DOWN, TIREMsg([TheHeader()]), 0)])
  {
    var b, c := AtSpine(map[], {}), AtSpine(Held(), {TIE});
    assert Installed(b, DOWN, ThePacket()).entries == Held();
    assert Installed(b, DOWN, ThePacket()).adjs[DOWN] == c.adjs[DOWN];
    assert Installed(b, DOWN, ThePacket()).adjs == c.adjs;
    var acks := [Sent(DOWN, TIREMsg([TheHeader()]), 0)];
    var none: seq<Sent> := [];
    assert acks + none + none == acks;
    assert AckHeaders(c.entries, {TIE}) == {TheHeader()};
    assert Elements([TheHeader()]) == {TheHeader()};
    assert ReqHeaders({}) == {} && TIEsOf(c.entries, c.adjs[DOWN], none);
    assert FloodSpec.Drains(c.entries, c.adjs[DOWN], acks);
    OneDrain(c, DOWN, acks);
  }

  lemma LeafGood(tx: set<TIEID>)
    ensures Good(AtLeaf(tx), {0, 1}) && Accurate(AtLeaf(tx))
  {
  }

  lemma SpineGood()
    ensures Good(AtSpine(map[], {}), {0, 1}) && Accurate(AtSpine(map[], {}))
  {
  }

  lemma Receives(s: Flood, k: string, p: Packet, s': Flood)
    requires PacketHandled(s, k, p, s')
    ensures Next(s, Receive(k, p), s') && Outputs(s, Receive(k, p), [])
  {
  }

  lemma LeafRuns()
    ensures NodeRuns(TheFabric(), LEAF, TIE)
  {
    hide Good, Accurate, Outputs, TIREHandled, Drained;
    LeafGood({TIE});
    LeafSteps();
    var w := LeafRun();
    Receives(AtLeaf({}), UP, TIREMsg([TheHeader()]), AtLeaf({}));
    assert WorksAt(w, {0, 1}, 0) && WorksAt(w, {0, 1}, 1) && WorksAt(w, {0, 1}, 2);
    assert w.steps[2].Drain?;
  }

  lemma SpineRuns()
    ensures NodeRuns(TheFabric(), SPINE, TIE)
  {
    hide Good, Accurate, Outputs, TIEHandled, Drained;
    SpineGood();
    SpineSteps();
    var w := SpineRun();
    Receives(AtSpine(map[], {}), DOWN, TIEMsg(ThePacket()), AtSpine(Held(), {TIE}));
    assert WorksAt(w, {0, 1}, 0) && WorksAt(w, {0, 1}, 1);
    assert w.steps[1].Drain?;
  }

  lemma LinkUp()
    ensures LinkRuns(TheFabric(), LEAF, SPINE) && LinkRuns(TheFabric(), SPINE, LEAF)
  {
    var w, v := LeafRun(), SpineRun();
    var tie, ack := TIEMsg(ThePacket()), TIREMsg([TheHeader()]);
    assert w.steps[1] == Receive(UP, ack) && v.steps[0] == Receive(DOWN, tie);
    assert w.outs[0][0].packet == tie && w.outs[0][0] in w.outs[0];
    assert v.outs[1][0].packet == ack && v.outs[1][0] in v.outs[1];
    forall p ensures SentFrom(w, UP, p) <==> p == tie {
    }
    forall p ensures ArrivesAt(v, DOWN, p) <==> p == tie {
    }
    forall p ensures SentFrom(v, DOWN, p) <==> p == ack {
    }
    forall p ensures ArrivesAt(w, UP, p) <==> p == ack {
    }
  }

  /**
   * Such a fabric exists, and in it the TIE travels: the spine lacks it at the start, may be reached, and ends with it.
   */
  lemma FloodingHappens()
    ensures Running(TheFabric(), TIE) && Starts(TheFabric(), TIE, 1) && Reaches(TheFabric().net, TIE, SPINE)
    ensures !Has(TheFabric().runs[SPINE].states[0], TIE, 1) && Has(Final(TheFabric().runs[SPINE].states), TIE, 1)
  {
    hide NodeRuns, LinkRuns;
    var sys := TheFabric();
    LeafRuns();
    SpineRuns();
    LinkUp();
    assert Running(sys, TIE);
    assert LeafRun().steps[0].Drain?;
    assert Ready(sys, LEAF, TIE);
    assert FloodHop(sys.net, TIE, LEAF, SPINE);
    assert FloodPath(sys.net, TIE, [LEAF, SPINE]);
    assert Reaches(sys.net, TIE, SPINE) by { assert [LEAF, SPINE][1] == SPINE; }
    FloodingReaches(sys, TIE, 1, SPINE);
  }
}
