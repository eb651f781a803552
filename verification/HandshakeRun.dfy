/** A handshake that completes: the histories the safety theorem speaks of reach ThreeWay on both sides. */
module HandshakeRun {
  import opened RiftTypes
  import opened LieFsm
  import opened LieInvariants
  import opened Handshake

  // ---- What the three kinds of input do ----

  /** A second without neighbour: one LIE without reflection. */
  lemma Hello(f: Fsm, now: int)
    requires f.queue == [] && f.state == OneWay && f.neighbor.None?
    ensures Tick(f, now) == f.(trace := f.trace + [Sends(OwnLie(f.me, None), None)])
  {
    hide ProcessLIE, Drain;
    var g := Push(f, TimerTick);
    DrainStep(g, now);
    DrainStep(Step(g, now), now);
    DrainNothing(Step(Step(g, now), now), now);
    assert Step(Step(g, now), now).queue == [];
  }

  /** A machine after its first accepted LIE. */
  function Met(f: Fsm, lie: Lie, src: Addr, now: int): Fsm
    requires lie.level.Some?
  {
    var n := Some(NeighborFrom(lie, src));
    f.(state := TwoWay, neighbor := n, pending := Some(Pending(lie, src)), lastRcvd := Some(now),
       holdtime := lie.holdtime * SECOND,
       trace := f.trace + [Accepts(lie)] + [Emits(TwoWay, n)] + [Sends(OwnLie(f.me, n), n)])
  }

  /** The first usable LIE: accepted, TwoWay entered, and the reflection sent. */
  lemma FirstContact(f: Fsm, lie: Lie, src: Addr, now: int)
    requires f.queue == [] && f.state == OneWay && f.neighbor.None? && Usable(f.me, lie)
    ensures HandlePacket(f, Some(lie), src, now) == Met(f, lie, src, now)
  {
    hide Drain, Silenced, MTUDiffers, LevelRefused;
    var g0 := Received(f, lie, src);
    var g1 := Step(g0, now);
    assert g1.queue == [UpdateZTPOffer, NewNeighbor];
    var g2 := Step(g1, now);
    assert g2.queue == [NewNeighbor];
    var g3 := Step(g2, now);
    assert g3.queue == [SendLie];
    var g4 := Step(g3, now);
    DrainStep(g0, now);
    DrainStep(g1, now);
    DrainStep(g2, now);
    DrainStep(g3, now);
    DrainNothing(g4, now);
  }

  /** A machine that found its reflection in a LIE of its neighbour. */
  function Agreed(f: Fsm, lie: Lie, src: Addr, now: int): Fsm
    requires lie.level.Some?
  {
    var n := Some(NeighborFrom(lie, src));
    f.(state := ThreeWay, neighbor := n, pending := Some(Pending(lie, src)), lastRcvd := Some(now),
       holdtime := lie.holdtime * SECOND,
       trace := f.trace + [Accepts(lie)] + [Emits(ThreeWay, n)])
  }

  /** The neighbour's LIE with our reflection: ThreeWay. */
  lemma Confirmed(f: Fsm, before: Lie, lie: Lie, src: Addr, now: int)
    requires f.queue == [] && f.state == TwoWay && Usable(f.me, lie) && Reflects(f.me, lie)
    requires before.level.Some? && f.neighbor == Some(NeighborFrom(before, src))
    requires before == lie.(neighbor := before.neighbor)
    ensures HandlePacket(f, Some(lie), src, now) == Agreed(f, lie, src, now)
  {
    hide Drain, Silenced, MTUDiffers, LevelRefused;
    var g0 := Received(f, lie, src);
    var g1 := Step(g0, now);
    assert g1.queue == [UpdateZTPOffer, ValidReflection];
    var g2 := Step(g1, now);
    assert g2.queue == [ValidReflection];
    var g3 := Step(g2, now);
    DrainStep(g0, now);
    DrainStep(g1, now);
    DrainStep(g2, now);
    DrainNothing(g3, now);
  }

  // ---- The history ----

  /** Two machines that may become neighbours of each other. */
  predicate Matching(a: Identity, b: Identity) {
    && a.systemID != b.systemID && a.systemID != ILLEGAL_SYSTEM_ID && b.systemID != ILLEGAL_SYSTEM_ID
    && LevelAcceptable(a.level, b.level)
  }

  lemma OwnUsable(a: Identity, b: Identity, n: Option<NeighborState>)
    requires Matching(a, b)
    ensures Usable(a, OwnLie(b, n)) && Usable(b, OwnLie(a, n))
  {
  }

  lemma SentLast(f: Fsm, g: Fsm, lie: Lie, n: Option<NeighborState>)
    requires g.trace == f.trace + [Sends(lie, n)]
    ensures lie in SentIn(g.trace)
  {
    assert g.trace[|f.trace|] == Sends(lie, n);
  }

  lemma SentByMet(f: Fsm, lie: Lie, src: Addr, now: int)
    requires lie.level.Some?
    ensures OwnLie(f.me, Some(NeighborFrom(lie, src))) in SentIn(Met(f, lie, src, now).trace)
  {
    var g := Met(f, lie, src, now);
    var n := Some(NeighborFrom(lie, src));
    assert g.trace[|f.trace| + 2] == Sends(OwnLie(f.me, n), n);
  }

  /** The world after one machine took one input. */
  function After(w: World, m: Move): World
    requires m.who < |w.fsms|
  {
    var f := Apply(w.fsms[m.who], m.input);
    World(w.fsms[m.who := f], w.net + SentIn(f.trace))
  }

  lemma AfterMoves(w: World, m: Move)
    requires m.who < |w.fsms| && (m.input.Packet? && m.input.lie.Some? ==> m.input.lie.value in w.net)
    ensures Moves(w, m, After(w, m))
  {
    hide Apply;
  }

  /**
   * Any two matching machines complete the handshake: a ticks, b answers, a answers that, and each then hears the other
   * once more. Both end in ThreeWay, holding each other.
   */
  lemma HandshakeCompletes(a: Identity, b: Identity, srcA: Addr, srcB: Addr, now: int)
    returns (ws: seq<World>, ms: seq<Move>)
    requires Matching(a, b)
    ensures History(ws, ms) && |ms| == 5 && |ws[5].fsms| == 2
    ensures ws[5].fsms[0].me == a && ws[5].fsms[0].state == ThreeWay && ws[5].fsms[0].neighbor.Some?
    ensures ws[5].fsms[1].me == b && ws[5].fsms[1].state == ThreeWay && ws[5].fsms[1].neighbor.Some?
    ensures Is(ws[5].fsms[1], ws[5].fsms[0].neighbor.value) && Is(ws[5].fsms[0], ws[5].fsms[1].neighbor.value)
  {
    hide Usable, HandlePacket, Tick, SentIn;
    var w0 := World([NewFsm(a), NewFsm(b)], {});
    var helloA := OwnLie(a, None);
    var m0 := Move(0, Second(now));
    var w1 := After(w0, m0);
    Hello(NewFsm(a), now);
    SentLast(NewFsm(a), w1.fsms[0], helloA, None);

    var nA := Some(NeighborFrom(helloA, srcA));
    var replyB := OwnLie(b, nA);
    var m1 := Move(1, Packet(Some(helloA), srcA, now));
    var w2 := After(w1, m1);
    OwnUsable(a, b, None);
    FirstContact(NewFsm(b), helloA, srcA, now);
    SentByMet(NewFsm(b), helloA, srcA, now);

    var nB := Some(NeighborFrom(replyB, srcB));
    var replyA := OwnLie(a, nB);
    var m2 := Move(0, Packet(Some(replyB), srcB, now));
    var w3 := After(w2, m2);
    OwnUsable(a, b, nA);
    FirstContact(w2.fsms[0], replyB, srcB, now);
    SentByMet(w2.fsms[0], replyB, srcB, now);

    var m3 := Move(1, Packet(Some(replyA), srcA, now));
    var w4 := After(w3, m3);
    OwnUsable(a, b, nB);
    Confirmed(w3.fsms[1], helloA, replyA, srcA, now);

    var m4 := Move(0, Packet(Some(replyB), srcB, now));
    var w5 := After(w4, m4);
    Confirmed(w4.fsms[0], replyB, replyB, srcB, now);

    ws, ms := [w0, w1, w2, w3, w4, w5], [m0, m1, m2, m3, m4];
    AfterMoves(w0, m0);
    AfterMoves(w1, m1);
    AfterMoves(w2, m2);
    AfterMoves(w3, m3);
    AfterMoves(w4, m4);
    assert Begins(w0);
  }
}
