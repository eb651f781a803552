/** The synchronisation round carried out by two flood engines. */
module SyncRun {
  import opened RiftTypes
  import opened Lsdb
  import opened TideChunks
  import opened FloodSpec
  import opened FloodEngineClass
  import opened FloodInvariants
  import opened TideRound
  import opened Sync

  // ---- Bookkeeping ----

  lemma OneMorePiece(s: Flood, k: string, ts: seq<Tide>, mid: Flood, t: Tide, s': Flood)
    requires Round(s, k, ts, mid) && TIDEHandled(mid, k, t, s')
    ensures Round(s, k, ts + [t], s')
  {
    hide TIDEHandled;
    assert (ts + [t])[..|ts|] == ts && Final(ts + [t]) == t;
  }

  lemma OneMoreReceipt(s: Flood, rs: seq<Receipt>, mid: Flood, r: Receipt, s': Flood)
    requires Handled(s, rs, mid) && PacketHandled(mid, r.k, r.packet, s')
    ensures Handled(s, rs + [r], s')
  {
    hide PacketHandled;
    assert (rs + [r])[..|rs|] == rs && Final(rs + [r]) == r;
  }

  lemma {:induction false} HandledSettles(s: Flood, rs: seq<Receipt>, s': Flood, levels: set<Level>)
    requires Good(s, levels) && Handled(s, rs, s')
    ensures Good(s', levels) && Settles(s, s')
  {
    hide Good, Settles, PacketHandled;
    if rs == [] {
      SettlesItself(s);
    } else {
      var mid := BeforeFinal(s, rs, s');
      HandledSettles(s, rs[..|rs| - 1], mid, levels);
      PacketSettles(mid, Final(rs).k, Final(rs).packet, s', levels);
      SettlesThrough(s, mid, s');
    }
  }

  lemma StaysUp(s: Flood, s': Flood, k: string)
    requires Settles(s, s') && k in s.adjs
    ensures k in s'.adjs
  {
    hide Current;
    assert k in s.Infos() && k in s'.Infos();
  }

  lemma DrainOnlyQueues(s: Flood, k: string, s': Flood)
    requires k in s.adjs && s' == s.(adjs := s.adjs[k := AdjState(s.adjs[k].info, {}, {}, {})])
    ensures OnlyQueues(s, s')
  {
    assert s'.Infos() == s.Infos();
  }

  lemma AsCut(chunks: seq<Tide>)
    ensures Arranged(chunks, chunks)
  {
    var order: seq<nat> := seq(|chunks|, i => i);
    forall m | 0 <= m < |chunks| ensures m in order { assert order[m] == m; }
    assert Permutes(order, |chunks|);
  }

  lemma FiledGood(s: Flood, levels: set<Level>)
    requires Good(s, levels)
    ensures Filed(s.entries)
  {
    hide ForeignAcceptable, LevelsWithin, OwnAlive, OwnOriginated, OwnFlagged;
  }

  // ---- The engines at work ----

  /** An engine takes in what was sent to it, packet by packet. */
  method Deliver(e: FloodEngine, k: string, out: seq<Sent>) returns (ghost rs: seq<Receipt>)
    modifies e, e.lsdb
    ensures Handled(old(e.State()), rs, e.State()) && DeliversExactly(k, out, rs)
  {
    hide PacketHandled, Handled;
    rs := [];
    assert Handled(e.State(), rs, e.State()) by { NothingHandled(e.State()); }
    for i := 0 to |out|
      invariant Handled(old(e.State()), rs, e.State()) && DeliversExactly(k, out[..i], rs)
    {
      ghost var mid := e.State();
      e.HandleFloodPacket(k, out[i].packet);
      OneMoreReceipt(old(e.State()), rs, mid, Receipt(k, out[i].packet), e.State());
      assert out[..i + 1] == out[..i] + [out[i]];
      DeliveredOneMore(k, out[..i], out[i], rs);
      rs := rs + [Receipt(k, out[i].packet)];
    }
    assert out[..|out|] == out;
  }

  lemma NothingHandled(s: Flood)
    ensures Handled(s, [], s)
  {
  }

  lemma DeliveredOneMore(k: string, out: seq<Sent>, m: Sent, rs: seq<Receipt>)
    requires DeliversExactly(k, out, rs)
    ensures DeliversExactly(k, out + [m], rs + [Receipt(k, m.packet)])
  {
    assert Elements(rs + [Receipt(k, m.packet)]) == Elements(rs) + {Receipt(k, m.packet)};
  }

  /** An engine takes in the pieces of a TIDE in the order they were cut. */
  method DeliverTIDEs(e: FloodEngine, k: string, chunks: seq<Tide>)
    modifies e, e.lsdb
    ensures Round(old(e.State()), k, chunks, e.State())
  {
    hide TIDEHandled, Round;
    assert Round(e.State(), k, [], e.State()) by { NoPieces(e.State(), k); }
    assert chunks[..0] == [];
    for i := 0 to |chunks|
      invariant Round(old(e.State()), k, chunks[..i], e.State())
    {
      ghost var mid := e.State();
      e.HandleFloodPacket(k, TIDEMsg(chunks[i]));
      OneMorePiece(old(e.State()), k, chunks[..i], mid, chunks[i], e.State());
      assert chunks[..i + 1] == chunks[..i] + [chunks[i]];
    }
    assert chunks[..|chunks|] == chunks;
  }

  lemma NoPieces(s: Flood, k: string)
    ensures Round(s, k, [], s)
  {
  }

  /** The pieces among the packets sent. */
  method PiecesOf(out: seq<Sent>, ghost ifName: string, ghost cut: seq<Tide>) returns (chunks: seq<Tide>)
    requires out == TIDEPackets(ifName, cut)
    ensures chunks == cut
  {
    chunks := [];
    for i := 0 to |out|
      invariant chunks == cut[..i]
    {
      match out[i].packet
      case TIDEMsg(t) => chunks := chunks + [t];
      case _ => assert false;
    }
  }

  /**
   * A whole round between two engines on one link: a sends its TIDE, b drains what it then asks for, a drains its
   * answers, and b takes them in. Whatever a lists, b accepts and did not originate, b holds afterwards, at the listed
   * sequence number or a later one.
   */
  method Synchronise(a: FloodEngine, kA: string, b: FloodEngine, kB: string, ghost levelsA: set<Level>,
                     ghost levelsB: set<Level>)
    returns (ghost x: Exchange)
    requires a != b && a.lsdb != b.lsdb && kA in a.adjs && kB in b.adjs
    requires Good(a.State(), levelsA) && Good(b.State(), levelsB)
    modifies a, a.lsdb, b, b.lsdb
    ensures x.a == old(a.State()) && x.kA == kA && x.b == old(b.State()) && x.kB == kB && x.done == b.State()
    ensures Lossless(x)
    ensures forall h :: h in x.headers && Accepts(old(b.State()), kB, IDOf(h)) && Answered(IDOf(h), h) ==>
              Has(b.State(), IDOf(h), h.header.seqNr)
  {
    hide Good, Round, Handled, TIDEsFor, Drains, Settles, OnlyQueues, DeliversExactly, Arranged, Answered, Accepts, Has;
    ghost var a0, b0 := a.State(), b.State();
    FiledGood(a0, levelsA);
    var start := |a.sent|;
    a.SendTIDEsToAdj(kA);
    ghost var part :| a.sent == old(a.sent) + part && SendsTIDEs(a.State(), kA, part);
    ghost var headers, cut :| TIDEsFor(a0, kA, headers, cut) && part == TIDEPackets(a0.adjs[kA].info.ifName, cut);
    assert a.sent[start..] == part;
    var chunks := PiecesOf(a.sent[start..], a0.adjs[kA].info.ifName, cut);
    AsCut(chunks);

    DeliverTIDEs(b, kB, chunks);
    ghost var listed := b.State();
    RoundSettles(b0, kB, chunks, listed, levelsB);
    StaysUp(b0, listed, kB);
    var startB := |b.sent|;
    b.DrainAdjQueues(kB);
    ghost var drained := b.State();
    DrainOnlyQueues(listed, kB, drained);
    var asked := b.sent[startB..];
    assert Drains(listed.entries, listed.adjs[kB], asked);

    ghost var atA := Deliver(a, kA, asked);
    ghost var a2 := a.State();
    HandledSettles(a0, atA, a2, levelsA);
    StaysUp(a0, a2, kA);
    start := |a.sent|;
    a.DrainAdjQueues(kA);
    var answered := a.sent[start..];
    assert Drains(a2.entries, a2.adjs[kA], answered);

    ghost var atB := Deliver(b, kB, answered);
    ghost var done := b.State();
    AllDelivered(kB, answered, atB);
    x := Exchange(a0, kA, headers, chunks, b0, kB, chunks, listed, asked, atA, a2, answered, drained, atB, done);
    assert Lossless(x);
    forall h | h in x.headers && Accepts(b0, kB, IDOf(h)) && Answered(IDOf(h), h)
      ensures Has(done, IDOf(h), h.header.seqNr)
    {
      OneRoundSuffices(x, levelsA, levelsB, h);
    }
  }

  lemma AllDelivered(k: string, out: seq<Sent>, rs: seq<Receipt>)
    requires DeliversExactly(k, out, rs)
    ensures DeliversAll(k, out, rs)
  {
    forall m | m in out ensures Receipt(k, m.packet) in rs { assert Receipt(k, m.packet) in Elements(rs); }
  }
}
