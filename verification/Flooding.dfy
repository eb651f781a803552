/** A fabric of flood engines at work: lossless links carry a TIE to every node that flooding scope lets it reach. */
module Flooding {
  import opened RiftTypes
  import opened Lsdb
  import opened Scope
  import opened TideChunks
  import opened FloodSpec
  import opened FloodInvariants
  import opened Sync
  import FloodExact
  import opened Interleaved
  import opened Fabric

  // ---- What a packet says of its sender ----

  /** The packet shows that its sender holds the TIE at the number or a later one. */
  ghost predicate Speaks(p: Packet, id: TIEID, seqNr: int) {
    match p
    case TIEMsg(tie) => tie.header.id == id && tie.header.seqNr >= seqNr
    case TIREMsg(hs) => exists h :: h in hs && IDOf(h) == id && h.lifetime != 0 && h.header.seqNr >= seqNr
    case TIDEMsg(t) => exists h :: h in t.headers && IDOf(h) == id && h.header.seqNr >= seqNr
    case OtherMsg => false
  }

  lemma HasFiled(s: Flood, levels: set<Level>, x: TIEID, h: HeaderWithLifetime, id: TIEID, seqNr: int)
    requires Good(s, levels) && x in s.entries && s.entries[x].Header() == h && IDOf(h) == id && h.header.seqNr >= seqNr
    ensures Has(s, id, seqNr)
  {
    hide ForeignAcceptable, LevelsWithin, OwnAlive, OwnOriginated;
  }

  lemma DrainSpeaks(s: Flood, levels: set<Level>, m: Sent, id: TIEID, seqNr: int)
    requires Good(s, levels) && FloodExact.Expected(s, m) && Speaks(m.packet, id, seqNr)
    ensures Has(s, id, seqNr)
  {
    hide Good, Has;
    var k :| FloodExact.SendsTIE(s, k, m) || FloodExact.SendsAcks(s, k, m) || FloodExact.SendsRequests(s, k, m);
    if FloodExact.SendsTIE(s, k, m) {
      var x :| x in s.adjs[k].tx && x in s.entries
               && m == Sent(s.adjs[k].info.ifName, TIEMsg(s.entries[x].packet), s.entries[x].lifetime);
      HasFiled(s, levels, x, s.entries[x].Header(), id, seqNr);
    } else {
      var h :| h in m.packet.headers && IDOf(h) == id && h.lifetime != 0 && h.header.seqNr >= seqNr;
      var x :| x in s.adjs[k].ack && x in s.entries
               && h == HeaderWithLifetime(s.entries[x].packet.header, s.entries[x].lifetime);
      HasFiled(s, levels, x, h, id, seqNr);
    }
  }

  lemma {:induction false} TIDESpeaks(s: Flood, levels: set<Level>, order: seq<string>, out: seq<Sent>, m: Sent,
                                      id: TIEID, seqNr: int)
    requires Good(s, levels) && TIDEsInOrder(s, order, out) && m in out && Speaks(m.packet, id, seqNr)
    ensures Has(s, id, seqNr)
    decreases |order|
  {
    hide Good, Has, SendsTIDEs, Speaks;
    if order != [] {
      var before, part :| TIDEsNext(s, Final(order), before, part, out)
        && TIDEsInOrder(s, order[..|order| - 1], before);
      if m in before {
        TIDESpeaks(s, levels, order[..|order| - 1], before, m, id, seqNr);
      } else {
        OneTIDESpeaks(s, levels, Final(order), part, m, id, seqNr);
      }
    }
  }

  lemma OneTIDESpeaks(s: Flood, levels: set<Level>, k: string, part: seq<Sent>, m: Sent, id: TIEID, seqNr: int)
    requires Good(s, levels) && SendsTIDEs(s, k, part) && m in part && Speaks(m.packet, id, seqNr)
    ensures Has(s, id, seqNr)
  {
    hide Good, Has, TIDEsFor;
    var headers: seq<HeaderWithLifetime>, chunks: seq<Tide> :| TIDEsFor(s, k, headers, chunks)
      && part == TIDEPackets(s.adjs[k].info.ifName, chunks);
    var i :| 0 <= i < |part| && part[i] == m;
    var h :| h in chunks[i].headers && IDOf(h) == id && h.header.seqNr >= seqNr;
    FloodExact.PieceOf(chunks, chunks[i], h);
    assert Concat(chunks) == headers by { Listed(s, k, headers, chunks); }
    ListedHeld(s, k, headers, chunks, h, levels);
    HasFiled(s, levels, id, h, id, seqNr);
  }

  lemma Listed(s: Flood, k: string, headers: seq<HeaderWithLifetime>, chunks: seq<Tide>)
    requires k in s.adjs && TIDEsFor(s, k, headers, chunks)
    ensures Concat(chunks) == headers
  {
  }

  /** What a step puts on the wire shows only what the node holds. */
  lemma SpeakerHas(s: Flood, step: Step, out: seq<Sent>, m: Sent, id: TIEID, seqNr: int, levels: set<Level>)
    requires Good(s, levels) && Outputs(s, step, out) && m in out && Speaks(m.packet, id, seqNr)
    ensures Has(s, id, seqNr)
  {
    hide Good, Has, DrainsInOrder, TIDEsInOrder, Speaks, OrderOf, FloodExact.Expected, FloodExact.SentOf;
    match step
    case Drain =>
      FloodExact.DrainSentExactly(s, out);
      DrainSpeaks(s, levels, m, id, seqNr);
    case SendTIDEs =>
      var order :| OrderOf(s, order) && TIDEsInOrder(s, order, out);
      TIDESpeaks(s, levels, order, out, m, id, seqNr);
    case _ =>
  }

  // ---- A queued TIE stays queued until a drain ----

  lemma QuietHeaderKeeps(s: Flood, k: string, h: HeaderWithLifetime, s': Flood, id: TIEID, seqNr: int,
                         levels: set<Level>)
    requires Good(s, levels) && k in s.adjs && HeaderHandled(s, k, h, s') && Has(s, id, seqNr)
    requires IDOf(h) == id ==> h.header.seqNr < seqNr
    ensures Keeps(s, s', k, id)
  {
    hide Good, ShouldAcceptTIE, ShouldFloodTIE, CompareTIEHeader, Originates;
    if IDOf(h) == id { HeaderOrder(h, s.entries[id].Header()); }
    if h.header.id !in s.entries && h.header.id.originator == s.self {
      var mid :| Originates(s, mid) && s' == FloodAll(mid, {h.header.id});
      OriginateKeeps(s, mid, levels);
    }
  }

  lemma {:induction false} QuietHeadersKeep(s: Flood, k: string, hs: seq<HeaderWithLifetime>, s': Flood, id: TIEID,
                                            seqNr: int, levels: set<Level>)
    requires Good(s, levels) && HeadersHandled(s, k, hs, s') && Has(s, id, seqNr)
    requires forall h :: h in hs && IDOf(h) == id ==> h.header.seqNr < seqNr
    ensures Keeps(s, s', k, id)
  {
    hide Good, HeaderHandled, Has, Settles;
    if hs != [] {
      var init, h := hs[..|hs| - 1], hs[|hs| - 1];
      assert hs == init + [h];
      var mid :| HeadersHandled(s, k, init, mid) && k in mid.adjs && HeaderHandled(mid, k, h, s');
      QuietHeadersKeep(s, k, init, mid, id, seqNr, levels);
      HeadersSettle(s, k, init, mid, levels);
      SettlesHas(s, mid, id, seqNr);
      QuietHeaderKeeps(mid, k, h, s', id, seqNr, levels);
    }
  }

  lemma QuietTIDEKeeps(s: Flood, k: string, t: Tide, s': Flood, id: TIEID, seqNr: int, levels: set<Level>)
    requires Good(s, levels) && TIDEHandled(s, k, t, s') && Has(s, id, seqNr) && !Speaks(TIDEMsg(t), id, seqNr)
    ensures Keeps(s, s', k, id)
  {
    hide Good, HeadersHandled, Unlisted, Has;
    if k in s.adjs {
      var mid :| HeadersHandled(s, k, t.headers, mid) && k in mid.adjs
        && s' == Enqueue(mid, k, Unlisted(mid, k, t), {}, {});
      QuietHeadersKeep(s, k, t.headers, mid, id, seqNr, levels);
    }
  }

  /** What may arrive from the neighbour behind k without having the TIE taken off its queue. */
  ghost predicate Quiet(step: Step, k: string, id: TIEID, seqNr: int) {
    && (step.AdjChange? ==> step.ifName != k)
    && (step.Receive? && step.rxIf == k ==> !Speaks(step.packet, id, seqNr))
  }

  lemma QueueKept(s: Flood, step: Step, s': Flood, k: string, id: TIEID, seqNr: int, levels: set<Level>)
    requires Good(s, levels) && Next(s, step, s') && StepWithin(step, levels) && !step.Drain?
    requires Has(s, id, seqNr) && Quiet(step, k, id, seqNr)
    ensures Keeps(s, s', k, id)
  {
    hide Good, Keeps, TIDEHandled, TIEHandled, TIREHandled, AdjChanged, StepWithin;
    if step.Receive? && step.rxIf == k && step.packet.TIDEMsg? {
      QuietTIDEKeeps(s, k, step.packet.tide, s', id, seqNr, levels);
    } else {
      hide Next, Has;
      assert Has(s, id, seqNr) && id in s.entries && SeqNr(s, id) >= seqNr by { HasMeans(s, id, seqNr); }
      StepQueue(s, step, s', k, id, seqNr, levels);
    }
  }

  lemma HasMeans(s: Flood, id: TIEID, seqNr: int)
    ensures Has(s, id, seqNr) <==> id in s.entries && SeqNr(s, id) >= seqNr
  {
  }

  // ---- A foreign TIE is gained only by receiving it ----

  lemma ForeignHeader(s: Flood, k: string, h: HeaderWithLifetime, s': Flood, id: TIEID, levels: set<Level>)
    requires Good(s, levels) && k in s.adjs && HeaderHandled(s, k, h, s') && !Own(s, id)
    ensures s'.self == s.self && (id in s'.entries <==> id in s.entries)
    ensures id in s.entries ==> s'.entries[id] == s.entries[id]
  {
    hide ShouldAcceptTIE, ShouldFloodTIE, CompareTIEHeader, ForeignAcceptable, LevelsWithin, OwnAlive, OwnOriginated,
      FloodExact.Says, HeaderHandled;
    FloodExact.HeaderExactly(s, k, h, s');
    HeaderSettles(s, k, h, s', levels);
  }

  lemma {:induction false} ForeignHeaders(s: Flood, k: string, hs: seq<HeaderWithLifetime>, s': Flood, id: TIEID,
                                          levels: set<Level>)
    requires Good(s, levels) && HeadersHandled(s, k, hs, s') && !Own(s, id)
    ensures s'.self == s.self && (id in s'.entries <==> id in s.entries)
    ensures id in s.entries ==> s'.entries[id] == s.entries[id]
  {
    hide Good, HeaderHandled, Settles;
    if hs != [] {
      var mid :| HeadersHandled(s, k, hs[..|hs| - 1], mid) && k in mid.adjs && HeaderHandled(mid, k, hs[|hs| - 1], s');
      ForeignHeaders(s, k, hs[..|hs| - 1], mid, id, levels);
      HeadersSettle(s, k, hs[..|hs| - 1], mid, levels);
      ForeignHeader(mid, k, hs[|hs| - 1], s', id, levels);
    }
  }

  /** But for a TIE received, no step writes an entry that is not ours: it goes, or its packet stays as it is. */
  lemma ForeignKept(s: Flood, step: Step, s': Flood, id: TIEID, levels: set<Level>)
    requires Good(s, levels) && Next(s, step, s') && !Own(s, id)
    requires !(step.Receive? && step.packet.TIEMsg?)
    ensures id in s'.entries ==> id in s.entries && s'.entries[id].packet == s.entries[id].packet
  {
    hide ShouldFloodTIE, HeadersHandled, ForeignAcceptable, LevelsWithin, OwnAlive, OwnOriginated, Filed, Unlisted,
      FloodExact.Says, AdjChanged, DisaggUpdated, Ticked, TIREHandled;
    match step
    case AdjChange(ifName, info) => FloodExact.AdjacencyExactly(s, ifName, info, s');
    case DisaggUpdate(prefixes) => FloodExact.DisaggExactly(s, prefixes, s');
    case Receive(k, p) =>
      if p.TIREMsg? { TIREQueues(s, k, p.headers); }
      if p.TIDEMsg? && k in s.adjs {
        var mid :| HeadersHandled(s, k, p.tide.headers, mid) && k in mid.adjs
          && s' == Enqueue(mid, k, Unlisted(mid, k, p.tide), {}, {});
        ForeignHeaders(s, k, p.tide.headers, mid, id, levels);
      }
    case Tick => FloodExact.SecondExactly(s, s');
    case _ =>
  }

  /** The step by which a node comes to hold a TIE of another: it arrives, and waits wherever it is to be passed on. */
  lemma Gained(s: Flood, step: Step, s': Flood, id: TIEID, seqNr: int, levels: set<Level>)
    requires Good(s, levels) && Next(s, step, s') && !Own(s, id) && !Has(s, id, seqNr) && Has(s', id, seqNr)
    ensures step.Receive? && step.packet.TIEMsg? && step.rxIf in s.adjs && Speaks(step.packet, id, seqNr)
    ensures forall j :: j in s.adjs && FloodExact.PassedOn(s, step.rxIf, id, j) ==> Queued(s', j, id)
  {
    hide Good, ShouldFloodTIE, ShouldAcceptTIE, CompareTIEHeader, FloodExact.PassedOn, Next;
    if !(step.Receive? && step.packet.TIEMsg?) {
      ForeignKept(s, step, s', id, levels);
    } else {
      FloodExact.TIEExactly(s, step.rxIf, step.packet.tie, s');
      GainedTIE(s, step.rxIf, step.packet.tie, s', id, seqNr, levels);
    }
  }

  lemma GainedTIE(s: Flood, k: string, tie: TIEPacket, s': Flood, id: TIEID, seqNr: int, levels: set<Level>)
    requires Good(s, levels) && !Own(s, id) && !Has(s, id, seqNr) && Has(s', id, seqNr)
    requires if k in s.adjs then FloodExact.TIETaken(s, k, tie, s') else s' == s
    ensures k in s.adjs && Speaks(TIEMsg(tie), id, seqNr)
    ensures forall j :: j in s.adjs && FloodExact.PassedOn(s, k, id, j) ==> Queued(s', j, id)
  {
    hide ShouldFloodTIE, ShouldAcceptTIE, CompareTIEHeader, FloodExact.PassedOn, ForeignAcceptable, LevelsWithin,
      OwnAlive, OwnOriginated;
  }

  /** A TIE that is accepted is held afterwards, as recent as it came. */
  lemma TakenIn(s: Flood, k: string, tie: TIEPacket, s': Flood, levels: set<Level>)
    requires Good(s, levels) && PacketHandled(s, k, TIEMsg(tie), s') && k in s.adjs && !Own(s, tie.header.id)
    requires ShouldAcceptTIE(tie.header.id, s.self, s.level, s.adjs[k].info.neighborLevel)
    ensures Has(s', tie.header.id, tie.header.seqNr)
  {
    hide Good, ShouldFloodTIE, ShouldAcceptTIE, CompareTIEHeader, TIEHandled;
    FloodExact.TIEExactly(s, k, tie, s');
    if tie.header.id in s.entries { HeaderOrder(RxHeader(tie), s.entries[tie.header.id].Header()); }
  }

  /** An adjacency stays as it is unless it is changed itself. */
  lemma InfoKept(s: Flood, step: Step, s': Flood, k: string, levels: set<Level>)
    requires Good(s, levels) && Next(s, step, s') && k in s.adjs && (step.AdjChange? ==> step.ifName != k)
    ensures k in s'.adjs && s'.adjs[k].info == s.adjs[k].info
  {
    hide Good, ShouldFloodTIE, PacketHandled, FloodExact.AllWritten, AdjChanged, DisaggUpdated, Ticked, Settles;
    match step
    case AdjChange(ifName, info) => FloodExact.AdjacencyExactly(s, ifName, info, s');
    case DisaggUpdate(prefixes) => FloodExact.DisaggExactly(s, prefixes, s');
    case Receive(rx, p) =>
      PacketSettles(s, rx, p, s', levels);
      SettledInfo(s, s', k);
    case Tick => FloodExact.SecondExactly(s, s');
    case _ =>
  }

  lemma SettledInfo(s: Flood, s': Flood, k: string)
    requires Settles(s, s') && k in s.adjs
    ensures k in s'.adjs && s'.adjs[k].info == s.adjs[k].info
  {
    hide OwnOrCurrent;
    assert k in s.Infos() && s.Infos()[k] == s.adjs[k].info;
    assert k in s'.Infos() && s'.Infos()[k] == s'.adjs[k].info;
  }

  // ---- One node through its run ----

  /** A run from a good state, during which the TIE does not run out. */
  ghost predicate SoundRun(w: Work, levels: set<Level>, id: TIEID) {
    && Works(w, levels) && Good(w.states[0], levels) && Accurate(w.states[0])
    && forall t :: 0 <= t < |w.steps| && id in w.states[t].entries ==> id in w.states[t + 1].entries
  }

  lemma {:induction false} GoodAt(w: Work, levels: set<Level>, id: TIEID, t: nat)
    requires SoundRun(w, levels, id) && t < |w.states|
    ensures Good(w.states[t], levels) && Accurate(w.states[t])
    ensures w.states[t].self == w.states[0].self && w.states[t].level == w.states[0].level
  {
    hide Good, Accurate, Next, StepWithin;
    if t > 0 {
      GoodAt(w, levels, id, t - 1);
      assert WorksAt(w, levels, t - 1);
      StepKeeps(w.states[t - 1], w.steps[t - 1], w.states[t], levels);
    }
  }

  lemma {:induction false} HasOn(w: Work, levels: set<Level>, id: TIEID, seqNr: int, t: nat, u: nat)
    requires SoundRun(w, levels, id) && t <= u < |w.states| && Has(w.states[t], id, seqNr)
    ensures Has(w.states[u], id, seqNr)
    decreases u - t
  {
    hide Good, Accurate, Next, StepWithin;
    if t < u {
      HasOn(w, levels, id, seqNr, t, u - 1);
      GoodAt(w, levels, id, u - 1);
      assert WorksAt(w, levels, u - 1);
      StepKeeps(w.states[u - 1], w.steps[u - 1], w.states[u], levels);
    }
  }

  ghost predicate Steady(w: Work, k: string) {
    forall t :: 0 <= t < |w.steps| && w.steps[t].AdjChange? ==> w.steps[t].ifName != k
  }

  lemma {:induction false} InfoAt(w: Work, levels: set<Level>, id: TIEID, k: string, t: nat)
    requires SoundRun(w, levels, id) && t < |w.states| && k in w.states[0].adjs && Steady(w, k)
    ensures k in w.states[t].adjs && w.states[t].adjs[k].info == w.states[0].adjs[k].info
  {
    hide Good, Accurate, Next, StepWithin;
    if t > 0 {
      InfoAt(w, levels, id, k, t - 1);
      GoodAt(w, levels, id, t - 1);
      assert WorksAt(w, levels, t - 1);
      InfoKept(w.states[t - 1], w.steps[t - 1], w.states[t], k, levels);
    }
  }

  /** The first moment at which the node holds the TIE. */
  lemma {:induction false} FirstHas(w: Work, id: TIEID, seqNr: int, t: nat) returns (u: nat)
    requires t < |w.states| && Has(w.states[t], id, seqNr)
    ensures u <= t && Has(w.states[u], id, seqNr) && (u > 0 ==> !Has(w.states[u - 1], id, seqNr))
  {
    hide Has;
    u := t;
    if t > 0 && Has(w.states[t - 1], id, seqNr) {
      u := FirstHas(w, id, seqNr, t - 1);
    }
  }

  /** Nothing that arrives on k shows that the neighbour holds the TIE. */
  ghost predicate AllQuiet(w: Work, k: string, id: TIEID, seqNr: int) {
    forall t :: 0 <= t < |w.steps| ==> Quiet(w.steps[t], k, id, seqNr)
  }

  /** A queued TIE is sent by the next drain. */
  lemma {:induction false} SentByDrain(w: Work, levels: set<Level>, k: string, id: TIEID, seqNr: int, t: nat, d: nat)
    returns (u: nat, m: Sent)
    requires SoundRun(w, levels, id) && AllQuiet(w, k, id, seqNr) && t <= d < |w.steps| && w.steps[d].Drain?
    requires Has(w.states[t], id, seqNr) && Queued(w.states[t], k, id)
    ensures u < |w.outs| && m in w.outs[u] && m.packet.TIEMsg? && m.packet.tie.header.id == id
    ensures Speaks(m.packet, id, seqNr) && k in w.states[u].adjs && m.ifName == w.states[u].adjs[k].info.ifName
    decreases d - t
  {
    hide Good, Accurate, Next, StepWithin, Quiet, Outputs;
    GoodAt(w, levels, id, t);
    assert WorksAt(w, levels, t);
    if w.steps[t].Drain? {
      u := t;
      DrainSends(w.states[t], w.outs[t], k, id);
      m :| m in w.outs[t] && m.packet == TIEMsg(w.states[t].entries[id].packet)
        && m.ifName == w.states[t].adjs[k].info.ifName;
      FiledOwn(w.states[t], id, levels);
    } else {
      QueueKept(w.states[t], w.steps[t], w.states[t + 1], k, id, seqNr, levels);
      HasOn(w, levels, id, seqNr, t, t + 1);
      u, m := SentByDrain(w, levels, k, id, seqNr, t + 1, d);
    }
  }

  // ---- The fabric at work ----

  // A run for every node, and the interface by which x reaches its neighbour y.
  datatype System = System(net: Net, levels: set<Level>, runs: map<SystemID, Work>,
                           port: map<(SystemID, SystemID), string>)
  {
    function Nodes(): set<SystemID> { net.spines + net.leaves }
  }

  ghost predicate ArrivesAt(w: Work, k: string, p: Packet) {
    exists t :: 0 <= t < |w.steps| && w.steps[t] == Receive(k, p)
  }

  ghost predicate SentFrom(w: Work, k: string, p: Packet) {
    exists t, m :: 0 <= t < |w.outs| && m in w.outs[t] && m.ifName == k && m.packet == p
  }

  /** Every reception is followed by a drain. */
  ghost predicate DrainsLater(w: Work) {
    forall t :: 0 <= t < |w.steps| && w.steps[t].Receive? ==> exists d :: t < d < |w.steps| && w.steps[d].Drain?
  }

  ghost predicate NodeRuns(sys: System, x: SystemID, id: TIEID) {
    && x in sys.runs && SoundRun(sys.runs[x], sys.levels, id) && DrainsLater(sys.runs[x])
    && sys.runs[x].states[0].self == x && sys.runs[x].states[0].level == sys.net.LevelOf(x)
  }

  /** The adjacency k of a node is up all along, with a neighbour at the level. */
  ghost predicate PortUp(w: Work, k: string, level: Level) {
    && w.states != [] && k in w.states[0].adjs && Steady(w, k)
    && w.states[0].adjs[k].info.ifName == k && w.states[0].adjs[k].info.neighborLevel == level
  }

  /** What x sends on its port to y arrives there, and nothing arrives from y that y did not send. */
  ghost predicate LinkRuns(sys: System, x: SystemID, y: SystemID)
    requires x in sys.runs && y in sys.runs
  {
    && (x, y) in sys.port && (y, x) in sys.port
    && var w, v, k, l := sys.runs[x], sys.runs[y], sys.port[(x, y)], sys.port[(y, x)];
    && PortUp(w, k, sys.net.LevelOf(y))
    && (forall p :: SentFrom(w, k, p) ==> ArrivesAt(v, l, p))
    && (forall p :: ArrivesAt(w, k, p) ==> SentFrom(v, l, p))
  }

  ghost predicate Running(sys: System, id: TIEID) {
    && sys.net.Valid()
    && (forall x :: x in sys.Nodes() ==> NodeRuns(sys, x, id))
    && forall x, y :: sys.net.Linked(x, y) ==> x in sys.runs && y in sys.runs && LinkRuns(sys, x, y)
  }

  /** A node that holds the TIE has it queued wherever it is in scope, and will drain. */
  ghost predicate Ready(sys: System, x: SystemID, id: TIEID)
    requires x in sys.runs && sys.runs[x].states != []
  {
    && (exists d :: 0 <= d < |sys.runs[x].steps| && sys.runs[x].steps[d].Drain?)
    && forall y :: sys.net.Linked(x, y) && ShouldFloodTIE(id, x, sys.net.LevelOf(x), sys.net.LevelOf(y)) ==>
         (x, y) in sys.port && Queued(sys.runs[x].states[0], sys.port[(x, y)], id)
  }

  /** At the start the originator holds the TIE, and who holds it has it queued. */
  ghost predicate Starts(sys: System, id: TIEID, seqNr: int)
    requires forall x :: x in sys.Nodes() ==> x in sys.runs && sys.runs[x].states != []
  {
    && id.originator in sys.Nodes() && Has(sys.runs[id.originator].states[0], id, seqNr)
    && forall x :: x in sys.Nodes() && Has(sys.runs[x].states[0], id, seqNr) ==> Ready(sys, x, id)
  }

  /** At some moment of its run the node holds the TIE. */
  ghost predicate Comes(w: Work, id: TIEID, seqNr: int) {
    exists t :: 0 <= t < |w.states| && Has(w.states[t], id, seqNr)
  }

  /** What arrives from a neighbour and shows that it holds the TIE, shows it rightly. */
  lemma SpeakerRight(sys: System, x: SystemID, y: SystemID, p: Packet, id: TIEID, seqNr: int)
    requires x in sys.runs && NodeRuns(sys, y, id) && LinkRuns(sys, x, y)
    requires ArrivesAt(sys.runs[x], sys.port[(x, y)], p) && Speaks(p, id, seqNr)
    ensures Comes(sys.runs[y], id, seqNr)
  {
    hide Good, Accurate, Speaks, Has, Next, StepWithin, Outputs, ArrivesAt, PortUp;
    var v := sys.runs[y];
    assert SentFrom(v, sys.port[(y, x)], p);
    var t, m :| 0 <= t < |v.outs| && m in v.outs[t] && m.ifName == sys.port[(y, x)] && m.packet == p;
    GoodAt(v, sys.levels, id, t);
    assert WorksAt(v, sys.levels, t);
    SpeakerHas(v.states[t], v.steps[t], v.outs[t], m, id, seqNr, sys.levels);
  }

  /** From the moment it holds the TIE, queued for y, until the drain. */
  lemma Passes(sys: System, x: SystemID, y: SystemID, id: TIEID, seqNr: int, t: nat, d: nat)
    requires NodeRuns(sys, x, id) && NodeRuns(sys, y, id) && LinkRuns(sys, x, y) && LinkRuns(sys, y, x)
    requires t <= d < |sys.runs[x].steps| && sys.runs[x].steps[d].Drain? && y != id.originator
    requires Has(sys.runs[x].states[t], id, seqNr) && Queued(sys.runs[x].states[t], sys.port[(x, y)], id)
    requires ShouldAcceptTIE(id, y, sys.net.LevelOf(y), sys.net.LevelOf(x))
    ensures Comes(sys.runs[y], id, seqNr)
  {
    hide Good, Accurate, Has, Next, StepWithin, Speaks, Quiet, ShouldAcceptTIE, ArrivesAt, SentFrom;
    var w, v, k, l := sys.runs[x], sys.runs[y], sys.port[(x, y)], sys.port[(y, x)];
    if AllQuiet(w, k, id, seqNr) {
      var u, m := SentByDrain(w, sys.levels, k, id, seqNr, t, d);
      InfoAt(w, sys.levels, id, k, u);
      assert SentFrom(w, k, m.packet) by { SentIntro(w, k, u, m); }
      assert ArrivesAt(v, l, m.packet);
      Arrival(v, sys.levels, l, m.packet, id, seqNr, sys.net.LevelOf(x));
    } else {
      var i :| 0 <= i < |w.steps| && !Quiet(w.steps[i], k, id, seqNr);
      LoudStep(w, k, i, id, seqNr);
      SpeakerRight(sys, x, y, w.steps[i].packet, id, seqNr);
    }
  }

  lemma SentIntro(w: Work, k: string, u: nat, m: Sent)
    requires u < |w.outs| && m in w.outs[u] && m.ifName == k
    ensures SentFrom(w, k, m.packet)
  {
  }

  lemma LoudStep(w: Work, k: string, i: nat, id: TIEID, seqNr: int)
    requires i < |w.steps| && !Quiet(w.steps[i], k, id, seqNr) && Steady(w, k)
    ensures w.steps[i].Receive? && Speaks(w.steps[i].packet, id, seqNr) && ArrivesAt(w, k, w.steps[i].packet)
  {
    hide Speaks;
    assert w.steps[i] == Receive(k, w.steps[i].packet);
  }

  lemma Arrival(v: Work, levels: set<Level>, l: string, p: Packet, id: TIEID, seqNr: int, level: Level)
    requires SoundRun(v, levels, id) && PortUp(v, l, level) && v.states[0].self != id.originator
    requires p.TIEMsg? && p.tie.header.id == id && Speaks(p, id, seqNr) && ArrivesAt(v, l, p)
    requires ShouldAcceptTIE(id, v.states[0].self, v.states[0].level, level)
    ensures Comes(v, id, seqNr)
  {
    hide Good, Accurate, StepWithin, ShouldAcceptTIE, TIEHandled;
    var t :| 0 <= t < |v.steps| && v.steps[t] == Receive(l, p);
    GoodAt(v, levels, id, t);
    InfoAt(v, levels, id, l, t);
    assert WorksAt(v, levels, t);
    TakenIn(v.states[t], l, p.tie, v.states[t + 1], levels);
    assert Has(v.states[t + 1], id, seqNr);
  }

  /** A TIE that x came to hold during its run waits for y, unless it came from y. */
  lemma WaitsFor(sys: System, x: SystemID, y: SystemID, id: TIEID, seqNr: int, t: nat)
    requires x != id.originator && NodeRuns(sys, x, id) && NodeRuns(sys, y, id) && LinkRuns(sys, x, y)
    requires 0 < t < |sys.runs[x].states| && Has(sys.runs[x].states[t], id, seqNr)
    requires !Has(sys.runs[x].states[t - 1], id, seqNr)
    requires ShouldFloodTIE(id, x, sys.net.LevelOf(x), sys.net.LevelOf(y))
    ensures Comes(sys.runs[y], id, seqNr) || Queued(sys.runs[x].states[t], sys.port[(x, y)], id)
    ensures sys.runs[x].steps[t - 1].Receive?
  {
    hide Good, Accurate, Has, Next, StepWithin, Speaks, ShouldFloodTIE, SentFrom;
    var w, k := sys.runs[x], sys.port[(x, y)];
    var s, step := w.states[t - 1], w.steps[t - 1];
    GoodAt(w, sys.levels, id, t - 1);
    InfoAt(w, sys.levels, id, k, t - 1);
    assert WorksAt(w, sys.levels, t - 1);
    Gained(s, step, w.states[t], id, seqNr, sys.levels);
    if step.rxIf == k {
      assert w.steps[t - 1] == Receive(k, step.packet);
      assert ArrivesAt(w, k, step.packet);
      SpeakerRight(sys, x, y, step.packet, id, seqNr);
    } else {
      assert FloodExact.PassedOn(s, step.rxIf, id, k);
    }
  }

  /** One hop: who comes to hold the TIE and may flood it brings it to every neighbour that may accept it. */
  lemma HopDelivers(sys: System, x: SystemID, y: SystemID, id: TIEID, seqNr: int)
    requires NodeRuns(sys, x, id) && NodeRuns(sys, y, id) && LinkRuns(sys, x, y) && LinkRuns(sys, y, x)
    requires y != id.originator && FloodHop(sys.net, id, x, y)
    requires Has(sys.runs[x].states[0], id, seqNr) ==> Ready(sys, x, id)
    requires x == id.originator ==> Has(sys.runs[x].states[0], id, seqNr)
    requires Comes(sys.runs[x], id, seqNr)
    ensures Comes(sys.runs[y], id, seqNr)
  {
    hide Good, Accurate, Has, SoundRun, LinkRuns, Speaks, ShouldFloodTIE, ShouldAcceptTIE, Queued;
    var w := sys.runs[x];
    RunLengths(w, sys.levels, id);
    if Has(w.states[0], id, seqNr) {
      var d :| 0 <= d < |w.steps| && w.steps[d].Drain?;
      Passes(sys, x, y, id, seqNr, 0, d);
    } else {
      var some :| 0 <= some < |w.states| && Has(w.states[some], id, seqNr);
      var t := FirstHas(w, id, seqNr, some);
      WaitsFor(sys, x, y, id, seqNr, t);
      if !Comes(sys.runs[y], id, seqNr) {
        var d :| t - 1 < d < |w.steps| && w.steps[d].Drain?;
        Passes(sys, x, y, id, seqNr, t, d);
      }
    }
  }

  lemma RunLengths(w: Work, levels: set<Level>, id: TIEID)
    requires SoundRun(w, levels, id)
    ensures |w.states| == |w.steps| + 1
  {
  }

  lemma {:induction false} PathDelivers(sys: System, id: TIEID, seqNr: int, path: seq<SystemID>)
    requires Running(sys, id) && Starts(sys, id, seqNr) && FloodPath(sys.net, id, path)
    ensures path[|path| - 1] in sys.Nodes() && Comes(sys.runs[path[|path| - 1]], id, seqNr)
    decreases |path|
  {
    hide NodeRuns, LinkRuns, Ready, FloodHop, Comes, Has, Net.Valid;
    var o := id.originator;
    OriginHas(sys, id, seqNr);
    if |path| > 1 {
      var init, x, y := path[..|path| - 1], path[|path| - 2], path[|path| - 1];
      assert FloodPath(sys.net, id, init);
      PathDelivers(sys, id, seqNr, init);
      assert FloodHop(sys.net, id, path[|path| - 2], path[|path| - 2 + 1]);
      LinkedBoth(sys.net, id, x, y);
      if y != o {
        HopDelivers(sys, x, y, id, seqNr);
      }
    }
  }

  lemma OriginHas(sys: System, id: TIEID, seqNr: int)
    requires Running(sys, id) && Starts(sys, id, seqNr)
    ensures id.originator in sys.runs && Comes(sys.runs[id.originator], id, seqNr)
  {
    hide LinkRuns, Ready, Has, SoundRun, DrainsLater;
    assert NodeRuns(sys, id.originator, id);
    RunLengths(sys.runs[id.originator], sys.levels, id);
    assert 0 < |sys.runs[id.originator].states|;
  }

  lemma LinkedBoth(f: Net, id: TIEID, x: SystemID, y: SystemID)
    requires f.Valid() && FloodHop(f, id, x, y)
    ensures f.Linked(x, y) && f.Linked(y, x) && x in f.spines + f.leaves && y in f.spines + f.leaves
  {
    hide ShouldFloodTIE, ShouldAcceptTIE;
  }

  /**
   * Flooding reaches every node it may reach. In a fabric whose nodes run in any interleaving over links that lose and
   * forge nothing, where a drain follows every reception and the TIE does not run out, every node to which the scope
   * rules let the TIE be passed hop by hop ends with it, in the version it started in or a later one.
   */
  lemma FloodingReaches(sys: System, id: TIEID, seqNr: int, x: SystemID)
    requires Running(sys, id) && Starts(sys, id, seqNr) && Reaches(sys.net, id, x)
    ensures x in sys.Nodes() && x in sys.runs && sys.runs[x].states != []
    ensures Has(Final(sys.runs[x].states), id, seqNr)
  {
    hide LinkRuns, Ready, FloodHop, Has, Net.Valid, Starts;
    var path :| FloodPath(sys.net, id, path) && path[|path| - 1] == x;
    PathDelivers(sys, id, seqNr, path);
    assert NodeRuns(sys, x, id);
    RunLengths(sys.runs[x], sys.levels, id);
    var t :| 0 <= t < |sys.runs[x].states| && Has(sys.runs[x].states[t], id, seqNr);
    HasOn(sys.runs[x], sys.levels, id, seqNr, t, |sys.runs[x].states| - 1);
  }
}
