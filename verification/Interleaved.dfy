/** The lossless round again, with the listing node taking any other steps in between. */
module Interleaved {
  import opened RiftTypes
  import opened Lsdb
  import opened Scope
  import opened TideChunks
  import opened FloodSpec
  import opened FloodInvariants
  import opened TideRound
  import opened Sync

  /** Steps of the listing node from the moment of its TIDEs, and what each puts on the wire. */
  datatype Work = Work(states: seq<Flood>, steps: seq<Step>, outs: seq<seq<Sent>>)

  ghost predicate Works(w: Work, levels: set<Level>) {
    && |w.states| == |w.steps| + 1 && |w.outs| == |w.steps|
    && forall i :: 0 <= i < |w.steps| ==> WorksAt(w, levels, i)
  }

  ghost predicate WorksAt(w: Work, levels: set<Level>, i: nat)
    requires i < |w.steps| && |w.states| == |w.steps| + 1 && |w.outs| == |w.steps|
  {
    Next(w.states[i], w.steps[i], w.states[i + 1]) && StepWithin(w.steps[i], levels)
      && Outputs(w.states[i], w.steps[i], w.outs[i])
  }

  /** Whatever the step is, the adjacency k stays up, and what arrives on it is one of the packets of rs. */
  ghost predicate Undisturbed(step: Step, k: string, rs: seq<Receipt>) {
    && (step.AdjChange? ==> step.ifName != k)
    && (step.Receive? && step.rxIf == k ==> Receipt(k, step.packet) in rs)
  }

  ghost predicate ArrivesAndDrains(w: Work, k: string, p: Packet) {
    exists i, j :: 0 <= i < j < |w.steps| && w.steps[i] == Receive(k, p) && w.steps[j].Drain?
  }

  /**
   * As in Lossless, but a goes through the steps of w: it ages its database, hears other neighbours, originates,
   * drains, in any order. Every packet b asked with arrives, nothing else comes from b, and some drain follows each.
   */
  ghost predicate InterleavedRound(x: Exchange, w: Work) {
    && x.kA in x.a.adjs && x.kB in x.b.adjs
    && TIDEsFor(x.a, x.kA, x.headers, x.chunks) && Arranged(x.arrived, x.chunks)
    && Round(x.b, x.kB, x.arrived, x.listed)
    && x.kB in x.listed.adjs && Drains(x.listed.entries, x.listed.adjs[x.kB], x.asked)
    && OnlyQueues(x.listed, x.drained)
    && DeliversExactly(x.kA, x.asked, x.atA)
    && w.states != [] && w.states[0] == x.a && Final(w.states) == x.a2
    && (forall step :: step in w.steps ==> Undisturbed(step, x.kA, x.atA))
    && (forall r :: r in x.atA ==> ArrivesAndDrains(w, x.kA, r.packet))
    && (forall i, m :: 0 <= i < |w.outs| && m in w.outs[i] && m.ifName == x.a.adjs[x.kA].info.ifName ==>
      m in x.answered)
    && DeliversAll(x.kB, x.answered, x.atB) && Handled(x.drained, x.atB, x.done)
  }

  // ---- The adjacency and its queue through the steps ----

  ghost predicate Keeps(s: Flood, s': Flood, k: string, id: TIEID) {
    k in s.adjs ==> k in s'.adjs && s'.adjs[k].info == s.adjs[k].info && (id in s.adjs[k].tx ==> id in s'.adjs[k].tx)
  }

  lemma TIEKeeps(s: Flood, rx: string, tie: TIEPacket, k: string, id: TIEID)
    ensures Keeps(s, TIEHandled(s, rx, tie), k, id)
  {
    hide ShouldAcceptTIE, ShouldFloodTIE, CompareTIEHeader;
  }

  lemma TIREHeaderKeeps(s: Flood, rx: string, h: HeaderWithLifetime, k: string, id: TIEID)
    requires rx in s.adjs
    requires rx == k && id in s.entries && IDOf(h) == id && h.lifetime != 0 ==>
               CompareTIEHeader(h, s.entries[id].Header()) != 0
    ensures Keeps(s, TIREHeaderHandled(s, rx, h), k, id) && TIREHeaderHandled(s, rx, h).entries == s.entries
  {
    hide CompareTIEHeader;
  }

  lemma {:induction false} TIREKeeps(s: Flood, rx: string, hs: seq<HeaderWithLifetime>, k: string, id: TIEID)
    requires rx == k && id in s.entries ==>
      forall h :: h in hs && IDOf(h) == id && h.lifetime != 0 ==> CompareTIEHeader(h, s.entries[id].Header()) != 0
    ensures Keeps(s, TIREHandled(s, rx, hs), k, id) && TIREHandled(s, rx, hs).entries == s.entries
  {
    hide CompareTIEHeader, TIREHeaderHandled;
    if rx in s.adjs && hs != [] {
      var init, h := hs[..|hs| - 1], hs[|hs| - 1];
      assert hs == init + [h];
      TIREKeeps(s, rx, init, k, id);
      TIREHeaderKeeps(TIREHandled(s, rx, init), rx, h, k, id);
    }
  }

  lemma HeaderKeeps(s: Flood, rx: string, h: HeaderWithLifetime, s': Flood, k: string, id: TIEID, levels: set<Level>)
    requires Good(s, levels) && rx in s.adjs && rx != k && HeaderHandled(s, rx, h, s')
    ensures Keeps(s, s', k, id)
  {
    hide Good, ShouldAcceptTIE, ShouldFloodTIE, CompareTIEHeader, Originates;
    if h.header.id !in s.entries && h.header.id.originator == s.self {
      var mid :| Originates(s, mid) && s' == FloodAll(mid, {h.header.id});
      OriginateKeeps(s, mid, levels);
    }
  }

  lemma {:induction false} HeadersKeep(s: Flood, rx: string, hs: seq<HeaderWithLifetime>, s': Flood, k: string,
                                       id: TIEID, levels: set<Level>)
    requires Good(s, levels) && rx != k && HeadersHandled(s, rx, hs, s')
    ensures Keeps(s, s', k, id)
  {
    hide Good, HeaderHandled;
    if hs != [] {
      var mid :| HeadersHandled(s, rx, hs[..|hs| - 1], mid) && rx in mid.adjs
        && HeaderHandled(mid, rx, hs[|hs| - 1], s');
      HeadersKeep(s, rx, hs[..|hs| - 1], mid, k, id, levels);
      HeadersSettle(s, rx, hs[..|hs| - 1], mid, levels);
      HeaderKeeps(mid, rx, hs[|hs| - 1], s', k, id, levels);
    }
  }

  lemma TIDEKeeps(s: Flood, rx: string, t: Tide, s': Flood, k: string, id: TIEID, levels: set<Level>)
    requires Good(s, levels) && rx != k && TIDEHandled(s, rx, t, s')
    ensures Keeps(s, s', k, id)
  {
    hide Good, HeadersHandled, Unlisted;
    if rx in s.adjs {
      var mid :| HeadersHandled(s, rx, t.headers, mid) && rx in mid.adjs
        && s' == Enqueue(mid, rx, Unlisted(mid, rx, t), {}, {});
      HeadersKeep(s, rx, t.headers, mid, k, id, levels);
    }
  }

  lemma KeepsItself(s: Flood, k: string, id: TIEID)
    ensures Keeps(s, s, k, id)
  {
  }

  lemma ReceiveKeeps(s: Flood, rx: string, p: Packet, s': Flood, k: string, id: TIEID, seqNr: int, levels: set<Level>)
    requires Good(s, levels) && PacketHandled(s, rx, p, s')
    requires id in s.entries && SeqNr(s, id) >= seqNr && (rx == k ==> Behind(id, seqNr, p))
    ensures Keeps(s, s', k, id)
  {
    hide Good, Keeps, TIEHandled, TIREHandled, TIDEHandled, CompareTIEHeader;
    match p
    case TIEMsg(tie) => TIEKeeps(s, rx, tie, k, id);
    case TIREMsg(hs) =>
      forall h | h in hs && rx == k && IDOf(h) == id && h.lifetime != 0
        ensures CompareTIEHeader(h, s.entries[id].Header()) != 0
      {
        HeaderOrder(h, s.entries[id].Header());
        SeqOfHeader(s, id);
      }
      TIREKeeps(s, rx, hs, k, id);
    case TIDEMsg(tide) => TIDEKeeps(s, rx, tide, s', k, id, levels);
    case OtherMsg => KeepsItself(s, k, id);
  }

  lemma SeqOfHeader(s: Flood, id: TIEID)
    requires id in s.entries
    ensures s.entries[id].Header().header.seqNr == SeqNr(s, id)
  {
  }

  lemma AdjChangeKeepsOthers(s: Flood, ifName: string, info: Option<AdjacencyInfo>, s': Flood, k: string, id: TIEID,
                             levels: set<Level>)
    requires Good(s, levels) && (info.Some? ==> info.value.neighborLevel in levels) && AdjChanged(s, ifName, info, s')
    requires ifName != k
    ensures Keeps(s, s', k, id)
  {
    hide Good, Originates, ShouldFloodTIE;
    var mid :| Originates(WithAdjacency(s, ifName, info), mid) && s' == FloodAll(mid, OwnIDs(s));
    AdjacencySet(s, ifName, info, levels);
    OriginateKeeps(WithAdjacency(s, ifName, info), mid, levels);
  }

  /** But for a drain, no step takes a TIE off the queue unless the neighbour said that it has as recent a copy. */
  lemma StepQueue(s: Flood, step: Step, s': Flood, k: string, id: TIEID, seqNr: int, levels: set<Level>)
    requires Good(s, levels) && Next(s, step, s') && StepWithin(step, levels) && !step.Drain?
    requires id in s.entries && SeqNr(s, id) >= seqNr
    requires step.AdjChange? ==> step.ifName != k
    requires step.Receive? && step.rxIf == k ==> Behind(id, seqNr, step.packet)
    ensures Keeps(s, s', k, id)
  {
    hide Good, AdjChanged, PacketHandled, ShouldFloodTIE, Behind, SeqNr;
    match step
    case AdjChange(ifName, info) => AdjChangeKeepsOthers(s, ifName, info, s', k, id, levels);
    case Receive(rx, p) => ReceiveKeeps(s, rx, p, s', k, id, seqNr, levels);
    case _ =>
  }

  /** A request that is answered queues the TIE. */
  lemma RequestStep(s: Flood, k: string, hs: seq<HeaderWithLifetime>, id: TIEID)
    requires k in s.adjs && id in s.entries && Request(id) in hs && Answered(id, s.entries[id].Header())
    requires Behind(id, SeqNr(s, id), TIREMsg(hs))
    ensures Queued(TIREHandled(s, k, hs), k, id)
  {
    hide TIREHandled, Answered;
    TIREHolds(s, k, hs, k, id, s.entries[id]);
  }

  // ---- The whole stretch ----

  /** What holds of a at every moment of its work. */
  ghost predicate Holds(s: Flood, a: Flood, k: string, id: TIEID, seqNr: int, levels: set<Level>) {
    && Good(s, levels) && Accurate(s) && id in s.entries && SeqNr(s, id) >= seqNr
    && k in s.adjs && k in a.adjs && s.adjs[k].info == a.adjs[k].info
  }

  ghost predicate Polite(step: Step, k: string, id: TIEID, seqNr: int) {
    && (step.AdjChange? ==> step.ifName != k)
    && (step.Receive? && step.rxIf == k ==> Behind(id, seqNr, step.packet))
  }

  ghost predicate AllPolite(w: Work, k: string, id: TIEID, seqNr: int) {
    forall i :: 0 <= i < |w.steps| ==> Polite(w.steps[i], k, id, seqNr)
  }

  lemma DrainKeepsInfo(s: Flood, k: string)
    ensures k in s.adjs ==> k in Drained(s).adjs && Drained(s).adjs[k].info == s.adjs[k].info
  {
  }

  lemma {:induction false} HoldsAt(w: Work, levels: set<Level>, k: string, id: TIEID, seqNr: int, i: nat)
    requires Works(w, levels) && i < |w.states| && Holds(w.states[0], w.states[0], k, id, seqNr, levels)
    requires AllPolite(w, k, id, seqNr) && StoredThroughout(w.states, 0, |w.states| - 1, id)
    ensures Holds(w.states[i], w.states[0], k, id, seqNr, levels)
  {
    if i > 0 {
      HoldsAt(w, levels, k, id, seqNr, i - 1);
      assert WorksAt(w, levels, i - 1) && Polite(w.steps[i - 1], k, id, seqNr);
      HoldsOn(w.states[i - 1], w.steps[i - 1], w.states[i], w.states[0], k, id, seqNr, levels);
    }
  }

  lemma HoldsOn(s: Flood, step: Step, s': Flood, a: Flood, k: string, id: TIEID, seqNr: int, levels: set<Level>)
    requires Holds(s, a, k, id, seqNr, levels) && Next(s, step, s') && StepWithin(step, levels)
    requires Polite(step, k, id, seqNr) && id in s'.entries
    ensures Holds(s', a, k, id, seqNr, levels)
  {
    hide Good, Accurate, StepWithin, Behind;
    StepKeeps(s, step, s', levels);
    if step.Drain? {
      DrainKeepsInfo(s, k);
    } else {
      StepQueue(s, step, s', k, id, seqNr, levels);
    }
    hide Next;
  }

  /** Once queued, the TIE is still queued at the next drain. */
  lemma {:induction false} FirstDrain(w: Work, levels: set<Level>, k: string, id: TIEID, seqNr: int, i: nat, j: nat)
    returns (d: nat)
    requires Works(w, levels) && i <= j < |w.steps| && w.steps[j].Drain?
    requires Holds(w.states[0], w.states[0], k, id, seqNr, levels)
    requires AllPolite(w, k, id, seqNr) && StoredThroughout(w.states, 0, |w.states| - 1, id)
    requires Queued(w.states[i], k, id)
    ensures i <= d <= j && w.steps[d].Drain? && Queued(w.states[d], k, id)
    decreases j - i
  {
    hide Holds, Good, Next, StepWithin, Behind;
    if w.steps[i].Drain? {
      d := i;
    } else {
      HoldsAt(w, levels, k, id, seqNr, i);
      assert WorksAt(w, levels, i) && Polite(w.steps[i], k, id, seqNr);
      QueuedOn(w.states[i], w.steps[i], w.states[i + 1], w.states[0], k, id, seqNr, levels);
      d := FirstDrain(w, levels, k, id, seqNr, i + 1, j);
    }
  }

  lemma QueuedOn(s: Flood, step: Step, s': Flood, a: Flood, k: string, id: TIEID, seqNr: int, levels: set<Level>)
    requires Holds(s, a, k, id, seqNr, levels) && Next(s, step, s') && StepWithin(step, levels)
    requires Polite(step, k, id, seqNr)
    requires !step.Drain? && Queued(s, k, id)
    ensures Queued(s', k, id)
  {
    hide Good, Accurate, StepWithin, Behind, Next;
    StepQueue(s, step, s', k, id, seqNr, levels);
  }

  lemma {:induction false} DrainOfEach(s: Flood, order: seq<string>, out: seq<Sent>, k: string)
    returns (part: seq<Sent>)
    requires DrainsInOrder(s, order, out) && k in order
    ensures k in s.adjs && Drains(s.entries, s.adjs[k], part) && forall m :: m in part ==> m in out
    decreases |order|
  {
    hide Drains;
    var before, last :| DrainsNext(s, Final(order), before, last, out)
      && DrainsInOrder(s, order[..|order| - 1], before);
    if Final(order) == k {
      part := last;
    } else {
      assert order == order[..|order| - 1] + [Final(order)];
      part := DrainOfEach(s, order[..|order| - 1], before, k);
    }
  }

  /** A drain sends what is queued on the adjacency. */
  lemma DrainSends(s: Flood, out: seq<Sent>, k: string, id: TIEID)
    requires Outputs(s, Drain, out) && Queued(s, k, id) && id in s.entries
    ensures exists m :: m in out && m.packet == TIEMsg(s.entries[id].packet) && m.ifName == s.adjs[k].info.ifName
  {
    hide Drains, DrainsInOrder;
    var order :| OrderOf(s, order) && DrainsInOrder(s, order, out);
    assert k in Elements(order);
    var part := DrainOfEach(s, order, out, k);
    var acks, reqs, ties := DrainParts(s.entries, s.adjs[k], part);
    var m := Sent(s.adjs[k].info.ifName, TIEMsg(s.entries[id].packet), s.entries[id].lifetime);
    assert m in Elements(ties);
    assert m in part;
  }

  lemma BehindMore(id: TIEID, seqNr: int, more: int, p: Packet)
    requires Behind(id, seqNr, p) && seqNr <= more
    ensures Behind(id, more, p)
  {
  }

  /** a sends the TIE, at the listed sequence number or a later one, after the request arrived. */
  lemma Answers(w: Work, levels: set<Level>, k: string, id: TIEID, seqNr: int, hs: seq<HeaderWithLifetime>)
    returns (d: nat)
    requires Works(w, levels) && Holds(w.states[0], w.states[0], k, id, seqNr, levels)
    requires AllPolite(w, k, id, seqNr) && StoredThroughout(w.states, 0, |w.states| - 1, id)
    requires forall i :: 0 <= i < |w.states| && id in w.states[i].entries ==>
               Answered(id, w.states[i].entries[id].Header())
    requires Request(id) in hs && ArrivesAndDrains(w, k, TIREMsg(hs))
    ensures d < |w.steps| && id in w.states[d].entries && SeqNr(w.states[d], id) >= seqNr
    ensures w.states[d].entries[id].packet.header.id == id
    ensures exists m :: m in w.outs[d] && m.packet == TIEMsg(w.states[d].entries[id].packet) && m.ifName ==
              w.states[0].adjs[k].info.ifName
  {
    hide Good, Accurate, Answered, Behind, StepWithin, Outputs, TIREHandled, TIEHandled, TIDEHandled;
    var i, j :| 0 <= i < j < |w.steps| && w.steps[i] == Receive(k, TIREMsg(hs)) && w.steps[j].Drain?;
    HoldsAt(w, levels, k, id, seqNr, i);
    assert WorksAt(w, levels, i) && Polite(w.steps[i], k, id, seqNr);
    BehindMore(id, seqNr, SeqNr(w.states[i], id), TIREMsg(hs));
    RequestStep(w.states[i], k, hs, id);
    d := FirstDrain(w, levels, k, id, seqNr, i + 1, j);
    HoldsAt(w, levels, k, id, seqNr, d);
    assert WorksAt(w, levels, d);
    DrainSends(w.states[d], w.outs[d], k, id);
    FiledOwn(w.states[d], id, levels);
  }

  lemma FiledOwn(s: Flood, id: TIEID, levels: set<Level>)
    requires Good(s, levels) && id in s.entries
    ensures s.entries[id].packet.header.id == id
  {
    hide ForeignAcceptable, LevelsWithin, OwnAlive, OwnOriginated;
  }

  /** A positive sequence number is always answered. */
  lemma PositiveAnswered(id: TIEID, h: HeaderWithLifetime)
    requires h.header.seqNr > 0
    ensures Answered(id, h)
  {
    HeaderOrder(Request(id), h);
  }

  // ---- The round ----

  lemma AskedPolitely(x: Exchange, w: Work, id: TIEID, seqNr: int)
    requires InterleavedRound(x, w)
    requires forall m :: m in x.asked ==> Behind(id, seqNr, m.packet)
    ensures AllPolite(w, x.kA, id, seqNr)
  {
    hide Behind, TIDEsFor, Arranged, Round, Drains, OnlyQueues, DeliversAll, Handled, ArrivesAndDrains;
    forall i | 0 <= i < |w.steps| ensures Polite(w.steps[i], x.kA, id, seqNr) {
      var step := w.steps[i];
      assert Undisturbed(step, x.kA, x.atA);
      if step.Receive? && step.rxIf == x.kA {
        assert Receipt(x.kA, step.packet) in Elements(x.atA);
      }
    }
  }

  lemma RequestComes(x: Exchange, w: Work, id: TIEID) returns (hs: seq<HeaderWithLifetime>)
    requires InterleavedRound(x, w)
    requires exists m :: m in x.asked && m.packet.TIREMsg? && Request(id) in m.packet.headers
    ensures Request(id) in hs && ArrivesAndDrains(w, x.kA, TIREMsg(hs))
  {
    hide TIDEsFor, Arranged, Round, Drains, OnlyQueues, DeliversAll, Handled, ArrivesAndDrains, Undisturbed;
    var m :| m in x.asked && m.packet.TIREMsg? && Request(id) in m.packet.headers;
    assert Receipt(x.kA, m.packet) in Elements(x.atA);
    hs := m.packet.headers;
  }

  lemma AnswerComes(x: Exchange, w: Work, d: nat, tie: TIEPacket)
    requires InterleavedRound(x, w) && d < |w.outs|
    requires exists m :: m in w.outs[d] && m.packet == TIEMsg(tie) && m.ifName == x.a.adjs[x.kA].info.ifName
    ensures Receipt(x.kB, TIEMsg(tie)) in x.atB
  {
    hide TIDEsFor, Arranged, Round, Drains, OnlyQueues, DeliversExactly, Handled, ArrivesAndDrains, Undisturbed;
    var m :| m in w.outs[d] && m.packet == TIEMsg(tie) && m.ifName == x.a.adjs[x.kA].info.ifName;
    assert m in x.answered;
  }

  /** A TIE of a's own stays stored all along. */
  lemma {:induction false} OwnStored(w: Work, levels: set<Level>, id: TIEID, i: nat)
    requires Works(w, levels) && i < |w.states| && Good(w.states[0], levels) && Accurate(w.states[0])
    requires id in w.states[0].entries && Own(w.states[0], id)
    ensures Good(w.states[i], levels) && Accurate(w.states[i]) && id in w.states[i].entries && Own(w.states[i], id)
  {
    hide Good, Accurate, Next, StepWithin;
    if i > 0 {
      OwnStored(w, levels, id, i - 1);
      assert WorksAt(w, levels, i - 1);
      StepKeeps(w.states[i - 1], w.steps[i - 1], w.states[i], levels);
    }
  }

  /** While the listing node works a keeps the TIE, and would answer a request for it. */
  ghost predicate StaysAnswerable(w: Work, id: TIEID) {
    forall i :: 0 <= i < |w.states| ==> id in w.states[i].entries && Answered(id, w.states[i].entries[id].Header())
  }

  /** So it does when the TIE is its own and has a positive sequence number. */
  lemma OwnStaysAnswerable(w: Work, levels: set<Level>, id: TIEID)
    requires Works(w, levels) && Good(w.states[0], levels) && Accurate(w.states[0])
    requires id in w.states[0].entries && Own(w.states[0], id) && SeqNr(w.states[0], id) > 0
    ensures StaysAnswerable(w, id)
  {
    hide Good, Accurate, Works, Answered, SeqNr;
    forall i | 0 <= i < |w.states| ensures id in w.states[i].entries && Answered(id, w.states[i].entries[id].Header()) {
      OwnStored(w, levels, id, i);
      OwnAdvances(w, levels, id, i);
      SeqOfHeader(w.states[i], id);
      PositiveAnswered(id, w.states[i].entries[id].Header());
    }
  }

  lemma {:induction false} OwnAdvances(w: Work, levels: set<Level>, id: TIEID, i: nat)
    requires Works(w, levels) && i < |w.states| && Good(w.states[0], levels) && Accurate(w.states[0])
    requires id in w.states[0].entries && Own(w.states[0], id)
    ensures id in w.states[i].entries && SeqNr(w.states[0], id) <= SeqNr(w.states[i], id)
  {
    hide Good, Accurate, Next, StepWithin;
    OwnStored(w, levels, id, i);
    if i > 0 {
      OwnAdvances(w, levels, id, i - 1);
      OwnStored(w, levels, id, i - 1);
      assert WorksAt(w, levels, i - 1);
      StepKeeps(w.states[i - 1], w.steps[i - 1], w.states[i], levels);
    }
  }

  /**
   * One round suffices also when a does not wait: whatever steps it takes between its TIDEs and the drain after a
   * request, b ends with every listed TIE that a keeps, b accepts and b did not originate, at the listed sequence
   * number or later.
   */
  lemma InterleavedRoundSuffices(x: Exchange, w: Work, levelsA: set<Level>, levelsB: set<Level>, h: HeaderWithLifetime)
    requires Good(x.a, levelsA) && Accurate(x.a) && Good(x.b, levelsB) && Works(w, levelsA) && InterleavedRound(x, w)
    requires h in x.headers && Accepts(x.b, x.kB, IDOf(h)) && StaysAnswerable(w, IDOf(h))
    ensures Has(x.done, IDOf(h), h.header.seqNr)
  {
    var id, seqNr := IDOf(h), h.header.seqNr;
    Parts(x, w);
    ListedHeld(x.a, x.kA, x.headers, x.chunks, h, levelsA);
    hide Good, Accurate, Works, Answered, Accepts, Has, InterleavedRound, Round, Drains, Handled, TIDEsFor, Arranged,
      OnlyQueues, Behind,
      StoredThroughout, AllPolite, ArrivesAndDrains, DeliversAll, DeliversExactly;
    AfterListing(x, levelsB, h);
    SettlesAccepts(x.b, x.drained, x.kB, id);
    if Has(x.b, id, seqNr) {
      SettlesHas(x.b, x.drained, id, seqNr);
      DeliveredIsHeld(x.drained, x.atB, x.done, x.kB, x.a.entries[id].packet, levelsB);
      SettlesHas(x.drained, x.done, id, seqNr);
    } else {
      NotHad(x.b, x.listed, x.kB, id, seqNr, levelsB);
      DrainSays(x.listed, x.kB, x.asked, id, seqNr);
      var tie := TIECrosses(x, w, levelsA, id, seqNr);
      DeliveredIsHeld(x.drained, x.atB, x.done, x.kB, tie, levelsB);
      HasLess(x.done, id, tie.header.seqNr, seqNr);
    }
  }

  /** What b asks for, a sends, at seqNr or later, and it arrives. */
  lemma TIECrosses(x: Exchange, w: Work, levelsA: set<Level>, id: TIEID, seqNr: int) returns (tie: TIEPacket)
    requires Works(w, levelsA) && InterleavedRound(x, w) && StaysAnswerable(w, id)
    requires w.states != [] && Holds(w.states[0], w.states[0], x.kA, id, seqNr, levelsA)
    requires forall m :: m in x.asked ==> Behind(id, seqNr, m.packet)
    requires exists m :: m in x.asked && m.packet.TIREMsg? && Request(id) in m.packet.headers
    ensures tie.header.id == id && tie.header.seqNr >= seqNr && Receipt(x.kB, TIEMsg(tie)) in x.atB
  {
    Parts(x, w);
    hide Works, Answered, InterleavedRound, Behind, StoredThroughout, AllPolite, ArrivesAndDrains, Holds;
    AskedPolitely(x, w, id, seqNr);
    var hs := RequestComes(x, w, id);
    StoredAll(w, id);
    var d := Answers(w, levelsA, x.kA, id, seqNr, hs);
    tie := w.states[d].entries[id].packet;
    assert |w.outs| == |w.steps| by { LengthsMatch(w, levelsA); }
    AnswerComes(x, w, d, tie);
  }

  lemma LengthsMatch(w: Work, levels: set<Level>)
    requires Works(w, levels)
    ensures |w.outs| == |w.steps|
  {
  }

  lemma Parts(x: Exchange, w: Work)
    requires InterleavedRound(x, w)
    ensures x.kA in x.a.adjs && x.kB in x.b.adjs
    ensures TIDEsFor(x.a, x.kA, x.headers, x.chunks) && Arranged(x.arrived, x.chunks)
    ensures Round(x.b, x.kB, x.arrived, x.listed)
    ensures x.kB in x.listed.adjs && Drains(x.listed.entries, x.listed.adjs[x.kB], x.asked)
    ensures OnlyQueues(x.listed, x.drained)
    ensures w.states != [] && w.states[0] == x.a
    ensures Handled(x.drained, x.atB, x.done)
  {
    hide TIDEsFor, Arranged, Round, Drains, OnlyQueues, DeliversExactly, DeliversAll, Handled, ArrivesAndDrains,
      Undisturbed;
  }

  lemma StoredAll(w: Work, id: TIEID)
    requires StaysAnswerable(w, id) && w.states != []
    ensures StoredThroughout(w.states, 0, |w.states| - 1, id)
    ensures forall i :: 0 <= i < |w.states| && id in w.states[i].entries ==>
              Answered(id, w.states[i].entries[id].Header())
  {
    hide Answered;
  }

  lemma HasLess(s: Flood, id: TIEID, more: int, seqNr: int)
    requires Has(s, id, more) && seqNr <= more
    ensures Has(s, id, seqNr)
  {
  }
}
