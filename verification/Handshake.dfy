/** Any number of honest LIE machines on a network that loses, repeats and reorders. */
module Handshake {
  import opened RiftTypes
  import opened LieFsm
  import opened LieInvariants

  // A world: the machines, and every LIE that was ever sent.
  datatype World = World(fsms: seq<Fsm>, net: set<Lie>)

  datatype Move = Move(who: nat, input: Input)

  function SentIn(trace: seq<Act>): set<Lie> { set a | a in trace && a.Sends? :: a.lie }

  /** One machine takes one input; a packet is any LIE ever sent, from any address, as often as the network likes. */
  ghost predicate Moves(w: World, m: Move, w': World) {
    && m.who < |w.fsms|
    && (m.input.Packet? && m.input.lie.Some? ==> m.input.lie.value in w.net)
    && w'.fsms == w.fsms[m.who := Apply(w.fsms[m.who], m.input)]
    && w'.net == w.net + SentIn(w'.fsms[m.who].trace)
  }

  /** No two machines share both system and link identity. */
  ghost predicate Distinct(w: World) {
    forall i, j :: 0 <= i < j < |w.fsms| ==>
      w.fsms[i].me.systemID != w.fsms[j].me.systemID || w.fsms[i].me.localID != w.fsms[j].me.localID
  }

  ghost predicate Begins(w: World) {
    w.net == {} && Distinct(w) && forall i :: 0 <= i < |w.fsms| ==> w.fsms[i] == NewFsm(w.fsms[i].me)
  }

  ghost predicate History(ws: seq<World>, ms: seq<Move>) {
    |ws| == |ms| + 1 && Begins(ws[0]) && forall t :: 0 <= t < |ms| ==> Moves(ws[t], ms[t], ws[t + 1])
  }

  /** A LIE that came from machine i. */
  ghost predicate SentBy(f: Fsm, lie: Lie) { lie in SentIn(f.trace) }

  /** Everything on the network was sent by some machine, and everything accepted was on the network. */
  ghost predicate Honest(w: World) {
    && (forall lie :: lie in w.net ==> exists i :: 0 <= i < |w.fsms| && SentBy(w.fsms[i], lie))
    && (forall i, a :: 0 <= i < |w.fsms| && a in w.fsms[i].trace && a.Accepts? ==> a.accepted in w.net)
    && (forall i :: 0 <= i < |w.fsms| ==> w.fsms[i].queue == [] && FromNet(w.net, w.fsms[i]) && AtRest(w.fsms[i]))
  }

  ghost predicate FromNet(net: set<Lie>, f: Fsm) {
    && (f.pending.Some? ==> f.pending.value.lie in net)
    && (forall a :: a in f.trace && a.Accepts? ==> a.accepted in net)
  }

  // ---- One machine only accepts what it was handed, and its trace only grows ----

  ghost predicate Extends(f: Fsm, g: Fsm) { g.me == f.me && f.trace <= g.trace }

  /** At most one act a step, and what is accepted is the pending LIE. */
  ghost predicate OneAct(f: Fsm, g: Fsm) {
    && g.me == f.me && g.pending == f.pending && |f.trace| <= |g.trace| <= |f.trace| + 1 && f.trace <= g.trace
    && (|g.trace| > |f.trace| && g.trace[|f.trace|].Accepts? ==>
      f.pending.Some? && g.trace[|f.trace|].accepted == f.pending.value.lie)
  }

  lemma LieOneAct(f: Fsm, now: int)
    ensures OneAct(f, ProcessLIE(f, now))
  {
    hide Silenced, MTUDiffers, LevelRefused, Reflects, MinorFieldsChanged;
  }

  lemma StepFromNet(net: set<Lie>, f: Fsm, now: int)
    requires f.queue != [] && FromNet(net, f)
    ensures FromNet(net, Step(f, now)) && Extends(f, Step(f, now))
  {
    StepOneAct(f, now);
    OneActFromNet(net, f, Step(f, now));
  }

  lemma StepOneAct(f: Fsm, now: int)
    requires f.queue != []
    ensures OneAct(f, Step(f, now))
  {
    hide ProcessLIE, Expired, OwnLie;
    LieOneAct(f.(queue := f.queue[1..]), now);
  }

  lemma OneActFromNet(net: set<Lie>, f: Fsm, g: Fsm)
    requires FromNet(net, f) && OneAct(f, g)
    ensures FromNet(net, g) && Extends(f, g)
  {
    forall a | a in g.trace && a.Accepts? ensures a.accepted in net {
      var i :| 0 <= i < |g.trace| && g.trace[i] == a;
      if i < |f.trace| { assert f.trace[i] == a; }
    }
  }

  lemma {:induction false} DrainFromNet(net: set<Lie>, f: Fsm, now: int)
    requires FromNet(net, f)
    ensures FromNet(net, Drain(f, now)) && Extends(f, Drain(f, now))
    decreases Weight(f.queue)
  {
    hide Step, Weight, FromNet;
    if f.queue != [] {
      StepFromNet(net, f, now);
      StepShrinks(f, now);
      DrainFromNet(net, Step(f, now), now);
    }
  }

  lemma ApplyFromNet(net: set<Lie>, f: Fsm, i: Input)
    requires FromNet(net, f) && (i.Packet? && i.lie.Some? ==> i.lie.value in net)
    ensures FromNet(net, Apply(f, i)) && Extends(f, Apply(f, i))
  {
    hide Drain;
    match i
    case Packet(lie, src, at) => if lie.Some? { DrainFromNet(net, Received(f, lie.value, src), at); }
    case Second(at) => DrainFromNet(net, Push(f, TimerTick), at);
  }

  lemma SentGrows(f: Fsm, g: Fsm)
    requires Extends(f, g)
    ensures SentIn(f.trace) <= SentIn(g.trace)
  {
    assert forall a :: a in f.trace ==> a in g.trace;
  }

  lemma MoveHonest(w: World, m: Move, w': World)
    requires Honest(w) && Distinct(w) && Moves(w, m, w')
    ensures Honest(w') && Distinct(w')
    ensures |w'.fsms| == |w.fsms| && forall i :: 0 <= i < |w.fsms| ==> Extends(w.fsms[i], w'.fsms[i])
  {
    hide Apply, Sound, SentIn;
    var f, g := w.fsms[m.who], w'.fsms[m.who];
    assert g == Apply(f, m.input);
    ApplyFromNet(w.net, f, m.input);
    ApplySound(f, m.input);
    SentGrows(f, g);
    forall lie | lie in w'.net ensures exists i :: 0 <= i < |w'.fsms| && SentBy(w'.fsms[i], lie) {
      if lie in SentIn(g.trace) {
        assert SentBy(w'.fsms[m.who], lie);
      } else {
        var i :| 0 <= i < |w.fsms| && SentBy(w.fsms[i], lie);
        assert SentBy(w'.fsms[i], lie);
      }
    }
  }

  lemma BeginHonest(w: World)
    requires Begins(w)
    ensures Honest(w) && Distinct(w)
  {
  }

  lemma {:induction false} HistoryHonest(ws: seq<World>, ms: seq<Move>, t: nat)
    requires History(ws, ms) && t < |ws|
    ensures Honest(ws[t]) && Distinct(ws[t])
  {
    hide Honest, Distinct, Moves;
    if t == 0 {
      BeginHonest(ws[0]);
    } else {
      HistoryHonest(ws, ms, t - 1);
      MoveHonest(ws[t - 1], ms[t - 1], ws[t]);
    }
  }

  // ---- The guarantee ----

  /**
   * b took a LIE of a's link for its neighbour's, and after that, while holding it as neighbour, sent the reflection.
   */
  ghost predicate Shook(a: Identity, b: Fsm) {
    exists p, q :: 0 <= p < q < |b.trace| && IsFrom(b.trace[p], a.systemID, a.localID) && ReflectsHolding(b.trace[q], a)
  }

  /** The same, and it was a itself that had sent the LIE. */
  ghost predicate ShookWith(a: Fsm, b: Fsm) {
    exists p, q :: && 0 <= p < q < |b.trace| && IsFrom(b.trace[p], a.me.systemID, a.me.localID)
                   && SentBy(a, b.trace[p].accepted) && ReflectsHolding(b.trace[q], a.me)
  }

  predicate ReflectsHolding(x: Act, a: Identity) {
    && x.Sends? && x.lie.neighbor == Some(Reflection(a.systemID, a.localID))
    && x.holding.Some? && x.holding.value.systemID == a.systemID && x.holding.value.linkID == a.localID
  }

  ghost predicate Is(b: Fsm, n: NeighborState) { b.me.systemID == n.systemID && b.me.localID == n.linkID }

  /**
   * In any history, at every report of ThreeWay by a there is one machine that answers to the neighbour's system and
   * link; it is not a itself, and it had already accepted a LIE that a itself had sent, and then sent the reflection
   * while holding a.
   */
  lemma ThreeWayIsMutual(ws: seq<World>, ms: seq<Move>, t: nat, a: nat, x: nat)
    requires History(ws, ms) && t < |ms| && a < |ws[t].fsms|
    requires |ws[t + 1].fsms| == |ws[t].fsms|
    requires |ws[t].fsms[a].trace| <= x < |ws[t + 1].fsms[a].trace|
    requires ws[t + 1].fsms[a].trace[x].Emits? && ws[t + 1].fsms[a].trace[x].state == ThreeWay
    ensures ws[t + 1].fsms[a].trace[x].neighbor.Some?
    ensures exists b :: && 0 <= b < |ws[t].fsms| && b != a
                        && Is(ws[t].fsms[b], ws[t + 1].fsms[a].trace[x].neighbor.value)
                        && ShookWith(ws[t].fsms[a], ws[t].fsms[b])
    ensures var n := ws[t + 1].fsms[a].trace[x].neighbor.value;
            forall b, c :: 0 <= b < c < |ws[t].fsms| ==> !(Is(ws[t].fsms[b], n) && Is(ws[t].fsms[c], n))
  {
    hide Honest, Distinct, Moves, Apply, Shook, ShookWith, Is, Sound;
    HistoryHonest(ws, ms, t);
    HistoryHonest(ws, ms, t + 1);
    assert Moves(ws[t], ms[t], ws[t + 1]);
    MoveHonest(ws[t], ms[t], ws[t + 1]);
    var f := ws[t + 1].fsms[a];
    HonestOne(ws[t + 1], a);
    var seen := ReflectionSeen(f, x);
    var n := f.trace[x].neighbor.value;
    var b := Reflector(ws[t + 1], seen, f.me, n);
    OnlyMover(ws[t], ms[t], ws[t + 1], a, b);
    SentByItself(ws[t], a, b);
    AtMostOne(ws[t], n);
  }

  lemma HonestOne(w: World, i: nat)
    requires Honest(w) && i < |w.fsms|
    ensures AtRest(w.fsms[i]) && forall x :: x in w.fsms[i].trace && x.Accepts? ==> x.accepted in w.net
  {
    hide Sound;
  }

  /** The accepted LIE behind a report of ThreeWay. */
  lemma ReflectionSeen(f: Fsm, x: nat) returns (lie: Lie)
    requires AtRest(f) && x < |f.trace| && f.trace[x].Emits? && f.trace[x].state == ThreeWay
    ensures f.trace[x].neighbor.Some? && Accepts(lie) in f.trace && lie.sender != f.me.systemID && Reflects(f.me, lie)
    ensures lie.sender == f.trace[x].neighbor.value.systemID && lie.localID == f.trace[x].neighbor.value.linkID
  {
    hide LastState, AcceptedAs, QueueSound, PendingReflected, MTUDiffers, LevelRefused;
    assert Justified(f.me, f.trace[..x], f.trace[x]);
    var n := f.trace[x].neighbor.value;
    var a :| a in f.trace[..x] && IsFrom(a, n.systemID, n.linkID) && Reflects(f.me, a.accepted);
    lie := a.accepted;
    var p :| 0 <= p < x && f.trace[..x][p] == a;
    assert f.trace[p] == a && Justified(f.me, f.trace[..p], f.trace[p]);
  }

  /** The machine that sent a LIE, and why its reflection is honest. */
  lemma Reflector(w: World, lie: Lie, a: Identity, n: NeighborState) returns (b: nat)
    requires Honest(w) && lie in w.net && Reflects(a, lie) && lie.sender == n.systemID && lie.localID == n.linkID
    ensures b < |w.fsms| && Is(w.fsms[b], n) && w.fsms[b].me.systemID == n.systemID && Shook(a, w.fsms[b])
  {
    hide Sound, FromNet, Shook;
    b :| 0 <= b < |w.fsms| && SentBy(w.fsms[b], lie);
    WhySent(w.fsms[b], lie, a);
  }

  lemma WhySent(f: Fsm, lie: Lie, a: Identity)
    requires AtRest(f) && SentBy(f, lie) && Reflects(a, lie)
    ensures Shook(a, f) && lie.sender == f.me.systemID && lie.localID == f.me.localID
  {
    hide LastState, QueueSound, PendingReflected;
    var trace := f.trace;
    var s :| s in trace && s.Sends? && s.lie == lie;
    var q :| 0 <= q < |trace| && trace[q] == s;
    assert Justified(f.me, trace[..q], trace[q]);
    var y :| y in trace[..q] && IsFrom(y, a.systemID, a.localID);
    var p :| 0 <= p < q && trace[..q][p] == y;
    assert trace[p] == y;
  }

  /** A machine signs what it sends. */
  lemma Signed(f: Fsm, lie: Lie)
    requires AtRest(f) && SentBy(f, lie)
    ensures lie.sender == f.me.systemID && lie.localID == f.me.localID
  {
    hide LastState, QueueSound, PendingReflected, AcceptedAs;
    var trace := f.trace;
    var s :| s in trace && s.Sends? && s.lie == lie;
    var q :| 0 <= q < |trace| && trace[q] == s;
    assert Justified(f.me, trace[..q], trace[q]);
  }

  /** What b accepted as a's came from a: nobody else signs as a. */
  lemma SentByItself(w: World, a: nat, b: nat)
    requires Honest(w) && Distinct(w) && a < |w.fsms| && b < |w.fsms| && Shook(w.fsms[a].me, w.fsms[b])
    ensures ShookWith(w.fsms[a], w.fsms[b])
  {
    hide Sound, FromNet, SentBy;
    var me, trace := w.fsms[a].me, w.fsms[b].trace;
    var p, q :| 0 <= p < q < |trace| && IsFrom(trace[p], me.systemID, me.localID) && ReflectsHolding(trace[q], me);
    assert trace[p] in trace;
    var c :| 0 <= c < |w.fsms| && SentBy(w.fsms[c], trace[p].accepted);
    Signed(w.fsms[c], trace[p].accepted);
    assert c == a;
  }

  /** The reflector did not move in the step of the report: it had answered before. */
  lemma OnlyMover(w: World, m: Move, w': World, a: nat, b: nat)
    requires Moves(w, m, w') && a < |w.fsms| && b < |w.fsms| && |w.fsms[a].trace| < |w'.fsms[a].trace|
    ensures m.who == a && (b != a ==> w'.fsms[b] == w.fsms[b])
  {
    hide Apply;
  }

  lemma AtMostOne(w: World, n: NeighborState)
    requires Distinct(w)
    ensures forall b, c :: 0 <= b < c < |w.fsms| ==> !(Is(w.fsms[b], n) && Is(w.fsms[c], n))
  {
  }
}
