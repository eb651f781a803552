/** What one LIE and one second do to a machine at rest, as decision tables apart from the event tables. */
module LieExact {
  import opened RiftTypes
  import opened LieFsm
  import opened LieInvariants

  // ---- The decision tables ----

  // The machine without a neighbour.
  function Alone(f: Fsm): Fsm { f.(neighbor := None, lastRcvd := None, holdtime := 0) }

  function Reports(f: Fsm, s: State): Fsm { f.(state := s, trace := f.trace + [Emits(s, f.neighbor)]) }

  // Into the wait for multiple neighbours, which lasts 12 seconds.
  function Waits(f: Fsm, now: int): Fsm { Reports(f, MultipleNeighborsWait).(deadline := Some(now + 12_000_000_000)) }

  /** A LIE of another version than 8, of the machine itself or of nobody. */
  predicate Unheard(me: Identity, lie: Lie) { lie.major != 8 || lie.sender == me.systemID || lie.sender == 0 }

  /** An MTU other than 1400, no level, or a level more than one away between two nodes that are no leaves. */
  predicate Refused(me: Identity, lie: Lie) {
    || (lie.mtu.Some? && lie.mtu.value != 1400)
    || lie.level.None?
    || (me.level != 0 && lie.level.value != 0 && !(-1 <= me.level - lie.level.value <= 1))
  }

  // With the LIE every second sends: version 8, flood port 915, a hold time of 3 seconds, the neighbour reflected.
  function Announced(f: Fsm): Fsm {
    var reflection := match f.neighbor case None => None case Some(n) => Some(Reflection(n.systemID, n.linkID));
    f.(trace := f.trace + [Sends(Lie(8, f.me.systemID, Some(f.me.level), f.me.nodeName, f.me.localID, 915, None, 3,
                                     reflection), f.neighbor)])
  }

  /** What is left to do when the sender is the neighbour held, at the same level and address. */
  function Answered(f: Fsm, lie: Lie, now: int): Fsm {
    match lie.neighbor
    case None => if f.state == ThreeWay then Reports(f, TwoWay) else f
    case Some(Reflection(originator, remoteID)) =>
      if originator != f.me.systemID || remoteID != f.me.localID then Waits(f, now)
      else if f.state == TwoWay then Reports(f, ThreeWay) else f
  }

  function Met(f: Fsm, lie: Lie, src: Addr): Fsm
    requires lie.level.Some?
  {
    f.(neighbor := Some(NeighborState(lie.sender, lie.level.value, lie.localID, src, lie.name, lie.floodPort,
                                      lie.holdtime)),
       trace := f.trace + [Accepts(lie)])
  }

  /** A LIE that is not refused, in OneWay, TwoWay or ThreeWay. */
  function Heard(f: Fsm, lie: Lie, src: Addr, now: int): Fsm
    requires lie.level.Some?
  {
    var g := f.(lastRcvd := Some(now), holdtime := lie.holdtime * 1_000_000_000);
    match g.neighbor
    case None =>
      var h := Met(g, lie, src);
      if f.state == OneWay then Announced(Reports(h, TwoWay))
      else Waits(h, now)
    case Some(n) =>
      if n.systemID != lie.sender then Waits(g, now)
      else if n.level != lie.level.value || n.address != src then Reports(Alone(g), OneWay)
      else Answered(Met(g, lie, src), lie, now)
  }

  /** The whole effect of a LIE. */
  function Handled(f: Fsm, lie: Lie, src: Addr, now: int): Fsm {
    var g := f.(pending := Some(Pending(lie, src)));
    if f.state == MultipleNeighborsWait then g
    else if Unheard(f.me, lie) then Alone(g)
    else if Refused(f.me, lie) then if f.state == OneWay then Alone(g) else Reports(Alone(g), OneWay)
    else Heard(g, lie, src, now)
  }

  /** The whole effect of a second. */
  function Ticked(f: Fsm, now: int): Fsm {
    if f.state == MultipleNeighborsWait then
      if f.deadline.Some? && f.deadline.value < now then Reports(Alone(f), OneWay) else f
    else if f.state != OneWay && f.lastRcvd.Some? && f.holdtime != 0 && f.lastRcvd.value + f.holdtime < now then
      Reports(Alone(Announced(f)), OneWay)
    else Announced(f)
  }

  // ---- Draining a few events ----

  lemma Pop(f: Fsm, now: int)
    requires f.queue != []
    ensures Drain(f, now) == Drain(ProcessEvent(f.(queue := f.queue[1..]), f.queue[0], now), now)
  {
    hide ProcessEvent, Drain;
    DrainStep(f, now);
  }

  /** Events that change nothing in f. */
  predicate Ignored(f: Fsm, ev: Event, now: int) {
    match f.state
    case OneWay => ev == UpdateZTPOffer || ev == MTUMismatch || ev == UnacceptableHeader
    case TwoWay => ev == UpdateZTPOffer || ev == NeighborChangedMinorFields
    case ThreeWay => ev == UpdateZTPOffer || ev == NeighborChangedMinorFields || ev == ValidReflection
    case MultipleNeighborsWait =>
      || ev == ValidReflection || ev == NeighborDroppedReflection || ev == SendLie
      || (ev == MultipleNeighbors && f.deadline == Some(now + 12_000_000_000))
  }

  lemma IgnoredStep(f: Fsm, ev: Event, now: int)
    requires Ignored(f, ev, now)
    ensures ProcessEvent(f, ev, now) == f
  {
  }

  lemma {:induction false} QuietDrain(f: Fsm, now: int)
    requires forall ev :: ev in f.queue ==> Ignored(f, ev, now)
    ensures Drain(f, now) == f.(queue := [])
    decreases |f.queue|
  {
    hide ProcessEvent, Drain, Ignored;
    if f.queue == [] {
      DrainNothing(f, now);
    } else {
      var g := f.(queue := f.queue[1..]);
      Pop(f, now);
      assert f.queue[0] in f.queue;
      SameButQueue(f, g, f.queue[0], now);
      IgnoredStep(g, f.queue[0], now);
      forall ev | ev in g.queue ensures Ignored(g, ev, now) {
        SameButQueue(f, g, ev, now);
      }
      QuietDrain(g, now);
    }
  }

  lemma SameButQueue(f: Fsm, g: Fsm, ev: Event, now: int)
    requires g == f.(queue := g.queue)
    ensures Ignored(f, ev, now) <==> Ignored(g, ev, now)
  {
  }

  /** Ignored events, one that counts, and more. */
  lemma {:induction false} QuietUntil(f: Fsm, k: nat, now: int)
    requires k < |f.queue| && forall i :: 0 <= i < k ==> Ignored(f, f.queue[i], now)
    ensures Drain(f, now) == Drain(ProcessEvent(f.(queue := f.queue[k + 1..]), f.queue[k], now), now)
    decreases k
  {
    hide ProcessEvent, Drain, Ignored;
    var g := f.(queue := f.queue[1..]);
    Pop(f, now);
    if k > 0 {
      SameButQueue(f, g, f.queue[0], now);
      IgnoredStep(g, f.queue[0], now);
      forall i | 0 <= i < k - 1 ensures Ignored(g, g.queue[i], now) {
        SameButQueue(f, g, f.queue[i + 1], now);
      }
      QuietUntil(g, k - 1, now);
      assert g.queue[k..] == f.queue[k + 1..];
      assert g.(queue := g.queue[k..]) == f.(queue := f.queue[k + 1..]);
    }
  }

  lemma FirstStep(f: Fsm, lie: Lie, src: Addr, now: int)
    requires f.queue == []
    ensures HandlePacket(f, Some(lie), src, now) ==
              Drain(ProcessEvent(f.(pending := Some(Pending(lie, src))), LieRcvd, now), now)
  {
    hide ProcessEvent, Drain;
    var g := Received(f, lie, src);
    assert g.queue == [LieRcvd] && g.queue[1..] == [];
    Pop(g, now);
    assert g.(queue := []) == f.(pending := Some(Pending(lie, src)));
  }

  // ---- The cases ----

  lemma UnheardIsSilenced(me: Identity, lie: Lie)
    ensures Unheard(me, lie) <==> Silenced(me, lie)
    ensures Refused(me, lie) <==> MTUDiffers(lie) || LevelRefused(me, lie)
  {
  }

  lemma RefusedCase(f: Fsm, lie: Lie, src: Addr, now: int)
    requires f.queue == [] && f.state != MultipleNeighborsWait && !Unheard(f.me, lie) && Refused(f.me, lie)
    ensures HandlePacket(f, Some(lie), src, now) == Handled(f, lie, src, now)
  {
    hide Drain, Unheard, Refused, Silenced, MTUDiffers, LevelRefused;
    UnheardIsSilenced(f.me, lie);
    FirstStep(f, lie, src, now);
    var g := Alone(f.(pending := Some(Pending(lie, src))));
    var last := if MTUDiffers(lie) then MTUMismatch else UnacceptableHeader;
    var h := g.(queue := [UpdateZTPOffer, last]);
    assert ProcessEvent(f.(pending := Some(Pending(lie, src))), LieRcvd, now) == h;
    if f.state == OneWay {
      QuietDrain(h, now);
    } else {
      QuietUntil(h, 1, now);
      assert h.queue[2..] == [];
      assert ProcessEvent(g, last, now) == Reports(Alone(g), OneWay);
      DrainNothing(Reports(Alone(g), OneWay), now);
    }
  }

  lemma UnheardCase(f: Fsm, lie: Lie, src: Addr, now: int)
    requires f.queue == [] && (f.state == MultipleNeighborsWait || Unheard(f.me, lie))
    ensures HandlePacket(f, Some(lie), src, now) == Handled(f, lie, src, now)
  {
    hide Drain, Silenced, MTUDiffers, LevelRefused, Unheard, Refused;
    UnheardIsSilenced(f.me, lie);
    FirstStep(f, lie, src, now);
    DrainNothing(Handled(f, lie, src, now), now);
  }

  lemma UsableStep(f: Fsm, lie: Lie, src: Addr, now: int)
    requires f.queue == [] && f.state != MultipleNeighborsWait && !Unheard(f.me, lie) && !Refused(f.me, lie)
    ensures lie.level.Some?
    ensures ProcessEvent(f.(pending := Some(Pending(lie, src))), LieRcvd, now) ==
              TrackNeighbor(f.(pending := Some(Pending(lie, src)), queue := [UpdateZTPOffer], lastRcvd := Some(now),
                               holdtime := lie.holdtime * 1_000_000_000), lie, src)
  {
    hide Silenced, MTUDiffers, LevelRefused, TrackNeighbor, Unheard;
    UnheardIsSilenced(f.me, lie);
    assert f.queue + [UpdateZTPOffer] == [UpdateZTPOffer];
  }

  // The machine after the checks, about to track its neighbour.
  function Ready(f: Fsm, lie: Lie, src: Addr, now: int): Fsm {
    f.(pending := Some(Pending(lie, src)), lastRcvd := Some(now), holdtime := lie.holdtime * 1_000_000_000)
  }

  lemma ReadyStep(f: Fsm, lie: Lie, src: Addr, now: int)
    requires f.queue == [] && f.state != MultipleNeighborsWait && !Unheard(f.me, lie) && !Refused(f.me, lie)
    ensures lie.level.Some?
    ensures HandlePacket(f, Some(lie), src, now) ==
              Drain(TrackNeighbor(Ready(f, lie, src, now).(queue := [UpdateZTPOffer]), lie, src), now)
    ensures Handled(f, lie, src, now) == Heard(f.(pending := Some(Pending(lie, src))), lie, src, now)
  {
    hide Drain, TrackNeighbor, Unheard, Refused, Heard, ProcessEvent;
    FirstStep(f, lie, src, now);
    UsableStep(f, lie, src, now);
  }

  /** Another sender, or the neighbour at another level or address. */
  lemma ChangedCase(f: Fsm, lie: Lie, src: Addr, now: int)
    requires f.queue == [] && f.state != MultipleNeighborsWait && f.state != OneWay
    requires f.neighbor.Some? && lie.level.Some?
    requires var n := f.neighbor.value; n.systemID != lie.sender || n.level != lie.level.value || n.address != src
    ensures Drain(TrackNeighbor(Ready(f, lie, src, now).(queue := [UpdateZTPOffer]), lie, src), now) ==
              Heard(f.(pending := Some(Pending(lie, src))), lie, src, now)
  {
    hide Drain;
    var g := Ready(f, lie, src, now);
    var n := g.neighbor.value;
    var last := if n.systemID != lie.sender then MultipleNeighbors
      else if n.level != lie.level.value then NeighborChangedLevel else NeighborChangedAddress;
    var h := g.(queue := [UpdateZTPOffer, last]);
    assert TrackNeighbor(g.(queue := [UpdateZTPOffer]), lie, src) == h;
    QuietUntil(h, 1, now);
    assert h.queue[2..] == [];
    assert ProcessEvent(g, last, now) == Heard(f.(pending := Some(Pending(lie, src))), lie, src, now);
    DrainNothing(ProcessEvent(g, last, now), now);
  }

  /** The same neighbour: minor changes are taken over, and the reflection decides. */
  lemma SameCase(f: Fsm, lie: Lie, src: Addr, now: int)
    requires f.queue == [] && f.state != MultipleNeighborsWait && f.state != OneWay
    requires f.neighbor.Some? && lie.level.Some?
    requires var n := f.neighbor.value; n.systemID == lie.sender && n.level == lie.level.value && n.address == src
    ensures Drain(TrackNeighbor(Ready(f, lie, src, now).(queue := [UpdateZTPOffer]), lie, src), now) ==
              Heard(f.(pending := Some(Pending(lie, src))), lie, src, now)
  {
    hide Drain, CheckThreeWay, ProcessEvent, Answered;
    var g := Met(Ready(f, lie, src, now), lie, src);
    var quiet := if MinorFieldsChanged(f.neighbor.value, lie) then [UpdateZTPOffer, NeighborChangedMinorFields]
      else [UpdateZTPOffer];
    assert [UpdateZTPOffer] + [NeighborChangedMinorFields] == [UpdateZTPOffer, NeighborChangedMinorFields];
    assert TrackNeighbor(Ready(f, lie, src, now).(queue := [UpdateZTPOffer]), lie, src) ==
           CheckThreeWay(g.(queue := quiet), lie);
    ReflectionDecides(g, quiet, lie, now);
  }

  lemma ReflectionDecides(g: Fsm, quiet: seq<Event>, lie: Lie, now: int)
    requires g.queue == [] && (g.state == TwoWay || g.state == ThreeWay)
    requires forall ev :: ev in quiet ==> ev == UpdateZTPOffer || ev == NeighborChangedMinorFields
    ensures Drain(CheckThreeWay(g.(queue := quiet), lie), now) == Answered(g, lie, now)
  {
    hide Drain;
    var h := CheckThreeWay(g.(queue := quiet), lie);
    if h.queue == quiet {
      QuietDrain(h, now);
    } else {
      var k := |quiet|;
      assert h.queue == quiet + [h.queue[k]];
      forall i | 0 <= i < k ensures Ignored(h, h.queue[i], now) { assert h.queue[i] == quiet[i] && quiet[i] in quiet; }
      QuietUntil(h, k, now);
      assert h.queue[k + 1..] == [];
      assert ProcessEvent(g, h.queue[k], now) == Answered(g, lie, now);
      DrainNothing(Answered(g, lie, now), now);
    }
  }

  /** No neighbour was held: from OneWay up to TwoWay with a LIE sent; otherwise a wait. */
  lemma NewCase(f: Fsm, lie: Lie, src: Addr, now: int)
    requires f.queue == [] && f.state != MultipleNeighborsWait && f.neighbor.None? && lie.level.Some?
    ensures Drain(TrackNeighbor(Ready(f, lie, src, now).(queue := [UpdateZTPOffer]), lie, src), now) ==
              Heard(f.(pending := Some(Pending(lie, src))), lie, src, now)
  {
    hide Drain, CheckThreeWay, ProcessEvent;
    var g := Met(Ready(f, lie, src, now), lie, src);
    var start := [UpdateZTPOffer, NewNeighbor];
    assert [UpdateZTPOffer] + [NewNeighbor] == start;
    assert TrackNeighbor(Ready(f, lie, src, now).(queue := [UpdateZTPOffer]), lie, src) ==
           CheckThreeWay(g.(queue := start), lie);
    if f.state == OneWay {
      FirstLie(g, lie, now);
    } else {
      Collision(g, lie, now);
    }
  }

  lemma FirstLie(g: Fsm, lie: Lie, now: int)
    requires g.queue == [] && g.state == OneWay && g.neighbor.Some?
    ensures Drain(CheckThreeWay(g.(queue := [UpdateZTPOffer, NewNeighbor]), lie), now) ==
              Announced(Reports(g, TwoWay))
  {
    hide Drain;
    var h := g.(queue := [UpdateZTPOffer, NewNeighbor]);
    QuietUntil(h, 1, now);
    assert h.queue[2..] == [];
    var up := Reports(g, TwoWay).(queue := [SendLie]);
    assert ProcessEvent(g, NewNeighbor, now) == up;
    QuietUntil(up, 0, now);
    assert up.queue[1..] == [];
    DrainNothing(ProcessEvent(up.(queue := []), SendLie, now), now);
  }

  lemma Collision(g: Fsm, lie: Lie, now: int)
    requires g.queue == [] && (g.state == TwoWay || g.state == ThreeWay)
    ensures Drain(CheckThreeWay(g.(queue := [UpdateZTPOffer, NewNeighbor]), lie), now) == Waits(g, now)
  {
    hide Drain, ProcessEvent, CheckThreeWay;
    var h := CheckThreeWay(g.(queue := [UpdateZTPOffer, NewNeighbor]), lie);
    var rest := MorePushed(g, lie);
    QuietUntil(h, 1, now);
    var w := ProcessEvent(g.(queue := rest), NewNeighbor, now);
    assert h.queue[2..] == rest && h.(queue := rest) == g.(queue := rest);
    CollisionStep(g, rest, now);
    QuietDrain(w, now);
  }

  lemma MorePushed(g: Fsm, lie: Lie) returns (rest: seq<Event>)
    requires g.queue == [] && (g.state == TwoWay || g.state == ThreeWay)
    ensures CheckThreeWay(g.(queue := [UpdateZTPOffer, NewNeighbor]), lie) ==
              g.(queue := [UpdateZTPOffer, NewNeighbor] + rest)
    ensures forall ev :: ev in rest ==>
              ev == NeighborDroppedReflection || ev == ValidReflection || ev == MultipleNeighbors
  {
    var h := CheckThreeWay(g.(queue := [UpdateZTPOffer, NewNeighbor]), lie);
    rest := h.queue[2..];
    assert h.queue == [UpdateZTPOffer, NewNeighbor] + rest;
  }

  lemma CollisionStep(g: Fsm, rest: seq<Event>, now: int)
    requires g.queue == [] && (g.state == TwoWay || g.state == ThreeWay)
    requires forall ev :: ev in rest ==>
               ev == NeighborDroppedReflection || ev == ValidReflection || ev == MultipleNeighbors
    ensures var w := ProcessEvent(g.(queue := rest), NewNeighbor, now);
            w.(queue := []) == Waits(g, now) && forall ev :: ev in w.queue ==> Ignored(w, ev, now)
  {
  }

  // ---- The theorems ----

  /**
   * The whole effect of a LIE on a machine at rest, in every state. (In OneWay a machine at rest has no neighbour.)
   */
  lemma PacketExactly(f: Fsm, lie: Lie, src: Addr, now: int)
    requires f.queue == [] && (f.state == OneWay ==> f.neighbor.None?)
    ensures HandlePacket(f, Some(lie), src, now) == Handled(f, lie, src, now)
  {
    hide Drain, TrackNeighbor, Unheard, Refused, Heard, HandlePacket, Handled;
    if f.state == MultipleNeighborsWait || Unheard(f.me, lie) {
      UnheardCase(f, lie, src, now);
    } else if Refused(f.me, lie) {
      RefusedCase(f, lie, src, now);
    } else {
      ReadyStep(f, lie, src, now);
      if f.neighbor.None? {
        NewCase(f, lie, src, now);
      } else {
        var n := f.neighbor.value;
        if n.systemID != lie.sender || n.level != lie.level.value || n.address != src {
          ChangedCase(f, lie, src, now);
        } else {
          SameCase(f, lie, src, now);
        }
      }
    }
  }

  /** And of a second. */
  lemma SecondExactly(f: Fsm, now: int)
    requires f.queue == []
    ensures Tick(f, now) == Ticked(f, now)
  {
    hide Drain, Tick;
    TickExactly(f, now);
  }
}
