/** The LIE machine in the form the program has: fields that the event handlers update. */
module LieMachineClass {
  import opened RiftTypes
  import opened LieFsm
  import LieInvariants
  import LieExact

  class LieMachine {
    const me: Identity
    var state: State
    var neighbor: Option<NeighborState>
    var eventQueue: seq<Event>
    var lastRcvd: Option<int>
    var holdtime: int
    var deadline: Option<int>
    var pending: Option<Pending>
    var trace: seq<Act>

    ghost function View(): Fsm
      reads this
    {
      Fsm(me, state, neighbor, eventQueue, lastRcvd, holdtime, deadline, pending, trace)
    }

    constructor (me: Identity)
      ensures View() == LieInvariants.NewFsm(me)
    {
      this.me, state, neighbor, eventQueue := me, OneWay, None, [];
      lastRcvd, holdtime, deadline, pending, trace := None, 0, None, None, [];
    }

    method PushEvent(ev: Event)
      modifies this
      ensures View() == Push(old(View()), ev)
    {
      eventQueue := eventQueue + [ev];
    }

    method CleanUp()
      modifies this
      ensures View() == Cleanup(old(View()))
    {
      neighbor, lastRcvd, holdtime := None, None, 0;
    }

    method Enter(newState: State)
      modifies this
      ensures View() == EnterState(old(View()), newState)
    {
      state := newState;
      if newState == OneWay { CleanUp(); }
      trace := trace + [Emits(newState, neighbor)];
    }

    method StartMultipleNeighborsTimer(now: int)
      modifies this
      ensures View() == StartTimer(old(View()), now)
    {
      deadline := Some(now + MULTIPLE_NEIGHBORS_MULTIPLIER * DEFAULT_LIE_HOLDTIME * SECOND);
    }

    method Send()
      modifies this
      ensures View() == SendLIE(old(View()))
    {
      var reflection := None;
      if neighbor.Some? { reflection := Some(Reflection(neighbor.value.systemID, neighbor.value.linkID)); }
      var lie := Lie(MAJOR_VERSION, me.systemID, Some(me.level), me.nodeName, me.localID, DEFAULT_FLOOD_PORT, None,
                     DEFAULT_LIE_HOLDTIME, reflection);
      trace := trace + [Sends(lie, neighbor)];
    }

    method CheckHold(now: int)
      modifies this
      ensures View() == CheckHoldtime(old(View()), now)
    {
      if lastRcvd.None? || holdtime == 0 { return; }
      if now - lastRcvd.value > holdtime { PushEvent(HoldtimeExpired); }
    }

    method CheckReflection(lie: Lie)
      modifies this
      ensures View() == CheckThreeWay(old(View()), lie)
    {
      if state == OneWay { return; }
      if lie.neighbor.None? {
        if state == ThreeWay { PushEvent(NeighborDroppedReflection); }
        return;
      }
      if lie.neighbor.value.originator == me.systemID && lie.neighbor.value.remoteID == me.localID {
        PushEvent(ValidReflection);
      } else {
        PushEvent(MultipleNeighbors);
      }
    }

    method ProcessPending(now: int)
      modifies this
      ensures View() == ProcessLIE(old(View()), now)
    {
      if pending.None? { return; }
      var lie, src := pending.value.lie, pending.value.src;
      if lie.major != MAJOR_VERSION || lie.sender == me.systemID || lie.sender == ILLEGAL_SYSTEM_ID {
        CleanUp();
        return;
      }
      var remoteMTU := if lie.mtu.Some? then lie.mtu.value else DEFAULT_MTU;
      if remoteMTU != DEFAULT_MTU {
        CleanUp();
        PushEvent(UpdateZTPOffer);
        PushEvent(MTUMismatch);
        return;
      }
      if lie.level.None? || !LevelAcceptable(me.level, lie.level.value) {
        CleanUp();
        PushEvent(UpdateZTPOffer);
        PushEvent(UnacceptableHeader);
        return;
      }
      PushEvent(UpdateZTPOffer);
      lastRcvd, holdtime := Some(now), lie.holdtime * SECOND;
      Track(lie, src);
    }

    method Track(lie: Lie, src: Addr)
      requires lie.level.Some?
      modifies this
      ensures View() == TrackNeighbor(old(View()), lie, src)
    {
      if neighbor.None? {
        neighbor := Some(NeighborState(lie.sender, lie.level.value, lie.localID, src, lie.name, lie.floodPort,
          lie.holdtime));
        trace := trace + [Accepts(lie)];
        PushEvent(NewNeighbor);
      } else {
        var n := neighbor.value;
        if n.systemID != lie.sender { PushEvent(MultipleNeighbors); return; }
        if n.level != lie.level.value { PushEvent(NeighborChangedLevel); return; }
        if n.address != src { PushEvent(NeighborChangedAddress); return; }
        trace := trace + [Accepts(lie)];
        if n.floodPort != lie.floodPort || n.name != lie.name || n.linkID != lie.localID {
          neighbor := Some(n.(floodPort := lie.floodPort, name := lie.name, linkID := lie.localID));
          PushEvent(NeighborChangedMinorFields);
        }
        neighbor := Some(neighbor.value.(holdtime := lie.holdtime));
      }
      CheckReflection(lie);
    }

    method OnOneWay(ev: Event, now: int)
      modifies this
      ensures View() == ProcessOneWay(old(View()), ev, now)
    {
      match ev
      case TimerTick => PushEvent(SendLie);
      case LieRcvd => ProcessPending(now);
      case NewNeighbor => PushEvent(SendLie); Enter(TwoWay);
      case ValidReflection => Enter(ThreeWay);
      case MultipleNeighbors => StartMultipleNeighborsTimer(now); Enter(MultipleNeighborsWait);
      case SendLie => Send();
      case LevelChanged => PushEvent(SendLie);
      case _ =>
    }

    method OnTwoWay(ev: Event, now: int)
      modifies this
      ensures View() == ProcessTwoWay(old(View()), ev, now)
    {
      match ev
      case TimerTick => PushEvent(SendLie); CheckHold(now);
      case LieRcvd => ProcessPending(now);
      case NewNeighbor => PushEvent(SendLie); StartMultipleNeighborsTimer(now); Enter(MultipleNeighborsWait);
      case ValidReflection => Enter(ThreeWay);
      case NeighborChangedLevel | NeighborChangedAddress | UnacceptableHeader
         | MTUMismatch | HoldtimeExpired | LevelChanged =>
        Enter(OneWay);
      case MultipleNeighbors => StartMultipleNeighborsTimer(now); Enter(MultipleNeighborsWait);
      case SendLie => Send();
      case _ =>
    }

    method OnThreeWay(ev: Event, now: int)
      modifies this
      ensures View() == ProcessThreeWay(old(View()), ev, now)
    {
      match ev
      case TimerTick => PushEvent(SendLie); CheckHold(now);
      case LieRcvd => ProcessPending(now);
      case NeighborDroppedReflection => Enter(TwoWay);
      case NeighborChangedLevel | NeighborChangedAddress | UnacceptableHeader
         | MTUMismatch | HoldtimeExpired | LevelChanged =>
        Enter(OneWay);
      case MultipleNeighbors | NewNeighbor => StartMultipleNeighborsTimer(now); Enter(MultipleNeighborsWait);
      case FloodLeadersChanged => PushEvent(SendLie);
      case SendLie => Send();
      case _ =>
    }

    method OnWait(ev: Event, now: int)
      modifies this
      ensures View() == ProcessWait(old(View()), ev, now)
    {
      match ev
      case TimerTick => if deadline.Some? && now > deadline.value { PushEvent(MultipleNeighborsDone); }
      case MultipleNeighborsDone | LevelChanged => Enter(OneWay);
      case MultipleNeighbors => StartMultipleNeighborsTimer(now);
      case _ =>
    }

    method OnEvent(ev: Event, now: int)
      modifies this
      ensures View() == ProcessEvent(old(View()), ev, now)
    {
      match state
      case OneWay => OnOneWay(ev, now);
      case TwoWay => OnTwoWay(ev, now);
      case ThreeWay => OnThreeWay(ev, now);
      case MultipleNeighborsWait => OnWait(ev, now);
    }

    /** The self-feeding loop; it ends because every event outweighs what it pushes. */
    method DrainQueue(now: int)
      modifies this
      ensures View() == Drain(old(View()), now)
    {
      hide ProcessEvent;
      while |eventQueue| > 0
        invariant Drain(View(), now) == Drain(old(View()), now)
        decreases Weight(eventQueue)
      {
        ghost var f := View();
        StepShrinks(f, now);
        LieInvariants.DrainStep(f, now);
        var ev := eventQueue[0];
        eventQueue := eventQueue[1..];
        OnEvent(ev, now);
        assert View() == Step(f, now);
      }
    }

    method HandleLIE(lie: Option<Lie>, src: Addr, now: int)
      modifies this
      ensures View() == HandlePacket(old(View()), lie, src, now)
      ensures lie.None? ==> View() == old(View())
      ensures lie.Some? && old(eventQueue) == [] && (old(state) == OneWay ==> old(neighbor).None?) ==>
                View() == LieExact.Handled(old(View()), lie.value, src, now)
    {
      hide Drain;
      ghost var f := View();
      if lie.None? { return; }
      pending := Some(Pending(lie.value, src));
      PushEvent(LieRcvd);
      DrainQueue(now);
      if f.queue == [] && (f.state == OneWay ==> f.neighbor.None?) {
        hide HandlePacket, LieExact.Handled;
        LieExact.PacketExactly(f, lie.value, src, now);
      }
    }

    method OnTick(now: int)
      modifies this
      ensures View() == Tick(old(View()), now)
      ensures old(eventQueue) == [] ==> View() == LieExact.Ticked(old(View()), now)
    {
      hide Drain, LieExact.Ticked;
      ghost var f := View();
      PushEvent(TimerTick);
      DrainQueue(now);
      if f.queue == [] { LieExact.SecondExactly(f, now); }
    }
  }
}
