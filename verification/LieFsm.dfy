/** The LIE machine of section 6.2.1 of RFC 9692, one per interface: its tables as functions on a state value. */
module LieFsm {
  import opened RiftTypes

  datatype State = OneWay | TwoWay | ThreeWay | MultipleNeighborsWait

  datatype Event =
    | TimerTick | LieRcvd | NewNeighbor | ValidReflection | NeighborDroppedReflection
    | NeighborChangedLevel | NeighborChangedAddress | UnacceptableHeader | MTUMismatch | HoldtimeExpired
    | MultipleNeighbors | MultipleNeighborsDone | SendLie | LevelChanged | NeighborChangedMinorFields
    | FloodLeadersChanged | UpdateZTPOffer

  datatype NeighborState = NeighborState(systemID: SystemID, level: Level, linkID: int, address: Addr, name: string,
    floodPort: int, holdtime: int)

  datatype Reflection = Reflection(originator: SystemID, remoteID: int)

  datatype Lie = Lie(
    major: int, sender: SystemID, level: Option<Level>,
    name: string, localID: int, floodPort: int, mtu: Option<int>, holdtime: int, neighbor: Option<Reflection>)

  datatype Pending = Pending(lie: Lie, src: Addr)

  // What the machine does, in order: an event to the agent, a LIE on the wire, a LIE taken as its neighbour's.
  datatype Act =
    | Emits(state: State, neighbor: Option<NeighborState>)
    | Sends(lie: Lie, holding: Option<NeighborState>)
    | Accepts(accepted: Lie)

  datatype Identity = Identity(systemID: SystemID, level: Level, localID: int, nodeName: string)

  datatype Fsm = Fsm(
    me: Identity,
    state: State,
    neighbor: Option<NeighborState>,
    queue: seq<Event>,
    lastRcvd: Option<int>,
    holdtime: int,
    deadline: Option<int>,
    pending: Option<Pending>,
    trace: seq<Act>)

  const MAJOR_VERSION := 8
  const ILLEGAL_SYSTEM_ID: SystemID := 0
  const DEFAULT_MTU := 1400
  const DEFAULT_FLOOD_PORT := 915
  const DEFAULT_LIE_HOLDTIME := 3
  const MULTIPLE_NEIGHBORS_MULTIPLIER := 4
  const SECOND := 1_000_000_000

  // ---- Termination: what each event may still cause ----

  function Cost(ev: Event): nat {
    match ev
    case LieRcvd => 5
    case TimerTick => 3
    case NewNeighbor | LevelChanged | FloodLeadersChanged => 2
    case _ => 1
  }

  function Weight(q: seq<Event>): nat {
    if q == [] then 0 else Weight(q[..|q| - 1]) + Cost(q[|q| - 1])
  }

  lemma PushWeight(q: seq<Event>, ev: Event)
    ensures Weight(q + [ev]) == Weight(q) + Cost(ev)
  {
    assert (q + [ev])[..|q|] == q;
  }

  lemma {:induction false} PopWeight(q: seq<Event>)
    requires q != []
    ensures Weight(q) == Cost(q[0]) + Weight(q[1..])
  {
    var init, last := q[..|q| - 1], q[|q| - 1];
    if init == [] {
      assert q == [last] && q[1..] == [];
      assert Weight([]) == 0;
    } else {
      PopWeight(init);
      assert q[1..] == init[1..] + [last];
      PushWeight(init[1..], last);
    }
  }

  // ---- Actions ----

  function Push(f: Fsm, ev: Event): Fsm { f.(queue := f.queue + [ev]) }

  function Cleanup(f: Fsm): Fsm { f.(neighbor := None, lastRcvd := None, holdtime := 0) }

  /** Entering OneWay deletes the neighbour; every entry is reported with the neighbour left. */
  function EnterState(f: Fsm, s: State): Fsm {
    var g := if s == OneWay then Cleanup(f.(state := s)) else f.(state := s);
    g.(trace := g.trace + [Emits(s, g.neighbor)])
  }

  function StartTimer(f: Fsm, now: int): Fsm {
    f.(deadline := Some(now + MULTIPLE_NEIGHBORS_MULTIPLIER * DEFAULT_LIE_HOLDTIME * SECOND))
  }

  function ReflectionOf(n: Option<NeighborState>): Option<Reflection> {
    if n.Some? then Some(Reflection(n.value.systemID, n.value.linkID)) else None
  }

  function OwnLie(me: Identity, n: Option<NeighborState>): Lie {
    Lie(MAJOR_VERSION, me.systemID, Some(me.level), me.nodeName, me.localID, DEFAULT_FLOOD_PORT, None,
        DEFAULT_LIE_HOLDTIME, ReflectionOf(n))
  }

  function SendLIE(f: Fsm): Fsm {
    f.(trace := f.trace + [Sends(OwnLie(f.me, f.neighbor), f.neighbor)])
  }

  predicate Expired(f: Fsm, now: int) {
    f.lastRcvd.Some? && f.holdtime != 0 && now - f.lastRcvd.value > f.holdtime
  }

  function CheckHoldtime(f: Fsm, now: int): Fsm {
    if Expired(f, now) then Push(f, HoldtimeExpired) else f
  }

  predicate LevelAcceptable(local: Level, remote: Level) {
    local == LEAF_LEVEL || remote == LEAF_LEVEL || (if local < remote then remote - local else local - remote) <= 1
  }

  // ---- PROCESS_LIE ----

  /** Rejected without an event, whatever the state: only the neighbour is dropped. */
  predicate Silenced(me: Identity, lie: Lie) {
    lie.major != MAJOR_VERSION || lie.sender == me.systemID || lie.sender == ILLEGAL_SYSTEM_ID
  }

  predicate MTUDiffers(lie: Lie) { lie.mtu.Some? && lie.mtu.value != DEFAULT_MTU }

  predicate LevelRefused(me: Identity, lie: Lie) { lie.level.None? || !LevelAcceptable(me.level, lie.level.value) }

  predicate Usable(me: Identity, lie: Lie) { !Silenced(me, lie) && !MTUDiffers(lie) && !LevelRefused(me, lie) }

  predicate Reflects(me: Identity, lie: Lie) { lie.neighbor == Some(Reflection(me.systemID, me.localID)) }

  function CheckThreeWay(f: Fsm, lie: Lie): Fsm {
    if f.state == OneWay then f
    else if lie.neighbor.None? then (if f.state == ThreeWay then Push(f, NeighborDroppedReflection) else f)
    else if Reflects(f.me, lie) then Push(f, ValidReflection)
    else Push(f, MultipleNeighbors)
  }

  function NeighborFrom(lie: Lie, src: Addr): NeighborState
    requires lie.level.Some?
  {
    NeighborState(lie.sender, lie.level.value, lie.localID, src, lie.name, lie.floodPort, lie.holdtime)
  }

  predicate MinorFieldsChanged(n: NeighborState, lie: Lie) {
    n.floodPort != lie.floodPort || n.name != lie.name || n.linkID != lie.localID
  }

  function ProcessLIE(f: Fsm, now: int): Fsm {
    if f.pending.None? then f
    else
      var lie, src := f.pending.value.lie, f.pending.value.src;
      if Silenced(f.me, lie) then Cleanup(f)
      else if MTUDiffers(lie) then Push(Push(Cleanup(f), UpdateZTPOffer), MTUMismatch)
      else if LevelRefused(f.me, lie) then Push(Push(Cleanup(f), UpdateZTPOffer), UnacceptableHeader)
      else TrackNeighbor(Push(f, UpdateZTPOffer).(lastRcvd := Some(now), holdtime := lie.holdtime * SECOND), lie, src)
  }

  function Accept(f: Fsm, lie: Lie, n: NeighborState): Fsm {
    f.(neighbor := Some(n), trace := f.trace + [Accepts(lie)])
  }

  function TrackNeighbor(f: Fsm, lie: Lie, src: Addr): Fsm
    requires lie.level.Some?
  {
    if f.neighbor.None? then CheckThreeWay(Push(Accept(f, lie, NeighborFrom(lie, src)), NewNeighbor), lie)
    else
      var n := f.neighbor.value;
      if n.systemID != lie.sender then Push(f, MultipleNeighbors)
      else if n.level != lie.level.value then Push(f, NeighborChangedLevel)
      else if n.address != src then Push(f, NeighborChangedAddress)
      else
        var g := Accept(f, lie,
                        n.(floodPort := lie.floodPort, name := lie.name, linkID := lie.localID,
                          holdtime := lie.holdtime));
        CheckThreeWay(if MinorFieldsChanged(n, lie) then Push(g, NeighborChangedMinorFields) else g, lie)
  }

  // ---- The four tables ----

  function ProcessOneWay(f: Fsm, ev: Event, now: int): Fsm {
    match ev
    case TimerTick => Push(f, SendLie)
    case LieRcvd => ProcessLIE(f, now)
    case NewNeighbor => EnterState(Push(f, SendLie), TwoWay)
    case ValidReflection => EnterState(f, ThreeWay)
    case MultipleNeighbors => EnterState(StartTimer(f, now), MultipleNeighborsWait)
    case SendLie => SendLIE(f)
    case LevelChanged => Push(f, SendLie)
    case _ => f
  }

  function ProcessTwoWay(f: Fsm, ev: Event, now: int): Fsm {
    match ev
    case TimerTick => CheckHoldtime(Push(f, SendLie), now)
    case LieRcvd => ProcessLIE(f, now)
    case NewNeighbor => EnterState(StartTimer(Push(f, SendLie), now), MultipleNeighborsWait)
    case ValidReflection => EnterState(f, ThreeWay)
    case NeighborChangedLevel | NeighborChangedAddress | UnacceptableHeader
       | MTUMismatch | HoldtimeExpired | LevelChanged =>
      EnterState(f, OneWay)
    case MultipleNeighbors => EnterState(StartTimer(f, now), MultipleNeighborsWait)
    case SendLie => SendLIE(f)
    case _ => f
  }

  function ProcessThreeWay(f: Fsm, ev: Event, now: int): Fsm {
    match ev
    case TimerTick => CheckHoldtime(Push(f, SendLie), now)
    case LieRcvd => ProcessLIE(f, now)
    case NeighborDroppedReflection => EnterState(f, TwoWay)
    case NeighborChangedLevel | NeighborChangedAddress | UnacceptableHeader
       | MTUMismatch | HoldtimeExpired | LevelChanged =>
      EnterState(f, OneWay)
    case MultipleNeighbors | NewNeighbor => EnterState(StartTimer(f, now), MultipleNeighborsWait)
    case FloodLeadersChanged => Push(f, SendLie)
    case SendLie => SendLIE(f)
    case _ => f
  }

  function ProcessWait(f: Fsm, ev: Event, now: int): Fsm {
    match ev
    case TimerTick => if f.deadline.Some? && now > f.deadline.value then Push(f, MultipleNeighborsDone) else f
    case MultipleNeighborsDone | LevelChanged => EnterState(f, OneWay)
    case MultipleNeighbors => StartTimer(f, now)
    case _ => f
  }

  function ProcessEvent(f: Fsm, ev: Event, now: int): Fsm {
    match f.state
    case OneWay => ProcessOneWay(f, ev, now)
    case TwoWay => ProcessTwoWay(f, ev, now)
    case ThreeWay => ProcessThreeWay(f, ev, now)
    case MultipleNeighborsWait => ProcessWait(f, ev, now)
  }

  // ---- The queue ----

  function Step(f: Fsm, now: int): Fsm
    requires f.queue != []
  {
    ProcessEvent(f.(queue := f.queue[1..]), f.queue[0], now)
  }

  lemma PushesLittle(f: Fsm, ev: Event)
    ensures Weight(Push(f, ev).queue) == Weight(f.queue) + Cost(ev)
  {
    PushWeight(f.queue, ev);
  }

  lemma ThreeWayWeight(f: Fsm, lie: Lie)
    ensures Weight(CheckThreeWay(f, lie).queue) <= Weight(f.queue) + 1
  {
    PushesLittle(f, NeighborDroppedReflection);
    PushesLittle(f, ValidReflection);
    PushesLittle(f, MultipleNeighbors);
  }

  lemma TrackWeight(f: Fsm, lie: Lie, src: Addr)
    requires lie.level.Some?
    ensures Weight(TrackNeighbor(f, lie, src).queue) <= Weight(f.queue) + 3
  {
    hide CheckThreeWay, Weight;
    PushesLittle(f, MultipleNeighbors);
    PushesLittle(f, NeighborChangedLevel);
    PushesLittle(f, NeighborChangedAddress);
    if f.neighbor.None? {
      var g := Accept(f, lie, NeighborFrom(lie, src));
      PushesLittle(g, NewNeighbor);
      ThreeWayWeight(Push(g, NewNeighbor), lie);
    } else {
      var n := f.neighbor.value;
      var g := Accept(f, lie,
                      n.(floodPort := lie.floodPort, name := lie.name, linkID := lie.localID,
                        holdtime := lie.holdtime));
      PushesLittle(g, NeighborChangedMinorFields);
      ThreeWayWeight(Push(g, NeighborChangedMinorFields), lie);
      ThreeWayWeight(g, lie);
    }
  }

  lemma LieWeight(f: Fsm, now: int)
    ensures Weight(ProcessLIE(f, now).queue) <= Weight(f.queue) + 4
  {
    hide TrackNeighbor, Weight, Silenced, MTUDiffers;
    PushesLittle(Cleanup(f), UpdateZTPOffer);
    PushesLittle(Push(Cleanup(f), UpdateZTPOffer), MTUMismatch);
    PushesLittle(Push(Cleanup(f), UpdateZTPOffer), UnacceptableHeader);
    PushesLittle(f, UpdateZTPOffer);
    if f.pending.Some? && f.pending.value.lie.level.Some? {
      TrackWeight(Push(f, UpdateZTPOffer).(lastRcvd := Some(now), holdtime := f.pending.value.lie.holdtime * SECOND),
                  f.pending.value.lie, f.pending.value.src);
    }
  }

  /** Every event costs more than all it pushes, in every state. */
  lemma StepShrinks(f: Fsm, now: int)
    requires f.queue != []
    ensures Weight(Step(f, now).queue) < Weight(f.queue)
  {
    hide ProcessLIE, Weight, Expired;
    PopWeight(f.queue);
    var g := f.(queue := f.queue[1..]);
    LieWeight(g, now);
    PushesLittle(g, SendLie);
    PushesLittle(Push(g, SendLie), HoldtimeExpired);
    PushesLittle(g, MultipleNeighborsDone);
  }

  /** drainQueue. */
  function Drain(f: Fsm, now: int): (r: Fsm)
    ensures r.queue == []
    decreases Weight(f.queue)
  {
    if f.queue == [] then f else StepShrinks(f, now); Drain(Step(f, now), now)
  }

  function EventsDrained(f: Fsm, now: int): nat
    decreases Weight(f.queue)
  {
    if f.queue == [] then 0 else StepShrinks(f, now); 1 + EventsDrained(Step(f, now), now)
  }

  /** A drain ends after no more events than the weight of the queue. */
  lemma {:induction false} DrainBounded(f: Fsm, now: int)
    ensures EventsDrained(f, now) <= Weight(f.queue)
    decreases Weight(f.queue)
  {
    hide Step, Weight;
    if f.queue != [] {
      StepShrinks(f, now);
      DrainBounded(Step(f, now), now);
    }
  }

  // ---- The two entry points ----

  function Received(f: Fsm, lie: Lie, src: Addr): Fsm {
    Push(f.(pending := Some(Pending(lie, src))), LieRcvd)
  }

  function HandlePacket(f: Fsm, lie: Option<Lie>, src: Addr, now: int): Fsm {
    if lie.None? then f else Drain(Received(f, lie.value, src), now)
  }

  function Tick(f: Fsm, now: int): Fsm { Drain(Push(f, TimerTick), now) }

  /** From rest, a packet costs at most five events and a tick at most three. */
  lemma EventsPerInput(f: Fsm, lie: Lie, src: Addr, now: int)
    requires f.queue == []
    ensures EventsDrained(Received(f, lie, src), now) <= 5 && EventsDrained(Push(f, TimerTick), now) <= 3
  {
    hide EventsDrained;
    DrainBounded(Received(f, lie, src), now);
    DrainBounded(Push(f, TimerTick), now);
    PushWeight(f.queue, LieRcvd);
    PushWeight(f.queue, TimerTick);
    assert Weight([]) == 0;
  }
}
