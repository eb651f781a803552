/** What every reachable state of a LIE machine satisfies. */
module LieInvariants {
  import opened RiftTypes
  import opened LieFsm

  // ---- The trace ----

  function LastState(trace: seq<Act>): State {
    if trace == [] then OneWay
    else if trace[|trace| - 1].Emits? then trace[|trace| - 1].state
    else LastState(trace[..|trace| - 1])
  }

  ghost predicate AcceptedAs(trace: seq<Act>, sender: SystemID, linkID: int) {
    exists a :: a in trace && IsFrom(a, sender, linkID)
  }

  predicate IsFrom(a: Act, sender: SystemID, linkID: int) {
    a.Accepts? && a.accepted.sender == sender && a.accepted.localID == linkID
  }

  ghost predicate SawReflection(me: Identity, trace: seq<Act>, sender: SystemID, linkID: int) {
    exists a :: a in trace && IsFrom(a, sender, linkID) && Reflects(me, a.accepted)
  }

  /** What stands before an act justifies it. */
  ghost predicate Justified(me: Identity, before: seq<Act>, a: Act) {
    match a
    case Emits(s, n) =>
      && (s == ThreeWay ==> n.Some? && SawReflection(me, before, n.value.systemID, n.value.linkID))
      && (LastState(before) == OneWay ==> s == OneWay || s == TwoWay)
    case Sends(lie, n) => lie == OwnLie(me, n) && (n.Some? ==> AcceptedAs(before, n.value.systemID, n.value.linkID))
    case Accepts(lie) => Usable(me, lie)
  }

  ghost predicate AllJustified(me: Identity, trace: seq<Act>) {
    forall i :: 0 <= i < |trace| ==> Justified(me, trace[..i], trace[i])
  }

  lemma ExtendJustified(me: Identity, trace: seq<Act>, a: Act)
    requires AllJustified(me, trace) && Justified(me, trace, a)
    ensures AllJustified(me, trace + [a])
  {
    hide Justified;
    forall i | 0 <= i < |trace| + 1 ensures Justified(me, (trace + [a])[..i], (trace + [a])[i]) {
      assert (trace + [a])[..i] == trace[..i];
      if i == |trace| { assert trace[..i] == trace; }
    }
  }

  // ---- The queue ----

  predicate Up(ev: Event) {
    ev == ValidReflection || ev == MultipleNeighbors || ev == NewNeighbor || ev == NeighborDroppedReflection
  }

  predicate Down(ev: Event) {
    ev == NeighborChangedLevel || ev == NeighborChangedAddress || ev == UnacceptableHeader || ev == MTUMismatch
    || ev == HoldtimeExpired || ev == MultipleNeighborsDone
  }

  /** The queues that arise: a reason to fall back never shares the queue with a reason to move up. */
  ghost predicate QueueSound(q: seq<Event>) {
    && (LieRcvd in q ==> q == [LieRcvd]) && (TimerTick in q ==> q == [TimerTick]) && LevelChanged !in q
    && (forall u, d :: u in q && d in q && Up(u) ==> !Down(d))
    && !(ValidReflection in q && NeighborDroppedReflection in q)
  }

  /** The pending LIE is the neighbour's, was accepted, and reflects us on this link. */
  ghost predicate PendingReflected(f: Fsm) {
    && f.pending.Some? && f.neighbor.Some?
    && Reflects(f.me, f.pending.value.lie) && Accepts(f.pending.value.lie) in f.trace
    && f.pending.value.lie.sender == f.neighbor.value.systemID && f.pending.value.lie.localID == f.neighbor.value.linkID
    && f.pending.value.lie.level == Some(f.neighbor.value.level) && f.pending.value.src == f.neighbor.value.address
  }

  ghost predicate Sound(f: Fsm) {
    && QueueSound(f.queue)
    && f.state == LastState(f.trace) && AllJustified(f.me, f.trace)
    && (f.neighbor.Some? ==> AcceptedAs(f.trace, f.neighbor.value.systemID, f.neighbor.value.linkID))
    && (f.state == OneWay ==> ValidReflection !in f.queue && MultipleNeighbors !in f.queue)
    && (f.state == OneWay && f.neighbor.Some? ==> NewNeighbor in f.queue)
    && (ValidReflection in f.queue && f.state != MultipleNeighborsWait ==> PendingReflected(f))
  }

  // ---- How the actions extend the trace ----

  lemma EmitExtends(me: Identity, trace: seq<Act>, s: State, n: Option<NeighborState>)
    requires AllJustified(me, trace)
    requires s == ThreeWay ==> n.Some? && SawReflection(me, trace, n.value.systemID, n.value.linkID)
    requires LastState(trace) == OneWay ==> s == OneWay || s == TwoWay
    ensures AllJustified(me, trace + [Emits(s, n)]) && LastState(trace + [Emits(s, n)]) == s
  {
    hide SawReflection;
    ExtendJustified(me, trace, Emits(s, n));
  }

  lemma QuietExtends(me: Identity, trace: seq<Act>, a: Act)
    requires AllJustified(me, trace) && Justified(me, trace, a) && !a.Emits?
    ensures AllJustified(me, trace + [a]) && LastState(trace + [a]) == LastState(trace)
  {
    hide Justified;
    ExtendJustified(me, trace, a);
    assert (trace + [a])[..|trace|] == trace;
  }

  lemma AcceptedStays(trace: seq<Act>, a: Act, sender: SystemID, linkID: int)
    requires AcceptedAs(trace, sender, linkID)
    ensures AcceptedAs(trace + [a], sender, linkID)
  {
    var x :| x in trace && IsFrom(x, sender, linkID);
    assert x in trace + [a];
  }

  /** The machine with its first event taken off the queue. */
  function Popped(f: Fsm): Fsm
    requires f.queue != []
  {
    f.(queue := f.queue[1..])
  }

  lemma PoppedQueue(f: Fsm)
    requires Sound(f) && f.queue != []
    ensures QueueSound(Popped(f).queue)
    ensures f.queue[0] == LieRcvd || f.queue[0] == TimerTick ==> Popped(f).queue == []
    ensures LieRcvd !in Popped(f).queue && TimerTick !in Popped(f).queue
    ensures forall u :: u in Popped(f).queue && Down(f.queue[0]) ==> !Up(u)
    ensures forall u :: u in Popped(f).queue && Up(f.queue[0]) ==> !Down(u)
    ensures f.queue[0] == NeighborDroppedReflection ==> ValidReflection !in Popped(f).queue
    ensures forall u :: u in Popped(f).queue ==> u in f.queue
    ensures forall u :: u in f.queue ==> u == f.queue[0] || u in Popped(f).queue
    ensures f.queue[0] in f.queue && f.queue[0] != LevelChanged
  {
    hide AllJustified, AcceptedAs, LastState, PendingReflected, Up, Down;
    var first, rest := f.queue[0], f.queue[1..];
    assert f.queue == [first] + rest;
    assert forall u :: u in rest ==> u in f.queue;
  }

  // ---- Step by step ----

  /** When a state may be entered. */
  lemma EnterSound(f: Fsm, s: State)
    requires QueueSound(f.queue) && AllJustified(f.me, f.trace) && f.state == LastState(f.trace)
    requires f.state == OneWay ==> s == OneWay || s == TwoWay
    requires f.neighbor.Some? ==> AcceptedAs(f.trace, f.neighbor.value.systemID, f.neighbor.value.linkID)
    requires s == OneWay ==> ValidReflection !in f.queue && MultipleNeighbors !in f.queue
    requires s == ThreeWay ==> PendingReflected(f)
    requires s == TwoWay ==> ValidReflection !in f.queue
    ensures Sound(EnterState(f, s))
  {
    hide AllJustified, LastState, QueueSound;
    var g := EnterState(f, s);
    var n := if s == OneWay then None else f.neighbor;
    if s == ThreeWay {
      assert IsFrom(Accepts(f.pending.value.lie), n.value.systemID, n.value.linkID);
      assert SawReflection(f.me, f.trace, n.value.systemID, n.value.linkID);
    }
    EmitExtends(f.me, f.trace, s, n);
    if n.Some? { AcceptedStays(f.trace, Emits(s, n), n.value.systemID, n.value.linkID); }
  }

  predicate Neutral(ev: Event) {
    !Up(ev) && !Down(ev) && ev != LieRcvd && ev != TimerTick && ev != LevelChanged
  }

  ghost predicate NoInput(q: seq<Event>) { LieRcvd !in q && TimerTick !in q }

  lemma PushNeutral(f: Fsm, ev: Event)
    requires Sound(f) && NoInput(f.queue) && Neutral(ev)
    ensures Sound(Push(f, ev)) && NoInput(Push(f, ev).queue)
  {
    hide AllJustified, LastState, AcceptedAs;
  }

  lemma SendSound(f: Fsm)
    requires Sound(f)
    ensures Sound(SendLIE(f))
  {
    hide AllJustified, LastState, QueueSound, OwnLie;
    var a := Sends(OwnLie(f.me, f.neighbor), f.neighbor);
    QuietExtends(f.me, f.trace, a);
    if f.neighbor.Some? { AcceptedStays(f.trace, a, f.neighbor.value.systemID, f.neighbor.value.linkID); }
  }

  lemma CleanupSound(f: Fsm)
    requires Sound(f) && f.queue == []
    ensures Sound(Cleanup(f))
  {
    hide AllJustified, LastState, AcceptedAs;
  }

  /** Pushing a reason to fall back on a queue that holds nothing but neutral events. */
  lemma PushDown(f: Fsm, ev: Event)
    requires Sound(f) && Down(ev) && (forall u :: u in f.queue ==> Neutral(u))
    ensures Sound(Push(f, ev))
  {
    hide AllJustified, LastState, AcceptedAs;
  }

  /** The neighbour recorded is the sender of the pending LIE, and the LIE is usable. */
  ghost predicate Matches(f: Fsm, lie: Lie, src: Addr) {
    && f.pending == Some(Pending(lie, src)) && f.neighbor.Some? && Accepts(lie) in f.trace
    && lie.sender == f.neighbor.value.systemID && lie.localID == f.neighbor.value.linkID
    && lie.level == Some(f.neighbor.value.level) && src == f.neighbor.value.address
  }

  /** What holds between the acceptance of a LIE and the end of PROCESS_LIE. */
  ghost predicate Accepting(f: Fsm) {
    && f.state == LastState(f.trace) && AllJustified(f.me, f.trace) && f.neighbor.Some?
    && AcceptedAs(f.trace, f.neighbor.value.systemID, f.neighbor.value.linkID)
  }

  lemma AcceptStarts(f: Fsm, lie: Lie, src: Addr, n: NeighborState)
    requires f.state == LastState(f.trace) && AllJustified(f.me, f.trace) && Usable(f.me, lie)
    requires f.pending == Some(Pending(lie, src))
    requires n.systemID == lie.sender && n.linkID == lie.localID && lie.level == Some(n.level) && n.address == src
    ensures Accepting(Accept(f, lie, n)) && Matches(Accept(f, lie, n), lie, src)
  {
    hide AllJustified, LastState, Usable;
    QuietExtends(f.me, f.trace, Accepts(lie));
    assert IsFrom(Accepts(lie), n.systemID, n.linkID);
  }

  /** CHECK_THREE_WAY after an acceptance: the queue so far holds neutral events, and NewNeighbor in OneWay. */
  lemma CheckSound(f: Fsm, lie: Lie, src: Addr)
    requires Accepting(f) && Matches(f, lie, src)
    requires forall u :: u in f.queue ==> Neutral(u) || u == NewNeighbor
    requires f.state == OneWay ==> NewNeighbor in f.queue
    ensures Sound(CheckThreeWay(f, lie))
  {
    hide AllJustified, LastState, AcceptedAs;
  }

  lemma NewNeighborSound(f: Fsm, lie: Lie, src: Addr)
    requires Sound(f) && Usable(f.me, lie) && lie.level.Some? && f.pending == Some(Pending(lie, src))
    requires f.queue == [UpdateZTPOffer]
    ensures Sound(CheckThreeWay(Push(Accept(f, lie, NeighborFrom(lie, src)), NewNeighbor), lie))
  {
    hide AllJustified, LastState, AcceptedAs, Matches, Usable, CheckThreeWay, Accepting, QueueSound, PendingReflected;
    var n := NeighborFrom(lie, src);
    AcceptStarts(f, lie, src, n);
    PushAccepting(Accept(f, lie, n), lie, src, NewNeighbor);
    CheckSound(Push(Accept(f, lie, n), NewNeighbor), lie, src);
  }

  lemma SameNeighborSound(f: Fsm, lie: Lie, src: Addr, n: NeighborState)
    requires Sound(f) && Usable(f.me, lie) && f.pending == Some(Pending(lie, src)) && f.queue == [UpdateZTPOffer]
    requires f.state != OneWay
    requires n.systemID == lie.sender && n.linkID == lie.localID && lie.level == Some(n.level) && n.address == src
    ensures Sound(CheckThreeWay(Push(Accept(f, lie, n), NeighborChangedMinorFields), lie))
    ensures Sound(CheckThreeWay(Accept(f, lie, n), lie))
  {
    hide AllJustified, LastState, AcceptedAs, Matches, Usable, CheckThreeWay, Accepting, QueueSound, PendingReflected;
    AcceptStarts(f, lie, src, n);
    PushAccepting(Accept(f, lie, n), lie, src, NeighborChangedMinorFields);
    CheckSound(Push(Accept(f, lie, n), NeighborChangedMinorFields), lie, src);
    CheckSound(Accept(f, lie, n), lie, src);
  }

  lemma NotOneWay(f: Fsm)
    requires Sound(f) && f.queue == [UpdateZTPOffer] && f.neighbor.Some?
    ensures f.state != OneWay
  {
    hide AllJustified, LastState, AcceptedAs;
  }

  lemma TrackSound(f: Fsm, lie: Lie, src: Addr)
    requires Sound(f) && Usable(f.me, lie) && f.pending == Some(Pending(lie, src)) && f.queue == [UpdateZTPOffer]
    requires f.state != MultipleNeighborsWait && lie.level.Some?
    ensures Sound(TrackNeighbor(f, lie, src))
  {
    hide Sound, Usable, CheckThreeWay, Accept, MinorFieldsChanged;
    if f.neighbor.None? {
      NewNeighborSound(f, lie, src);
    } else {
      var n := f.neighbor.value;
      NotOneWay(f);
      PushManySound(f);
      PushDown(f, NeighborChangedLevel);
      PushDown(f, NeighborChangedAddress);
      if n.systemID == lie.sender && n.level == lie.level.value && n.address == src {
        SameNeighborSound(f, lie, src,
                          n.(floodPort := lie.floodPort, name := lie.name, linkID := lie.localID,
                            holdtime := lie.holdtime));
      }
    }
  }

  lemma UsableLevel(me: Identity, lie: Lie)
    requires Usable(me, lie)
    ensures lie.level.Some?
  {
  }

  lemma PushAccepting(f: Fsm, lie: Lie, src: Addr, ev: Event)
    requires Accepting(f) && Matches(f, lie, src)
    ensures Accepting(Push(f, ev)) && Matches(Push(f, ev), lie, src)
  {
  }

  lemma PushManySound(f: Fsm)
    requires Sound(f) && f.queue == [UpdateZTPOffer] && f.state != OneWay
    ensures Sound(Push(f, MultipleNeighbors))
  {
    hide AllJustified, LastState, AcceptedAs;
  }

  lemma TimesIrrelevant(f: Fsm, last: Option<int>, hold: int, deadline: Option<int>)
    requires Sound(f)
    ensures Sound(f.(lastRcvd := last, holdtime := hold, deadline := deadline))
  {
    hide AllJustified, LastState, AcceptedAs, QueueSound;
  }

  /** A rejected LIE drops the neighbour and may leave a reason to fall back. */
  lemma RejectedSound(f: Fsm, now: int)
    requires Sound(f) && f.queue == [] && f.pending.Some? && !Usable(f.me, f.pending.value.lie)
    ensures Sound(ProcessLIE(f, now))
  {
    hide Sound, TrackNeighbor, LevelAcceptable;
    CleanupSound(f);
    PushNeutral(Cleanup(f), UpdateZTPOffer);
    PushDown(Push(Cleanup(f), UpdateZTPOffer), MTUMismatch);
    PushDown(Push(Cleanup(f), UpdateZTPOffer), UnacceptableHeader);
  }

  lemma UsableSound(f: Fsm, now: int)
    requires Sound(f) && f.queue == [] && f.state != MultipleNeighborsWait && f.pending.Some?
    requires Usable(f.me, f.pending.value.lie)
    ensures Sound(ProcessLIE(f, now))
  {
    hide Sound, TrackNeighbor, Silenced, MTUDiffers, LevelAcceptable;
    var lie, src := f.pending.value.lie, f.pending.value.src;
    PushNeutral(f, UpdateZTPOffer);
    var g := Push(f, UpdateZTPOffer);
    var h := g.(lastRcvd := Some(now), holdtime := lie.holdtime * SECOND);
    TimesIrrelevant(g, Some(now), lie.holdtime * SECOND, g.deadline);
    assert h == g.(lastRcvd := Some(now), holdtime := lie.holdtime * SECOND, deadline := g.deadline);
    UsableLevel(f.me, lie);
    TrackSound(h, lie, src);
  }

  /** PROCESS_LIE, from an empty queue. */
  lemma LieSound(f: Fsm, now: int)
    requires Sound(f) && f.queue == [] && f.state != MultipleNeighborsWait
    ensures Sound(ProcessLIE(f, now))
  {
    hide Sound, ProcessLIE, Usable;
    if f.pending.None? {
      NothingPending(f, now);
    } else if Usable(f.me, f.pending.value.lie) {
      UsableSound(f, now);
    } else {
      RejectedSound(f, now);
    }
  }

  lemma NothingPending(f: Fsm, now: int)
    requires f.pending.None?
    ensures ProcessLIE(f, now) == f
  {
  }

  /** An event without effect leaves the rest sound. */
  lemma PoppedSound(f: Fsm)
    requires Sound(f) && f.queue != [] && !(f.state == OneWay && f.neighbor.Some? && f.queue[0] == NewNeighbor)
    ensures Sound(Popped(f))
  {
    hide AllJustified, LastState, AcceptedAs, QueueSound, Up, Down;
    PoppedQueue(f);
  }

  lemma EnterFrom(f: Fsm, now: int, s: State)
    requires Sound(f) && f.queue != []
    requires s == OneWay ==> Down(f.queue[0])
    requires s == ThreeWay ==> f.queue[0] == ValidReflection && f.state == TwoWay
    requires f.state == OneWay ==> s == OneWay || s == TwoWay
    requires s == TwoWay ==> (f.queue[0] == NewNeighbor && f.state == OneWay) || f.queue[0] == NeighborDroppedReflection
    ensures Sound(EnterState(Popped(f), s)) && Sound(EnterState(Popped(f).(deadline := Some(now)), s))
  {
    hide AllJustified, LastState, AcceptedAs, QueueSound;
    PoppedQueue(f);
    EnterSound(Popped(f), s);
    EnterSound(Popped(f).(deadline := Some(now)), s);
  }

  lemma EnterAfterPush(f: Fsm, now: int, s: State)
    requires Sound(f) && f.queue != [] && f.queue[0] == NewNeighbor
    requires if f.state == OneWay then s == TwoWay else s == MultipleNeighborsWait
    ensures Sound(EnterState(Push(Popped(f), SendLie), s))
    ensures Sound(EnterState(StartTimer(Push(Popped(f), SendLie), now), s))
  {
    hide AllJustified, LastState, AcceptedAs;
    PoppedQueue(f);
    assert QueueSound(Push(Popped(f), SendLie).queue);
    EnterSound(Push(Popped(f), SendLie), s);
    EnterSound(StartTimer(Push(Popped(f), SendLie), now), s);
  }

  lemma OneWayStep(f: Fsm, now: int)
    requires Sound(f) && f.queue != [] && f.state == OneWay
    ensures Sound(Step(f, now))
  {
    hide AllJustified, LastState, AcceptedAs, ProcessLIE, QueueSound, PendingReflected, EnterState, SendLIE;
    PoppedQueue(f);
    var ev := f.queue[0];
    if ev == NewNeighbor {
      EnterAfterPush(f, now, TwoWay);
    } else {
      PoppedSound(f);
      hide Sound;
      if ev == LieRcvd { LieSound(Popped(f), now); }
      else if ev == TimerTick { PushNeutral(Popped(f), SendLie); }
      else if ev == SendLie { SendSound(Popped(f)); }
    }
  }

  lemma TwoWayStep(f: Fsm, now: int)
    requires Sound(f) && f.queue != [] && f.state == TwoWay
    ensures Sound(Step(f, now))
  {
    hide AllJustified, LastState, AcceptedAs, ProcessLIE, QueueSound, PendingReflected, EnterState, SendLIE, Expired;
    PoppedQueue(f);
    PoppedSound(f);
    hide Sound;
    var ev := f.queue[0];
    if ev == NewNeighbor { EnterAfterPush(f, now, MultipleNeighborsWait); }
    else if ev == ValidReflection { EnterFrom(f, now, ThreeWay); }
    else if ev == MultipleNeighbors {
      EnterFrom(f, now + MULTIPLE_NEIGHBORS_MULTIPLIER * DEFAULT_LIE_HOLDTIME * SECOND, MultipleNeighborsWait);
    }
    else if Down(ev) { EnterFrom(f, now, OneWay); }
    else if ev == LieRcvd { LieSound(Popped(f), now); }
    else if ev == TimerTick { PushNeutral(Popped(f), SendLie); PushDown(Push(Popped(f), SendLie), HoldtimeExpired); }
    else if ev == SendLie { SendSound(Popped(f)); }
  }

  lemma ThreeWayStep(f: Fsm, now: int)
    requires Sound(f) && f.queue != [] && f.state == ThreeWay
    ensures Sound(Step(f, now))
  {
    hide AllJustified, LastState, AcceptedAs, ProcessLIE, QueueSound, PendingReflected, EnterState, SendLIE, Expired;
    PoppedQueue(f);
    PoppedSound(f);
    hide Sound;
    var ev := f.queue[0];
    if ev == NewNeighbor || ev == MultipleNeighbors {
      EnterFrom(f, now + MULTIPLE_NEIGHBORS_MULTIPLIER * DEFAULT_LIE_HOLDTIME * SECOND, MultipleNeighborsWait);
    }
    else if ev == NeighborDroppedReflection { EnterFrom(f, now, TwoWay); }
    else if Down(ev) { EnterFrom(f, now, OneWay); }
    else if ev == LieRcvd { LieSound(Popped(f), now); }
    else if ev == TimerTick { PushNeutral(Popped(f), SendLie); PushDown(Push(Popped(f), SendLie), HoldtimeExpired); }
    else if ev == SendLie { SendSound(Popped(f)); }
    else if ev == FloodLeadersChanged { PushNeutral(Popped(f), SendLie); }
  }

  lemma WaitStep(f: Fsm, now: int)
    requires Sound(f) && f.queue != [] && f.state == MultipleNeighborsWait
    ensures Sound(Step(f, now))
  {
    hide AllJustified, LastState, AcceptedAs, QueueSound, PendingReflected, EnterState;
    PoppedQueue(f);
    PoppedSound(f);
    hide Sound;
    var ev := f.queue[0];
    var g := Popped(f);
    if ev == MultipleNeighborsDone { EnterFrom(f, now, OneWay); }
    else if ev == MultipleNeighbors {
      TimesIrrelevant(g, g.lastRcvd, g.holdtime, StartTimer(g, now).deadline);
      assert StartTimer(g, now) ==
               g.(lastRcvd := g.lastRcvd, holdtime := g.holdtime, deadline := StartTimer(g, now).deadline);
    }
    else if ev == TimerTick { PushDown(g, MultipleNeighborsDone); }
  }

  /** Every event keeps the machine sound, and from OneWay leads no further than TwoWay. */
  lemma StepSound(f: Fsm, now: int)
    requires Sound(f) && f.queue != []
    ensures Sound(Step(f, now))
    ensures f.state == OneWay ==> Step(f, now).state == OneWay || Step(f, now).state == TwoWay
  {
    hide Sound, Step;
    match f.state
    case OneWay => OneWayStep(f, now); FromOneWay(f, now);
    case TwoWay => TwoWayStep(f, now);
    case ThreeWay => ThreeWayStep(f, now);
    case MultipleNeighborsWait => WaitStep(f, now);
  }

  lemma FromOneWay(f: Fsm, now: int)
    requires Sound(f) && f.queue != [] && f.state == OneWay
    ensures Step(f, now).state == OneWay || Step(f, now).state == TwoWay
  {
    hide AllJustified, LastState, AcceptedAs, PendingReflected;
    assert f.queue[0] in f.queue;
  }

  // ---- Inputs and runs ----

  ghost predicate AtRest(f: Fsm) { Sound(f) && f.queue == [] }

  lemma {:induction false} DrainSound(f: Fsm, now: int)
    requires Sound(f)
    ensures AtRest(Drain(f, now)) && Drain(f, now).me == f.me
    decreases Weight(f.queue)
  {
    hide Sound, Step, Weight;
    if f.queue != [] {
      StepSound(f, now);
      StepShrinks(f, now);
      SameIdentity(f, now);
      DrainSound(Step(f, now), now);
    }
  }

  lemma SameIdentity(f: Fsm, now: int)
    requires f.queue != []
    ensures Step(f, now).me == f.me
  {
    hide Silenced, MTUDiffers, LevelRefused, Expired, OwnLie;
  }

  datatype Input = Packet(lie: Option<Lie>, src: Addr, at: int) | Second(at: int)

  function Apply(f: Fsm, i: Input): Fsm {
    match i
    case Packet(lie, src, at) => HandlePacket(f, lie, src, at)
    case Second(at) => Tick(f, at)
  }

  lemma PushInput(f: Fsm, ev: Event, pending: Option<Pending>)
    requires AtRest(f) && (ev == LieRcvd || ev == TimerTick)
    ensures Sound(Push(f.(pending := pending), ev))
  {
    hide AllJustified, LastState, AcceptedAs;
  }

  /** Every input takes a machine at rest to a machine at rest. */
  lemma ApplySound(f: Fsm, i: Input)
    requires AtRest(f)
    ensures AtRest(Apply(f, i)) && Apply(f, i).me == f.me
  {
    hide Sound;
    match i
    case Packet(lie, src, at) =>
      if lie.Some? {
        PushInput(f, LieRcvd, Some(Pending(lie.value, src)));
        DrainSound(Received(f, lie.value, src), at);
      }
    case Second(at) =>
      PushInput(f, TimerTick, f.pending);
      assert f.(pending := f.pending) == f;
      DrainSound(Push(f, TimerTick), at);
  }

  function NewFsm(me: Identity): Fsm { Fsm(me, OneWay, None, [], None, 0, None, None, []) }

  ghost predicate Run(me: Identity, states: seq<Fsm>, inputs: seq<Input>) {
    && |states| == |inputs| + 1 && states[0] == NewFsm(me)
    && forall i :: 0 <= i < |inputs| ==> states[i + 1] == Apply(states[i], inputs[i])
  }

  lemma {:induction false} RunSound(me: Identity, states: seq<Fsm>, inputs: seq<Input>, i: nat)
    requires Run(me, states, inputs) && i < |states|
    ensures AtRest(states[i]) && states[i].me == me
  {
    hide Apply;
    if i == 0 {
    } else {
      hide Sound;
      RunSound(me, states, inputs, i - 1);
      ApplySound(states[i - 1], inputs[i - 1]);
    }
  }

  /** In every state between inputs the queue is empty, OneWay has no neighbour, and the last report names the state. */
  lemma RestingFacts(me: Identity, states: seq<Fsm>, inputs: seq<Input>, i: nat)
    requires Run(me, states, inputs) && i < |states|
    ensures states[i].queue == [] && states[i].state == LastState(states[i].trace)
    ensures states[i].state == OneWay ==> states[i].neighbor.None?
  {
    hide Apply, AllJustified, LastState, AcceptedAs;
    RunSound(me, states, inputs, i);
  }

  /** Every report of ThreeWay names a neighbour whose LIE, accepted before, reflected our system and link;
      and OneWay is never left for anything but TwoWay. */
  lemma ReportsJustified(me: Identity, states: seq<Fsm>, inputs: seq<Input>, i: nat, t: nat)
    requires Run(me, states, inputs) && i < |states| && t < |states[i].trace| && states[i].trace[t].Emits?
    ensures var n := states[i].trace[t].neighbor; states[i].trace[t].state == ThreeWay ==>
              n.Some? && SawReflection(me, states[i].trace[..t], n.value.systemID, n.value.linkID)
    ensures LastState(states[i].trace[..t]) == OneWay ==>
              states[i].trace[t].state == OneWay || states[i].trace[t].state == TwoWay
  {
    hide Apply, LastState, AcceptedAs, QueueSound, SawReflection;
    RunSound(me, states, inputs, i);
    assert Justified(me, states[i].trace[..t], states[i].trace[t]);
  }

  // ---- The neighbour while ThreeWay lasts ----

  predicate SameNeighbor(a: Option<NeighborState>, b: Option<NeighborState>) {
    a.Some? && b.Some? && a.value.systemID == b.value.systemID && a.value.level == b.value.level
      && a.value.address == b.value.address
  }

  /** On the way through a drain that began in ThreeWay with neighbour `was`. */
  ghost predicate Steady(f: Fsm, was: Option<NeighborState>) {
    && LieRcvd !in f.queue
    && (f.state == ThreeWay ==> f.neighbor.None? || SameNeighbor(was, f.neighbor) || NewNeighbor in f.queue)
    && (f.state == TwoWay ==> ValidReflection !in f.queue)
    && (f.state == OneWay ==> NewNeighbor !in f.queue)
  }

  lemma StepSteady(f: Fsm, now: int, was: Option<NeighborState>)
    requires Sound(f) && f.queue != [] && Steady(f, was)
    ensures Steady(Step(f, now), was)
  {
    PoppedQueue(f);
    assert f.state == OneWay ==> f.queue[0] != ValidReflection;
    hide Sound, QueueSound, Steady, Step;
    match f.state
    case OneWay => SteadyLow(f, now, was);
    case TwoWay => SteadyLow(f, now, was);
    case ThreeWay => SteadyThreeWay(f, now, was);
    case MultipleNeighborsWait => SteadyLow(f, now, was);
  }

  lemma SteadyLow(f: Fsm, now: int, was: Option<NeighborState>)
    requires f.queue != [] && Steady(f, was) && f.state != ThreeWay && f.queue[0] != LieRcvd
    requires f.queue[0] != LevelChanged
    requires f.state == OneWay ==> f.queue[0] != ValidReflection
    requires forall u :: u in Popped(f).queue ==> u in f.queue
    requires f.queue[0] in f.queue
    requires forall u :: u in Popped(f).queue && Down(f.queue[0]) ==> !Up(u)
    ensures Steady(Step(f, now), was)
  {
    hide ProcessLIE, OwnLie, Expired;
  }

  lemma SteadyThreeWay(f: Fsm, now: int, was: Option<NeighborState>)
    requires f.queue != [] && Steady(f, was) && f.state == ThreeWay && f.queue[0] != LieRcvd
    requires forall u :: u in Popped(f).queue ==> u in f.queue
    requires forall u :: u in f.queue ==> u == f.queue[0] || u in Popped(f).queue
    requires forall u :: u in Popped(f).queue && Down(f.queue[0]) ==> !Up(u)
    requires f.queue[0] != LevelChanged
    requires f.queue[0] == NeighborDroppedReflection ==> ValidReflection !in Popped(f).queue
    ensures Steady(Step(f, now), was)
  {
    hide ProcessLIE, OwnLie, Expired;
  }

  lemma {:induction false} DrainSteady(f: Fsm, now: int, was: Option<NeighborState>)
    requires Sound(f) && Steady(f, was)
    ensures Steady(Drain(f, now), was)
    decreases Weight(f.queue)
  {
    hide Sound, Step, Weight, Steady;
    if f.queue != [] {
      StepSound(f, now);
      StepSteady(f, now, was);
      StepShrinks(f, now);
      DrainSteady(Step(f, now), now, was);
    }
  }

  lemma PushSteady(f: Fsm, ev: Event, was: Option<NeighborState>)
    requires Steady(f, was) && f.state == ThreeWay && ev != LieRcvd
    ensures Steady(Push(f, ev), was)
  {
  }

  lemma CheckSteady(f: Fsm, lie: Lie, was: Option<NeighborState>)
    requires Steady(f, was) && f.state == ThreeWay
    ensures Steady(CheckThreeWay(f, lie), was)
  {
    hide Steady, Reflects;
    PushSteady(f, NeighborDroppedReflection, was);
    PushSteady(f, ValidReflection, was);
    PushSteady(f, MultipleNeighbors, was);
  }

  lemma TrackSteady(f: Fsm, lie: Lie, src: Addr)
    requires f.state == ThreeWay && f.queue == [UpdateZTPOffer] && lie.level.Some?
    ensures Steady(TrackNeighbor(f, lie, src), f.neighbor)
  {
    hide CheckThreeWay, MinorFieldsChanged;
    if f.neighbor.None? {
      CheckSteady(Push(Accept(f, lie, NeighborFrom(lie, src)), NewNeighbor), lie, f.neighbor);
    } else {
      var n := f.neighbor.value;
      var g := Accept(f, lie,
                      n.(floodPort := lie.floodPort, name := lie.name, linkID := lie.localID,
                        holdtime := lie.holdtime));
      CheckSteady(g, lie, f.neighbor);
      PushSteady(g, NeighborChangedMinorFields, f.neighbor);
      CheckSteady(Push(g, NeighborChangedMinorFields), lie, f.neighbor);
    }
  }

  lemma FirstSteady(f: Fsm, lie: Lie, src: Addr, now: int)
    requires AtRest(f) && f.state == ThreeWay
    ensures Steady(Step(Received(f, lie, src), now), f.neighbor)
  {
    hide Sound, Silenced, MTUDiffers, LevelAcceptable, TrackNeighbor;
    var g := f.(pending := Some(Pending(lie, src)));
    var r := Received(f, lie, src);
    assert r.queue == [LieRcvd] && r.(queue := r.queue[1..]) == g;
    if lie.level.Some? {
      TrackSteady(Push(g, UpdateZTPOffer).(lastRcvd := Some(now), holdtime := lie.holdtime * SECOND), lie, src);
    }
  }

  lemma FirstTickSteady(f: Fsm, now: int)
    requires AtRest(f) && f.state == ThreeWay
    ensures Steady(Step(Push(f, TimerTick), now), f.neighbor)
  {
    hide Sound, ProcessLIE, Expired;
    assert Push(f, TimerTick).queue == [TimerTick];
  }

  lemma ApplySteady(f: Fsm, i: Input)
    requires AtRest(f) && f.state == ThreeWay && Apply(f, i).state == ThreeWay && Apply(f, i).neighbor.Some?
    ensures SameNeighbor(f.neighbor, Apply(f, i).neighbor)
  {
    hide Sound, Step, Weight;
    match i
    case Packet(lie, src, at) =>
      if lie.Some? {
        FirstSteady(f, lie.value, src, at);
        PushInput(f, LieRcvd, Some(Pending(lie.value, src)));
        StepSound(Received(f, lie.value, src), at);
        StepShrinks(Received(f, lie.value, src), at);
        DrainSteady(Step(Received(f, lie.value, src), at), at, f.neighbor);
      }
    case Second(at) =>
      FirstTickSteady(f, at);
      PushInput(f, TimerTick, f.pending);
      assert f.(pending := f.pending) == f;
      StepSound(Push(f, TimerTick), at);
      StepShrinks(Push(f, TimerTick), at);
      DrainSteady(Step(Push(f, TimerTick), at), at, f.neighbor);
  }

  /**
   * As long as ThreeWay lasts, a neighbour that is there is the one that was there from its start: same system, level
   * and address.
   */
  lemma {:induction false} NeighborConstant(me: Identity, states: seq<Fsm>, inputs: seq<Input>, i: nat, j: nat)
    requires Run(me, states, inputs) && i < j < |states|
    requires forall m :: i <= m <= j ==> states[m].state == ThreeWay
    requires states[j].neighbor.Some?
    ensures SameNeighbor(states[i].neighbor, states[j].neighbor)
  {
    hide Apply, Sound;
    RunSound(me, states, inputs, j - 1);
    ApplySteady(states[j - 1], inputs[j - 1]);
    if i < j - 1 { NeighborConstant(me, states, inputs, i, j - 1); }
  }

  // ---- ThreeWay without a neighbour ----

  lemma DrainStep(f: Fsm, now: int)
    requires f.queue != []
    ensures Drain(f, now) == Drain(Step(f, now), now)
  {
    StepShrinks(f, now);
  }

  /** Exactly what a second does to a machine at rest. */
  lemma TickExactly(f: Fsm, now: int)
    requires f.queue == []
    ensures Tick(f, now) == match f.state
      case OneWay => SendLIE(f)
      case TwoWay | ThreeWay => if Expired(f, now) then EnterState(SendLIE(f), OneWay) else SendLIE(f)
      case MultipleNeighborsWait => if f.deadline.Some? && now > f.deadline.value then EnterState(f, OneWay) else f
  {
    hide Drain, OwnLie, Weight;
    var a := Push(f, TimerTick);
    DrainStep(a, now);
    assert a.queue == [TimerTick] && a.queue[1..] == f.queue;
    assert a.(queue := a.queue[1..]) == f;
    var b := Step(a, now);
    if f.state == MultipleNeighborsWait {
      WaitTick(f, b, now);
    } else {
      assert b.queue == [SendLie] + if f.state != OneWay && Expired(f, now) then [HoldtimeExpired] else [];
      DrainStep(b, now);
      var c := Step(b, now);
      assert b.queue[1..] == if f.state != OneWay && Expired(f, now) then [HoldtimeExpired] else [];
      if f.state != OneWay && Expired(f, now) {
        DrainStep(c, now);
        assert c.queue[1..] == [];
        DrainNothing(Step(c, now), now);
        assert Step(c, now) == EnterState(SendLIE(f), OneWay);
      } else {
        DrainNothing(c, now);
        assert c == SendLIE(f);
      }
    }
  }

  lemma WaitTick(f: Fsm, b: Fsm, now: int)
    requires f.queue == [] && f.state == MultipleNeighborsWait && b == ProcessWait(f, TimerTick, now)
    ensures Drain(b, now) == if f.deadline.Some? && now > f.deadline.value then EnterState(f, OneWay) else f
  {
    if f.deadline.Some? && now > f.deadline.value {
      assert b.queue == [MultipleNeighborsDone] && b.queue[1..] == [];
      DrainStep(b, now);
      assert Step(b, now) == EnterState(f, OneWay);
      DrainNothing(Step(b, now), now);
    } else {
      DrainNothing(b, now);
    }
  }

  lemma DrainNothing(f: Fsm, now: int)
    requires f.queue == []
    ensures Drain(f, now) == f
  {
  }

  /** Without a neighbour there is no reception time either: nothing can expire. */
  predicate Timeless(f: Fsm) { f.neighbor.None? ==> f.lastRcvd.None? }

  lemma StepTimeless(f: Fsm, now: int)
    requires f.queue != [] && Timeless(f)
    ensures Timeless(Step(f, now))
  {
    hide Silenced, MTUDiffers, LevelRefused, Expired, OwnLie, Reflects;
  }

  lemma {:induction false} DrainTimeless(f: Fsm, now: int)
    requires Timeless(f)
    ensures Timeless(Drain(f, now))
    decreases Weight(f.queue)
  {
    hide Step, Weight, Timeless;
    if f.queue != [] {
      StepTimeless(f, now);
      StepShrinks(f, now);
      DrainTimeless(Step(f, now), now);
    }
  }

  lemma {:induction false} RunTimeless(me: Identity, states: seq<Fsm>, inputs: seq<Input>, i: nat)
    requires Run(me, states, inputs) && i < |states|
    ensures Timeless(states[i])
  {
    hide Drain;
    if i > 0 {
      RunTimeless(me, states, inputs, i - 1);
      match inputs[i - 1]
      case Packet(lie, src, at) => if lie.Some? { DrainTimeless(Received(states[i - 1], lie.value, src), at); }
      case Second(at) => DrainTimeless(Push(states[i - 1], TimerTick), at);
    }
  }

  /** A machine in ThreeWay that lost its neighbour stays so through any number of seconds: it never times out. */
  lemma NeighborlessNeverTimesOut(me: Identity, states: seq<Fsm>, inputs: seq<Input>, i: nat)
    requires Run(me, states, inputs) && i < |inputs| && inputs[i].Second?
    requires states[i].state == ThreeWay && states[i].neighbor.None?
    ensures states[i + 1].state == ThreeWay && states[i + 1].neighbor.None?
  {
    hide Drain;
    RunSound(me, states, inputs, i);
    RunTimeless(me, states, inputs, i);
    TickExactly(states[i], inputs[i].at);
  }

  predicate Fatal(ev: Event) { Down(ev) && ev != MultipleNeighborsDone }

  /** In a drain that began in ThreeWay with a neighbour and a LIE that was not silenced. */
  ghost predicate Kept(f: Fsm) {
    LieRcvd !in f.queue && (f.state == ThreeWay && f.neighbor.None? ==> exists d :: d in f.queue && Fatal(d))
  }

  lemma StepKept(f: Fsm, now: int)
    requires Sound(f) && f.queue != [] && Kept(f)
    ensures Kept(Step(f, now))
  {
    hide ProcessLIE, OwnLie, Expired, LastState, AllJustified, AcceptedAs, Fatal;
    PoppedQueue(f);
    assert f.queue[0] != LieRcvd;
    match f.state
    case OneWay => assert f.queue[0] != ValidReflection;
    case TwoWay => if f.queue[0] == ValidReflection { assert PendingReflected(f); }
    case ThreeWay =>
      if f.neighbor.None? {
        var d :| d in f.queue && Fatal(d);
        if d == f.queue[0] { DownLeaves(f, now); } else { assert d in Popped(f).queue; }
      }
    case MultipleNeighborsWait =>
  }

  lemma DownLeaves(f: Fsm, now: int)
    requires f.queue != [] && f.state == ThreeWay && Fatal(f.queue[0])
    ensures Step(f, now).state == OneWay
  {
  }

  lemma {:induction false} DrainKept(f: Fsm, now: int)
    requires Sound(f) && Kept(f)
    ensures Kept(Drain(f, now))
    decreases Weight(f.queue)
  {
    hide Sound, Step, Weight, Kept;
    if f.queue != [] {
      StepSound(f, now);
      StepKept(f, now);
      StepShrinks(f, now);
      DrainKept(Step(f, now), now);
    }
  }

  lemma FirstKept(f: Fsm, lie: Lie, src: Addr, now: int)
    requires AtRest(f) && f.state == ThreeWay && f.neighbor.Some?
    ensures Silenced(f.me, lie) ==> Step(Received(f, lie, src), now) == Cleanup(f.(pending := Some(Pending(lie, src))))
    ensures !Silenced(f.me, lie) ==> Kept(Step(Received(f, lie, src), now))
  {
    hide Sound, Silenced, MTUDiffers, LevelAcceptable, Expired, Reflects, MinorFieldsChanged;
    var g := Received(f, lie, src);
    assert g.queue == [LieRcvd] && g.queue[1..] == f.queue;
    assert g.(queue := g.queue[1..]) == f.(pending := Some(Pending(lie, src)));
    var h := Step(g, now);
    if !Silenced(f.me, lie) && h.neighbor.None? {
      assert h.queue[1] in h.queue && Fatal(h.queue[1]);
    }
  }

  /**
   * A packet leaves ThreeWay standing without a neighbour exactly when its header is of another version, our own, or
   * illegal.
   */
  lemma NeighborLostExactly(f: Fsm, lie: Lie, src: Addr, now: int)
    requires AtRest(f) && f.state == ThreeWay && f.neighbor.Some?
    ensures var r := HandlePacket(f, Some(lie), src, now); (r.state == ThreeWay && r.neighbor.None?) <==>
              Silenced(f.me, lie)
  {
    hide Sound, Step, Drain, Silenced;
    var g := Received(f, lie, src);
    FirstKept(f, lie, src, now);
    PushInput(f, LieRcvd, Some(Pending(lie, src)));
    StepSound(g, now);
    DrainStep(g, now);
    if Silenced(f.me, lie) {
      DrainNothing(Step(g, now), now);
    } else {
      DrainKept(Step(g, now), now);
    }
  }
}
