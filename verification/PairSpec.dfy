/** The in-memory WebSocket pair: every critical section as a function on the shared state. */
module PairSpec {
  import opened Common
  import opened FrameSpec

  const QUEUE_DEPTH: nat := 8

  /** The two ends, by their send index. */
  datatype End = E0 | E1 {
    function Other(): End {
      if this == E0 then E1 else E0
    }
  }

  datatype Two<T> = Two(t0: T, t1: T) {
    function At(e: End): T {
      if e == E0 then t0 else t1
    }

    function With(e: End, v: T): Two<T> {
      if e == E0 then Two(v, t1) else Two(t0, v)
    }
  }

  /** Names one call of one of the four operations, and so the callback it carries. */
  type Id = nat

  datatype CloseReason = CloseReason(code: nat, reason: string)

  datatype PendingSend = PendingSend(message: Message, id: Id)

  /** `PairState`. A callback slot is the id of the call parked in it. */
  datatype State = State(
    queues: Two<seq<Message>>,
    pendingReceive: Two<Option<Id>>,
    pendingSend: Two<Option<PendingSend>>,
    generation: Two<nat>,
    blockedReceivers: Two<nat>,
    blockedSenders: Two<nat>,
    closed: bool,
    peerClose: Two<Option<CloseReason>>)

  datatype Received = Got(message: Message) | CleanEnd | ReceiveTimeout | ReceiveRefused

  datatype SendResult = Sent | SendClosed | SendRefused | SendInvalid

  /** A call coming to its end: a callback fires or a blocking call returns. */
  datatype Event =
    | ReceiveDone(end: End, id: Id, received: Received)
    | SendDone(end: End, id: Id, message: Message, result: SendResult)

  /** What a critical section leaves behind, what it completes, and whether it notified the waiters. */
  datatype Done = Done(s: State, events: seq<Event>, notified: bool)

  function Initial(): State {
    State(Two([], []), Two(None, None), Two(None, None), Two(0, 0), Two(0, 0), Two(0, 0), false, Two(None, None))
  }

  // ----- sending -----

  /** The message goes to the peer's parked receive, or else into the queue. */
  function Transmit(s: State, e: End, id: Id, m: Message): Done {
    match s.pendingReceive.At(e.Other())
    case Some(receiver) =>
      Done(s.(pendingReceive := s.pendingReceive.With(e.Other(), None)),
           [ReceiveDone(e.Other(), receiver, Got(m)), SendDone(e, id, m, Sent)], true)
    case None =>
      Done(s.(queues := s.queues.With(e, s.queues.At(e) + [m])), [SendDone(e, id, m, Sent)], true)
  }

  /** The wait condition of the blocking Send. */
  predicate SendReady(s: State, e: End) {
    (|s.queues.At(e)| < QUEUE_DEPTH && s.pendingSend.At(e).None?) || s.closed
  }

  /** The blocking Send once its condition holds. */
  function FinishSend(s: State, e: End, id: Id, m: Message): Done {
    if s.closed then Done(s, [SendDone(e, id, m, SendClosed)], false) else Transmit(s, e, id, m)
  }

  function SendAsync(s: State, e: End, id: Id, m: Message): Done {
    if Encode(m).Err? then Done(s, [SendDone(e, id, m, SendInvalid)], false)
    else if s.closed then Done(s, [SendDone(e, id, m, SendClosed)], false)
    else if s.pendingSend.At(e).Some? || s.blockedSenders.At(e) > 0 then Done(s, [SendDone(e, id, m, SendRefused)], false)
    else if |s.queues.At(e)| >= QUEUE_DEPTH then
      Done(s.(pendingSend := s.pendingSend.With(e, Some(PendingSend(m, id)))), [], false)
    else Transmit(s, e, id, m)
  }

  // ----- receiving -----

  /** After e freed a place, the peer's parked send takes it. */
  function Absorb(s: State, e: End): (State, seq<Event>) {
    var o := e.Other();
    match s.pendingSend.At(o)
    case None => (s, [])
    case Some(p) =>
      if |s.queues.At(o)| >= QUEUE_DEPTH then (s, [])
      else
        (s.(queues := s.queues.With(o, s.queues.At(o) + [p.message]), pendingSend := s.pendingSend.With(o, None)),
         [SendDone(o, p.id, p.message, Sent)])
  }

  /** Takes the oldest message. */
  function Pop(s: State, e: End, id: Id): Done
    requires s.queues.At(e.Other()) != []
  {
    var inbound := s.queues.At(e.Other());
    var (s2, absorbed) := Absorb(s.(queues := s.queues.With(e.Other(), inbound[1..])), e);
    Done(s2, absorbed + [ReceiveDone(e, id, Got(inbound[0]))], true)
  }

  function ReceiveAsync(s: State, e: End, id: Id, timeout: Option<int>): Done {
    if s.pendingReceive.At(e).Some? || s.blockedReceivers.At(e) > 0 then
      Done(s, [ReceiveDone(e, id, ReceiveRefused)], false)
    else if s.queues.At(e.Other()) != [] then Pop(s, e, id)
    else if s.closed then Done(s, [ReceiveDone(e, id, CleanEnd)], false)
    else if timeout.Some? && timeout.value <= 0 then Done(s, [ReceiveDone(e, id, ReceiveTimeout)], false)
    else
      Done(s.(pendingReceive := s.pendingReceive.With(e, Some(id)),
              generation := s.generation.With(e, s.generation.At(e) + 1)), [], false)
  }

  /** The wait condition of the blocking Receive. */
  predicate ReceiveReady(s: State, e: End) {
    (s.queues.At(e.Other()) != [] && s.pendingReceive.At(e).None?) || s.closed
  }

  /** The blocking Receive once its condition holds. */
  function FinishReceive(s: State, e: End, id: Id): Done {
    if s.queues.At(e.Other()) == [] then Done(s, [ReceiveDone(e, id, CleanEnd)], false) else Pop(s, e, id)
  }

  /** The deadline armed for park `generation` expires. */
  function Watchdog(s: State, e: End, generation: nat): Done {
    match s.pendingReceive.At(e)
    case None => Done(s, [], false)
    case Some(id) =>
      if s.generation.At(e) != generation then Done(s, [], false)
      else Done(s.(pendingReceive := s.pendingReceive.With(e, None)), [ReceiveDone(e, id, ReceiveTimeout)], true)
  }

  // ----- closing -----

  /** One end's waiters at the close, its send before its receive. */
  function Waiters(s: State, e: End): seq<Event> {
    (match s.pendingSend.At(e) case None => [] case Some(p) => [SendDone(e, p.id, p.message, SendClosed)]) +
    (match s.pendingReceive.At(e) case None => [] case Some(id) => [ReceiveDone(e, id, CleanEnd)])
  }

  function Shut(s: State, e: End, why: CloseReason): Done {
    Done(s.(closed := true, pendingReceive := Two(None, None), pendingSend := Two(None, None),
            peerClose := if s.closed then s.peerClose else s.peerClose.With(e.Other(), Some(why))),
         Waiters(s, E0) + Waiters(s, E1), true)
  }

  // ----- the slot protocol -----

  ghost predicate SlotsOk(s: State) {
    SlotOk(s, E0) && SlotOk(s, E1)
  }

  ghost predicate SlotOk(s: State, e: End) {
    (s.pendingReceive.At(e).Some? ==> s.queues.At(e.Other()) == []) &&
    (s.pendingSend.At(e).Some? ==> |s.queues.At(e)| == QUEUE_DEPTH) &&
    (s.closed ==> s.pendingReceive.At(e).None? && s.pendingSend.At(e).None?) &&
    |s.queues.At(e)| <= QUEUE_DEPTH
  }

  // ----- what crosses -----

  /** The messages end e's completed sends put into the session. */
  function Accepted(events: seq<Event>, e: End): seq<Message> {
    if events == [] then []
    else
      var last := events[|events| - 1];
      Accepted(events[..|events| - 1], e) +
      if last.SendDone? && last.end == e && last.result == Sent then [last.message] else []
  }

  /** The messages end e's completed receives took out of it. */
  function Delivered(events: seq<Event>, e: End): seq<Message> {
    if events == [] then []
    else
      var last := events[|events| - 1];
      Delivered(events[..|events| - 1], e) +
      if last.ReceiveDone? && last.end == e && last.received.Got? then [last.received.message] else []
  }

  /** How often call id has come to its end. */
  function Completions(events: seq<Event>, id: Id): nat {
    if events == [] then 0
    else Completions(events[..|events| - 1], id) + if events[|events| - 1].id == id then 1 else 0
  }

  lemma {:induction false} Appended(a: seq<Event>, b: seq<Event>, e: End, id: Id)
    ensures Accepted(a + b, e) == Accepted(a, e) + Accepted(b, e)
    ensures Delivered(a + b, e) == Delivered(a, e) + Delivered(b, e)
    ensures Completions(a + b, id) == Completions(a, id) + Completions(b, id)
    decreases |b|
  {
    if b == [] {
      assert a + b == a;
    } else {
      var b' := b[..|b| - 1];
      assert (a + b)[..|a + b| - 1] == a + b';
      Appended(a, b', e, id);
    }
  }

  function Parked(s: State, id: Id): nat {
    (if s.pendingReceive.t0 == Some(id) then 1 else 0) + (if s.pendingReceive.t1 == Some(id) then 1 else 0) +
    (if s.pendingSend.t0.Some? && s.pendingSend.t0.value.id == id then 1 else 0) +
    (if s.pendingSend.t1.Some? && s.pendingSend.t1.value.id == id then 1 else 0)
  }

  // ----- what every critical section obeys -----

  /**
   * Nothing is lost, invented or reordered; every callback taken out of a slot is completed, once;
   * `served` is the call the section serves, if it serves one.
   */
  ghost predicate Lawful(s: State, d: Done, served: Option<Id>) {
    SlotsOk(d.s) &&
    Flow(s, d, E0) && Flow(s, d, E1) &&
    forall id: Id :: Accounted(s, d, served, id)
  }

  /** Call id is completed or parked as often after the section as it was parked or served before. */
  ghost predicate Accounted(s: State, d: Done, served: Option<Id>, id: Id) {
    Completions(d.events, id) + Parked(d.s, id) == Parked(s, id) + if served == Some(id) then 1 else 0
  }

  /** What was queued, then what was accepted, is what was delivered, then what is still queued. */
  ghost predicate Flow(s: State, d: Done, e: End) {
    Delivered(d.events, e.Other()) + d.s.queues.At(e) == s.queues.At(e) + Accepted(d.events, e)
  }

  lemma One(e: Event, x: End, id: Id)
    ensures Accepted([e], x) == if e.SendDone? && e.end == x && e.result == Sent then [e.message] else []
    ensures Delivered([e], x) == if e.ReceiveDone? && e.end == x && e.received.Got? then [e.received.message] else []
    ensures Completions([e], id) == if e.id == id then 1 else 0
  {
    assert [e][..0] == [];
  }

  lemma Pair(e: Event, f: Event, x: End, id: Id)
    ensures Accepted([e, f], x) == Accepted([e], x) + Accepted([f], x)
    ensures Delivered([e, f], x) == Delivered([e], x) + Delivered([f], x)
    ensures Completions([e, f], id) == Completions([e], id) + Completions([f], id)
  {
    Appended([e], [f], x, id);
    assert [e] + [f] == [e, f];
  }

  /** The three readings of at most two events. */
  lemma EventsOf(events: seq<Event>, x: End, id: Id)
    requires |events| <= 2
    ensures |events| == 0 ==> Accepted(events, x) == [] && Delivered(events, x) == [] && Completions(events, id) == 0
    ensures |events| == 1 ==>
              Accepted(events, x) == Accepts(events[0], x) && Delivered(events, x) == Delivers(events[0], x) &&
              Completions(events, id) == Completes(events[0], id)
    ensures |events| == 2 ==>
              Accepted(events, x) == Accepts(events[0], x) + Accepts(events[1], x) &&
              Delivered(events, x) == Delivers(events[0], x) + Delivers(events[1], x) &&
              Completions(events, id) == Completes(events[0], id) + Completes(events[1], id)
  {
    if |events| >= 1 {
      One(events[0], x, id);
      assert |events| == 1 ==> events == [events[0]];
    }
    if |events| == 2 {
      One(events[1], x, id);
      Pair(events[0], events[1], x, id);
      assert events == [events[0], events[1]];
    }
  }

  function Accepts(e: Event, x: End): seq<Message> {
    if e.SendDone? && e.end == x && e.result == Sent then [e.message] else []
  }

  function Delivers(e: Event, x: End): seq<Message> {
    if e.ReceiveDone? && e.end == x && e.received.Got? then [e.received.message] else []
  }

  function Completes(e: Event, id: Id): nat {
    if e.id == id then 1 else 0
  }

  /** A section that only answers its caller. */
  lemma AnswerLawful(s: State, e: Event, notified: bool)
    requires SlotsOk(s) && !(e.SendDone? && e.result == Sent) && !(e.ReceiveDone? && e.received.Got?)
    ensures Lawful(s, Done(s, [e], notified), Some(e.id))
  {
    hide Accepted, Delivered, Completions, SlotOk, Parked;
    var d := Done(s, [e], notified);
    EventsOf(d.events, E0, 0);
    EventsOf(d.events, E1, 0);
    forall id: Id
      ensures Accounted(s, d, Some(e.id), id)
    {
      EventsOf(d.events, E0, id);
    }
  }

  lemma TransmitFlow(s: State, e: End, id: Id, m: Message, x: End)
    requires SlotsOk(s) && !s.closed && |s.queues.At(e)| < QUEUE_DEPTH && s.pendingSend.At(e).None?
    ensures SlotOk(Transmit(s, e, id, m).s, x) && Flow(s, Transmit(s, e, id, m), x)
  {
    hide Accepted, Delivered, Completions;
    EventsOf(Transmit(s, e, id, m).events, x, id);
    EventsOf(Transmit(s, e, id, m).events, x.Other(), id);
  }

  lemma TransmitLawful(s: State, e: End, id: Id, m: Message)
    requires SlotsOk(s) && !s.closed && |s.queues.At(e)| < QUEUE_DEPTH && s.pendingSend.At(e).None?
    ensures Lawful(s, Transmit(s, e, id, m), Some(id))
  {
    hide Accepted, Delivered, Completions, SlotOk, Flow;
    TransmitFlow(s, e, id, m, E0);
    TransmitFlow(s, e, id, m, E1);
    forall y: Id
      ensures Accounted(s, Transmit(s, e, id, m), Some(id), y)
    {
      EventsOf(Transmit(s, e, id, m).events, e, y);
    }
  }

  lemma PopSlots(s: State, e: End, id: Id, x: End)
    requires SlotsOk(s) && s.queues.At(e.Other()) != []
    ensures SlotOk(Pop(s, e, id).s, x)
  {
  }

  lemma PopFlow(s: State, e: End, id: Id, x: End)
    requires SlotsOk(s) && s.queues.At(e.Other()) != []
    ensures Flow(s, Pop(s, e, id), x)
  {
    hide Accepted, Delivered, Completions;
    var d := Pop(s, e, id);
    EventsOf(d.events, x, id);
    EventsOf(d.events, x.Other(), id);
    var q := s.queues.At(e.Other());
    assert [q[0]] + q[1..] == q;
  }

  lemma PopAccounted(s: State, e: End, id: Id, y: Id)
    requires s.queues.At(e.Other()) != []
    ensures Accounted(s, Pop(s, e, id), Some(id), y)
  {
    hide Accepted, Delivered, Completions;
    EventsOf(Pop(s, e, id).events, e, y);
  }

  lemma PopLawful(s: State, e: End, id: Id)
    requires SlotsOk(s) && s.queues.At(e.Other()) != []
    ensures Lawful(s, Pop(s, e, id), Some(id))
  {
    PopSlots(s, e, id, E0);
    PopSlots(s, e, id, E1);
    PopFlow(s, e, id, E0);
    PopFlow(s, e, id, E1);
    hide Pop, SlotOk, Flow, Accounted;
    forall y: Id
      ensures Accounted(s, Pop(s, e, id), Some(id), y)
    {
      PopAccounted(s, e, id, y);
    }
  }

  lemma FinishSendLawful(s: State, e: End, id: Id, m: Message)
    requires SlotsOk(s) && SendReady(s, e)
    ensures Lawful(s, FinishSend(s, e, id, m), Some(id))
  {
    hide Transmit, Lawful, SlotsOk;
    if s.closed {
      AnswerLawful(s, SendDone(e, id, m, SendClosed), false);
    } else {
      TransmitLawful(s, e, id, m);
    }
  }

  /** A section that only parks its caller as a send. */
  lemma ParkSendLawful(s: State, e: End, id: Id, m: Message)
    requires SlotsOk(s) && !s.closed && s.pendingSend.At(e).None? && |s.queues.At(e)| >= QUEUE_DEPTH
    ensures Lawful(s, Done(s.(pendingSend := s.pendingSend.With(e, Some(PendingSend(m, id)))), [], false), Some(id))
  {
    var d := Done(s.(pendingSend := s.pendingSend.With(e, Some(PendingSend(m, id)))), [], false);
    forall y: Id
      ensures Accounted(s, d, Some(id), y)
    {
    }
  }

  lemma ParkReceiveLawful(s: State, e: End, id: Id)
    requires SlotsOk(s) && !s.closed && s.pendingReceive.At(e).None? && s.queues.At(e.Other()) == []
    ensures Lawful(s, Done(s.(pendingReceive := s.pendingReceive.With(e, Some(id)),
                              generation := s.generation.With(e, s.generation.At(e) + 1)), [], false), Some(id))
  {
    var d := Done(s.(pendingReceive := s.pendingReceive.With(e, Some(id)),
                     generation := s.generation.With(e, s.generation.At(e) + 1)), [], false);
    forall y: Id
      ensures Accounted(s, d, Some(id), y)
    {
    }
  }

  lemma SendAsyncLawful(s: State, e: End, id: Id, m: Message)
    requires SlotsOk(s)
    ensures Lawful(s, SendAsync(s, e, id, m), Some(id))
  {
    hide Transmit, Encode, Lawful;
    if Encode(m).Err? {
      AnswerLawful(s, SendDone(e, id, m, SendInvalid), false);
    } else if s.closed {
      AnswerLawful(s, SendDone(e, id, m, SendClosed), false);
    } else if s.pendingSend.At(e).Some? || s.blockedSenders.At(e) > 0 {
      AnswerLawful(s, SendDone(e, id, m, SendRefused), false);
    } else if |s.queues.At(e)| >= QUEUE_DEPTH {
      ParkSendLawful(s, e, id, m);
    } else {
      TransmitLawful(s, e, id, m);
    }
  }

  lemma ReceiveAsyncLawful(s: State, e: End, id: Id, timeout: Option<int>)
    requires SlotsOk(s)
    ensures Lawful(s, ReceiveAsync(s, e, id, timeout), Some(id))
  {
    hide Pop, Lawful;
    if s.pendingReceive.At(e).Some? || s.blockedReceivers.At(e) > 0 {
      AnswerLawful(s, ReceiveDone(e, id, ReceiveRefused), false);
    } else if s.queues.At(e.Other()) != [] {
      PopLawful(s, e, id);
    } else if s.closed {
      AnswerLawful(s, ReceiveDone(e, id, CleanEnd), false);
    } else if timeout.Some? && timeout.value <= 0 {
      AnswerLawful(s, ReceiveDone(e, id, ReceiveTimeout), false);
    } else {
      ParkReceiveLawful(s, e, id);
    }
  }

  lemma FinishReceiveLawful(s: State, e: End, id: Id)
    requires SlotsOk(s)
    ensures Lawful(s, FinishReceive(s, e, id), Some(id))
  {
    hide Pop, Lawful;
    if s.queues.At(e.Other()) == [] {
      AnswerLawful(s, ReceiveDone(e, id, CleanEnd), false);
    } else {
      PopLawful(s, e, id);
    }
  }

  lemma WatchdogLawful(s: State, e: End, generation: nat)
    requires SlotsOk(s)
    ensures Lawful(s, Watchdog(s, e, generation), None)
  {
    hide Accepted, Delivered, Completions;
    var d := Watchdog(s, e, generation);
    EventsOf(d.events, E0, 0);
    EventsOf(d.events, E1, 0);
    forall y: Id
      ensures Accounted(s, d, None, y)
    {
      EventsOf(d.events, e, y);
    }
  }

  lemma WaitersOf(s: State, e: End, x: End, id: Id)
    ensures Accepted(Waiters(s, e), x) == [] && Delivered(Waiters(s, e), x) == []
    ensures Completions(Waiters(s, e), id) ==
            (if s.pendingReceive.At(e) == Some(id) then 1 else 0) +
            (if s.pendingSend.At(e).Some? && s.pendingSend.At(e).value.id == id then 1 else 0)
  {
    hide Accepted, Delivered, Completions;
    EventsOf(Waiters(s, e), x, id);
  }

  lemma AllWaiters(s: State, x: End, id: Id)
    ensures var events := Waiters(s, E0) + Waiters(s, E1);
            Accepted(events, x) == [] && Delivered(events, x) == [] && Completions(events, id) == Parked(s, id)
  {
    hide Accepted, Delivered, Completions, Waiters;
    Appended(Waiters(s, E0), Waiters(s, E1), x, id);
    WaitersOf(s, E0, x, id);
    WaitersOf(s, E1, x, id);
  }

  lemma ShutLawful(s: State, e: End, why: CloseReason)
    requires SlotsOk(s)
    ensures Lawful(s, Shut(s, e, why), None)
  {
    hide Accepted, Delivered, Completions, Waiters;
    var d := Shut(s, e, why);
    AllWaiters(s, E0, 0);
    AllWaiters(s, E1, 0);
    forall y: Id
      ensures Accounted(s, d, None, y)
    {
      AllWaiters(s, e, y);
    }
  }
}
