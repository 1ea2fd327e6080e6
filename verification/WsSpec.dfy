/** The full-duplex WebSocket session: every lock section of `WsSession` as a function on its fields. */
module WsSpec {
  import opened Common
  import opened FrameSpec
  import opened Crc32

  const QUEUE_DEPTH: nat := 8

  type Id = nat

  /** The fields of `WsSession` that its sections decide on; a callback slot is the id of the call parked in it. */
  datatype Session = Session(
    received: seq<Message>,
    pendingReceive: Option<Id>,
    pendingSend: Option<Id>,
    generation: nat,
    blockedReceivers: nat,
    readPaused: bool,
    peerClosed: bool,
    failed: bool,
    writeComplete: bool,
    writeError: bool,
    wireWriteBusy: bool,
    closeRequested: bool,
    closeStarted: bool,
    kicked: bool)
  {
    predicate Terminal() { failed || peerClosed }
  }

  datatype Received = Got(message: Message) | CleanEnd | ReceiveError | ReceiveTimeout | ReceiveRefused

  datatype SendResult = Sent | SendError | SendRefused | SendInvalid

  datatype Event = ReceiveDone(id: Id, received: Received) | SendDone(id: Id, result: SendResult)

  /** What the strand does right after the section released the lock. */
  datatype Then = Nothing | ArmRead | Pump | ArmWrite | ArmClose | FailNext

  /** How an asynchronous write or close ended. */
  datatype Ending = Success | Aborted | OtherError

  /**
   * What a section leaves behind: the fields, the completions it fires, what the strand does next, whether it posted
   * a read pump, a ready completion or (once the lock is free) a write, and whether it notified the waiting calls.
   */
  datatype Effect = Effect(
    s: Session,
    events: seq<Event>,
    then_: Then,
    postsPump: bool,
    postsReady: Option<(Id, Message)>,
    postsWrite: bool,
    notified: bool)

  /** The section gives the strand nothing to do and starts no wire operation. */
  predicate OffStrand(s: Session, e: Effect) {
    e.then_.Nothing? && e.s.closeStarted == s.closeStarted && e.s.wireWriteBusy == s.wireWriteBusy
  }

  /** The section parks no receive and counts no blocked one; it may complete the one parked. */
  predicate ParksNothing(s: Session, e: Effect) {
    e.s.generation == s.generation && e.s.blockedReceivers == s.blockedReceivers &&
    (e.s.pendingReceive == s.pendingReceive || e.s.pendingReceive == None)
  }

  predicate EndsStream(ev: Event) {
    ev.ReceiveDone? && (ev.received.CleanEnd? || ev.received.ReceiveError?)
  }

  /** The end is reported to a receiver only once the queue is drained. */
  predicate EndLaw(s: Session, e: Effect) {
    ReceiveSlotOk(s) && (exists ev | ev in e.events :: EndsStream(ev)) ==> e.s.received == []
  }

  /** The session ended with a receive still parked. */
  predicate Stranded(s: Session) {
    s.Terminal() && s.pendingReceive.Some?
  }

  /** The section strands no receive and adds no second ending to the first. */
  predicate FlagLaw(s: Session, e: Effect) {
    (Stranded(e.s) ==> Stranded(s)) && (e.s.failed && e.s.peerClosed ==> s.failed && s.peerClosed)
  }

  predicate HandsOverMessage(ev: Event) {
    ev.ReceiveDone? && ev.received.Got?
  }

  /** At most one of the section's completions hands over a message, and that only where it may. */
  predicate OneMessage(e: Effect, may: bool) {
    (may && |e.events| <= 1) || forall ev | ev in e.events :: !HandsOverMessage(ev)
  }

  /** The section reports no send as sent. */
  predicate NoneSent(e: Effect) {
    forall ev | ev in e.events :: ev.SendDone? ==> ev.result != Sent
  }

  predicate Live(s: Session) {
    !s.Terminal() && !s.closeRequested
  }

  /** The pump pauses for a full queue only. */
  predicate PausedOk(s: Session) {
    s.readPaused ==> |s.received| >= QUEUE_DEPTH
  }

  /** While the session stays live the right to read is not dropped either, but for a failure on its way. */
  predicate PumpLaw(s: Session, e: Effect, brings: bool) {
    Live(e.s) && CloseFlagsOk(s) && !(brings && s.readPaused) ==>
      Live(s) && AsCount(e.then_.ArmRead? || e.then_.Pump? || e.then_.FailNext?) + AsCount(e.postsPump) + AsCount(e.s.readPaused) == AsCount(s.readPaused) + AsCount(brings) &&
      (PausedOk(s) ==> PausedOk(e.s))
  }

  function Plain(s: Session, events: seq<Event>): Effect {
    Effect(s, events, Nothing, false, None, false, false)
  }

  /** The same, with every waiting call notified. */
  function Notifying(s: Session, events: seq<Event>): Effect {
    Plain(s, events).(notified := true)
  }

  function Initial(): Session {
    Session([], None, None, 0, 0, false, false, false, true, false, false, false, false, false)
  }

  // ----- the strand -----

  function PumpRead(s: Session): (e: Effect)
    ensures ParksNothing(s, e) && PumpLaw(s, e, true) && e.postsReady.None? && EndLaw(s, e) && NoneSent(e) && OneMessage(e, false) && FlagLaw(s, e)
  {
    if s.failed || s.peerClosed || s.closeStarted then Plain(s, [])
    else if |s.received| >= QUEUE_DEPTH then Plain(s.(readPaused := true), [])
    else Plain(s, []).(then_ := ArmRead)
  }

  /** `TakeAsyncWaitersLocked` and the completions fired from what it took: the send before the receive. */
  function Waiters(s: Session, clean: bool): seq<Event> {
    (match s.pendingSend case None => [] case Some(id) => [SendDone(id, SendError)]) +
    (match s.pendingReceive case None => [] case Some(id) => [ReceiveDone(id, if clean then CleanEnd else ReceiveError)])
  }

  function Emptied(s: Session): Session {
    s.(pendingReceive := None, pendingSend := None)
  }

  function Failed(s: Session): Session {
    if !s.failed && !s.peerClosed then s.(failed := true) else s
  }

  function OnReadClosed(s: Session): (e: Effect)
    ensures ParksNothing(s, e) && PumpLaw(s, e, true) && e.postsReady.None? && EndLaw(s, e) && OneMessage(e, false) && NoneSent(e)
  {
    Notifying(Emptied(s.(peerClosed := true)), Waiters(s, true))
  }

  /** A failed read: swallowed when our own close aborted it, else the session fails in a section of its own. */
  function OnReadError(s: Session, ec: Ending): (e: Effect)
    ensures ParksNothing(s, e) && PumpLaw(s, e, true) && e.postsReady.None? && EndLaw(s, e) && NoneSent(e) && OneMessage(e, false) && FlagLaw(s, e)
  {
    if s.closeRequested && ec == Aborted then Plain(s, []) else Plain(s, []).(then_ := FailNext)
  }

  function Fail(s: Session): (e: Effect)
    ensures OffStrand(s, e) && ParksNothing(s, e) && PumpLaw(s, e, false) && e.postsReady.None? && EndLaw(s, e) && NoneSent(e) && OneMessage(e, false) && FlagLaw(s, e)
  {
    Notifying(Emptied(Failed(s)), Waiters(s, false))
  }

  /** A protocol violation. */
  function FailAndClose(s: Session): (e: Effect)
    ensures ParksNothing(s, e) && PumpLaw(s, e, true) && e.postsReady.None? && EndLaw(s, e) && NoneSent(e) && OneMessage(e, false) && FlagLaw(s, e)
  {
    var s2 := Emptied(Failed(s)).(closeRequested := true);
    if !s.closeStarted && !s.wireWriteBusy then Notifying(s2.(closeStarted := true), Waiters(s, false)).(then_ := ArmClose)
    else Notifying(s2, Waiters(s, false))
  }

  function Deliver(s: Session, m: Message): (e: Effect)
    ensures ParksNothing(s, e) && PumpLaw(s, e, true) && e.postsReady.None? && EndLaw(s, e) && NoneSent(e) && OneMessage(e, s.pendingReceive.Some?) && FlagLaw(s, e)
  {
    match s.pendingReceive
    case Some(id) => Plain(s.(pendingReceive := None), [ReceiveDone(id, Got(m))]).(then_ := Pump)
    case None => Notifying(s.(received := s.received + [m]), []).(then_ := Pump)
  }

  /** A message read off the binary wire must be exactly one frame. */
  function OnReadMessage(s: Session, binary: bool, bytes: Octets): (e: Effect)
    ensures ParksNothing(s, e) && PumpLaw(s, e, true) && e.postsReady.None? && EndLaw(s, e) && NoneSent(e) && OneMessage(e, s.pendingReceive.Some?) && FlagLaw(s, e)
  {
    match Arrival(binary, bytes)
    case None => FailAndClose(s)
    case Some(m) => Deliver(s, m)
  }

  function Arrival(binary: bool, bytes: Octets): Option<Message> {
    if !binary then None
    else
      match Decode(bytes)
      case Ok(Some((m, n))) => if n == |bytes| then Some(m) else None
      case _ => None
  }

  function SendOf(pending: Option<Id>, result: SendResult): seq<Event> {
    match pending case None => [] case Some(id) => [SendDone(id, result)]
  }

  function StartWrite(s: Session): (e: Effect)
    ensures ParksNothing(s, e) && PumpLaw(s, e, false) && e.postsReady.None? && EndLaw(s, e) && NoneSent(e) && OneMessage(e, false) && FlagLaw(s, e)
  {
    if s.failed || s.peerClosed || s.closeRequested then
      Notifying(s.(writeComplete := true, writeError := true, pendingSend := None), SendOf(s.pendingSend, SendError))
    else Plain(s.(wireWriteBusy := true), []).(then_ := ArmWrite)
  }

  /** The fields after a write ended. */
  function Written(s: Session, ec: Ending): Session {
    var s2 := s.(wireWriteBusy := false, writeComplete := true, pendingSend := None);
    if ec != Success then Failed(s2.(writeError := true)) else s2
  }

  function OnWrite(s: Session, ec: Ending): (e: Effect)
    ensures ParksNothing(s, e) && PumpLaw(s, e, false) && e.postsReady.None? && EndLaw(s, e) && OneMessage(e, false)
  {
    var s2 := Written(s, ec);
    var events := SendOf(s.pendingSend, if s2.writeError then SendError else Sent);
    if ec == Success && s.closeRequested && !s.closeStarted then Notifying(s2.(closeStarted := true), events).(then_ := ArmClose)
    else Notifying(s2, events)
  }

  /** `RequestCloseLocked`; with a write in flight the socket's operations are cancelled instead. */
  function RequestClose(s: Session): (e: Effect)
    ensures ParksNothing(s, e) && PumpLaw(s, e, false) && e.postsReady.None? && EndLaw(s, e) && NoneSent(e) && OneMessage(e, false) && FlagLaw(s, e)
  {
    if s.closeRequested || s.failed || s.peerClosed then Plain(s, [])
    else if !s.wireWriteBusy then Plain(s.(closeRequested := true, closeStarted := true), []).(then_ := ArmClose)
    else Plain(s.(closeRequested := true), [])
  }

  function RequestKick(s: Session): (e: Effect)
    ensures ParksNothing(s, e) && PumpLaw(s, e, false) && e.postsReady.None? && EndLaw(s, e) && NoneSent(e) && OneMessage(e, false) && FlagLaw(s, e)
  {
    if s.kicked || s.peerClosed then Plain(s, []) else RequestClose(s.(kicked := true))
  }

  /** The first ending wins: a clean close, or its error. */
  function Ended(s: Session, ec: Ending): (r: Session)
    ensures r == s.(failed := r.failed, peerClosed := r.peerClosed) && r.Terminal()
    ensures r.failed && r.peerClosed ==> s.failed && s.peerClosed
  {
    if s.Terminal() then s else if ec != Success then s.(failed := true) else s.(peerClosed := true)
  }

  function OnClose(s: Session, ec: Ending): (e: Effect)
    ensures ParksNothing(s, e) && PumpLaw(s, e, false) && e.postsReady.None? && EndLaw(s, e) && NoneSent(e) && OneMessage(e, false) && FlagLaw(s, e)
  {
    var s2 := Ended(s, ec);
    Notifying(Emptied(s2), Waiters(s2, !s2.failed))
  }

  function Expire(s: Session): (e: Effect)
    requires s.pendingReceive.Some?
    ensures ParksNothing(s, e) && PumpLaw(s, e, false) && e.postsReady.None? && EndLaw(s, e) && NoneSent(e) && OneMessage(e, false) && FlagLaw(s, e)
    ensures e.postsReady.None? && !e.postsPump && !e.postsWrite && e.then_.Nothing?
  {
    Notifying(s.(pendingReceive := None), [ReceiveDone(s.pendingReceive.value, ReceiveTimeout)])
  }

  function OnDeadline(s: Session, generation: nat): (e: Effect)
    ensures ParksNothing(s, e) && PumpLaw(s, e, false) && e.postsReady.None? && EndLaw(s, e) && NoneSent(e) && OneMessage(e, false) && FlagLaw(s, e)
  {
    if s.pendingReceive.None? || s.generation != generation then Plain(s, []) else Expire(s)
  }

  // ----- the facade -----

  /** Does taking a message off the queue restart a paused pump? */
  predicate Resumes(s: Session) {
    s.readPaused && !s.failed && !s.peerClosed && |s.received| < QUEUE_DEPTH
  }

  function Resumed(s: Session): Session {
    if Resumes(s) then s.(readPaused := false) else s
  }

  /** The oldest message leaves the queue. */
  function Oldest(s: Session): (e: Effect)
    requires s.received != []
    ensures OffStrand(s, e) && ParksNothing(s, e) && PumpLaw(s, e, false) && e.postsReady.None? && EndLaw(s, e) && NoneSent(e) && OneMessage(e, false) && FlagLaw(s, e)
  {
    var s2 := s.(received := s.received[1..]);
    Plain(Resumed(s2), []).(postsPump := Resumes(s2))
  }

  predicate ReceiveReady(s: Session) {
    (s.received != [] && s.pendingReceive.None?) || s.peerClosed || s.failed
  }

  function FinishReceive(s: Session, id: Id): (e: Effect)
    ensures OffStrand(s, e) && ParksNothing(s, e) && PumpLaw(s, e, false) && e.postsReady.None? && EndLaw(s, e) && NoneSent(e) && OneMessage(e, true) && FlagLaw(s, e)
  {
    if s.received != [] && s.pendingReceive.None? then Oldest(s).(events := [ReceiveDone(id, Got(s.received[0]))])
    else Plain(s, [ReceiveDone(id, if s.peerClosed then CleanEnd else ReceiveError)])
  }

  function Park(s: Session, id: Id): (e: Effect)
    ensures OffStrand(s, e) && PumpLaw(s, e, false) && e.postsReady.None? && EndLaw(s, e) && NoneSent(e) && OneMessage(e, false) && (s.Terminal() || FlagLaw(s, e)) && e.events == [] && e.postsReady.None?
  {
    Plain(s.(pendingReceive := Some(id), generation := s.generation + 1), [])
  }

  /** An immediate answer. */
  function Answer(s: Session, id: Id, received: Received): (e: Effect)
    requires EndsStream(ReceiveDone(id, received)) ==> s.received == []
    ensures OffStrand(s, e) && ParksNothing(s, e) && PumpLaw(s, e, false) && e.postsReady.None? && EndLaw(s, e) && NoneSent(e) && OneMessage(e, received.Got?) && FlagLaw(s, e)
    ensures e.s == s && e.events == [ReceiveDone(id, received)] && e.postsReady.None? && !e.postsPump && !e.postsWrite
  {
    Plain(s, [ReceiveDone(id, received)])
  }

  function ReceiveAsync(s: Session, id: Id, timeout: Option<int>): (e: Effect)
    ensures OffStrand(s, e) && PumpLaw(s, e, false) && EndLaw(s, e) && NoneSent(e) && OneMessage(e, false) && FlagLaw(s, e)
    ensures e.postsReady.Some? ==> s.pendingReceive.None? && s.blockedReceivers == 0 && e.s.pendingReceive.None?
    ensures e == Park(s, id) || (ParksNothing(s, e) && (e.events != [] || e.postsReady.Some?))
  {
    if s.pendingReceive.Some? || s.blockedReceivers > 0 then Answer(s, id, ReceiveRefused)
    else if s.received != [] then Oldest(s).(postsReady := Some((id, s.received[0])))
    else ReceiveNothing(s, id, timeout)
  }

  /** The asynchronous receive with nothing queued and nobody before it. */
  function ReceiveNothing(s: Session, id: Id, timeout: Option<int>): (e: Effect)
    requires s.received == [] && s.pendingReceive.None?
    ensures OffStrand(s, e) && PumpLaw(s, e, false) && e.postsReady.None? && EndLaw(s, e) && NoneSent(e) && OneMessage(e, false) && FlagLaw(s, e)
    ensures e == Park(s, id) || (ParksNothing(s, e) && e.events != [])
  {
    if s.peerClosed then Answer(s, id, CleanEnd)
    else if s.failed then Answer(s, id, ReceiveError)
    else if timeout.Some? && timeout.value <= 0 then Answer(s, id, ReceiveTimeout)
    else Park(s, id)
  }

  /** The binary wire can carry the message. */
  predicate Sendable(m: Message) {
    Encode(m).Ok?
  }

  predicate SendReady(s: Session) {
    (s.writeComplete && s.pendingSend.None?) || s.failed || s.peerClosed || s.closeRequested
  }

  /** The blocking Send once its turn has come: refused, or the write is handed to the strand. */
  function BeginWrite(s: Session, id: Id): (e: Effect)
    ensures OffStrand(s, e) && ParksNothing(s, e) && PumpLaw(s, e, false) && e.postsReady.None? && EndLaw(s, e) && NoneSent(e) && OneMessage(e, false) && FlagLaw(s, e)
  {
    if s.failed || s.peerClosed || s.closeRequested then Plain(s, [SendDone(id, SendError)])
    else Plain(s.(writeComplete := false, writeError := false), []).(postsWrite := true)
  }

  /** The blocking Send once its write completed or the session failed. */
  function EndWrite(s: Session, id: Id): (e: Effect)
    ensures OffStrand(s, e) && ParksNothing(s, e) && PumpLaw(s, e, false) && e.postsReady.None? && EndLaw(s, e) && OneMessage(e, false) && FlagLaw(s, e)
  {
    Plain(s, [SendDone(id, if s.writeComplete && !s.writeError then Sent else SendError)])
  }

  function SendAsync(s: Session, id: Id): (e: Effect)
    ensures OffStrand(s, e) && ParksNothing(s, e) && PumpLaw(s, e, false) && e.postsReady.None? && EndLaw(s, e) && NoneSent(e) && OneMessage(e, false) && FlagLaw(s, e)
  {
    if s.failed || s.peerClosed || s.closeRequested then Plain(s, [SendDone(id, SendError)])
    else if !s.writeComplete || s.pendingSend.Some? then Plain(s, [SendDone(id, SendRefused)])
    else Plain(s.(pendingSend := Some(id), writeComplete := false, writeError := false), []).(postsWrite := true)
  }

  // ----- what every section obeys -----

  /** The messages the completions hand over, in order. */
  function Gots(events: seq<Event>): seq<Message> {
    if events == [] then []
    else
      var last := events[|events| - 1];
      Gots(events[..|events| - 1]) + if last.ReceiveDone? && last.received.Got? then [last.received.message] else []
  }

  /** The messages a section takes for receivers: handed over by its completions, or posted to be. */
  function Takes(e: Effect): seq<Message> {
    Gots(e.events) + match e.postsReady case None => [] case Some(r) => [r.1]
  }

  /** The part a section plays in the life of a write. */
  datatype Phase = Elsewhere | Starting | Ending

  /** The right to read is passed on or dropped, never doubled; no read is armed once the close has started. */
  predicate ReadLaw(s: Session, e: Effect, brings: bool) {
    AsCount(e.then_.ArmRead? || e.then_.Pump?) + AsCount(e.postsPump) + AsCount(e.s.readPaused) <= AsCount(s.readPaused) + AsCount(brings) &&
    (e.then_.ArmRead? ==> !e.s.closeStarted)
  }

  /** A write in progress is not complete, and only a starting one arms the wire. */
  predicate WriteLaw(s: Session, e: Effect, phase: Phase) {
    (e.then_.ArmWrite? ==> phase.Starting?) && (e.postsWrite ==> phase.Elsewhere? && s.writeComplete) &&
    e.s.writeComplete ==
    (match phase
     case Starting => s.writeComplete || !e.then_.ArmWrite?
     case Ending => true
     case Elsewhere => s.writeComplete && !e.postsWrite) &&
    e.s.wireWriteBusy ==
    (match phase
     case Starting => s.wireWriteBusy || e.then_.ArmWrite?
     case Ending => false
     case Elsewhere => s.wireWriteBusy) &&
    (SendSlotOk(s) ==> SendSlotOk(e.s))
  }

  /** A parked send belongs to a write in progress on a live session. */
  predicate SendSlotOk(s: Session) {
    s.pendingSend.Some? ==> !s.writeComplete && !s.Terminal()
  }

  predicate CloseFlagsOk(s: Session) {
    s.closeStarted ==> s.closeRequested && !s.wireWriteBusy
  }

  predicate CloseLaw(s: Session, e: Effect) {
    CloseFlagsOk(s) ==> AsCount(e.s.closeStarted) == AsCount(s.closeStarted) + AsCount(e.then_.ArmClose?) && CloseFlagsOk(e.s)
  }

  predicate ReceiveSlotOk(s: Session) {
    s.pendingReceive.Some? ==> s.received == []
  }

  /** What was queued and what arrived is what was taken and what is still queued; the bound holds. */
  predicate QueueLaw(s: Session, e: Effect, arrived: seq<Message>) {
    ReceiveSlotOk(s) ==>
      s.received + arrived == Takes(e) + e.s.received && ReceiveSlotOk(e.s) &&
      |e.s.received| <= |s.received| + |arrived| && (e.then_.ArmRead? ==> |e.s.received| < QUEUE_DEPTH)
  }

  predicate Laws(s: Session, e: Effect, brings: bool, phase: Phase, arrived: seq<Message>) {
    ReadLaw(s, e, brings) && WriteLaw(s, e, phase) && CloseLaw(s, e) && QueueLaw(s, e, arrived)
  }

  lemma GotsOne(ev: Event)
    ensures Gots([ev]) == if ev.ReceiveDone? && ev.received.Got? then [ev.received.message] else []
  {
    assert [ev][..0] == [];
  }

  lemma GotsTwo(a: seq<Event>, b: seq<Event>)
    requires |b| <= 1
    ensures Gots(a + b) == Gots(a) + Gots(b)
  {
    if b == [] {
      assert a + b == a;
    } else {
      GotsOne(b[0]);
      assert b == [b[0]] && (a + b)[..|a + b| - 1] == a;
    }
  }

  lemma TakesNothing(e: Effect)
    requires e.postsReady.None? && |e.events| <= 1
    requires e.events != [] ==> !(e.events[0].ReceiveDone? && e.events[0].received.Got?)
    ensures Takes(e) == []
  {
    if e.events != [] {
      GotsOne(e.events[0]);
      assert e.events == [e.events[0]];
    }
  }

  lemma TakesOne(e: Effect, m: Message)
    requires |e.events| <= 1
    requires if |e.events| == 0 then e.postsReady.Some? && e.postsReady.value.1 == m
             else e.postsReady.None? && e.events[0].ReceiveDone? && e.events[0].received == Got(m)
    ensures Takes(e) == [m]
  {
    if e.events != [] {
      GotsOne(e.events[0]);
      assert e.events == [e.events[0]];
    }
  }

  lemma TakesNoWaiters(s: Session, clean: bool, e: Effect)
    requires e.postsReady.None? && e.events == Waiters(s, clean)
    ensures Takes(e) == []
  {
    if s.pendingSend.Some? {
      GotsOne(SendDone(s.pendingSend.value, SendError));
    }
    if s.pendingReceive.Some? {
      GotsOne(ReceiveDone(s.pendingReceive.value, if clean then CleanEnd else ReceiveError));
    }
    GotsTwo(match s.pendingSend case None => [] case Some(id) => [SendDone(id, SendError)],
            match s.pendingReceive case None => [] case Some(id) => [ReceiveDone(id, if clean then CleanEnd else ReceiveError)]);
  }

  /** The bookkeeping of the queue when a section leaves it alone, or only empties the slot. */
  lemma QueueAlone(s: Session, e: Effect)
    requires Takes(e) == [] && e.s.received == s.received && (e.s.pendingReceive == s.pendingReceive || e.s.pendingReceive == None)
    requires !e.then_.ArmRead?
    ensures QueueLaw(s, e, [])
  {
    hide Takes;
  }

  /** The section touches only the receive side; a pump may go on, or a paused one be set going again. */
  predicate ReceiveSideOnly(s: Session, e: Effect, brings: bool) {
    e.s == s.(received := e.s.received, pendingReceive := e.s.pendingReceive, generation := e.s.generation,
              readPaused := s.readPaused && !e.postsPump) &&
    (e.then_.Nothing? || (e.then_.Pump? && brings && !e.postsPump)) && (e.postsPump ==> s.readPaused) && !e.postsWrite
  }

  lemma ReceiveSideWire(s: Session, e: Effect, brings: bool)
    requires ReceiveSideOnly(s, e, brings)
    ensures ReadLaw(s, e, brings) && WriteLaw(s, e, Elsewhere) && CloseLaw(s, e)
  {
    assert ReadLaw(s, e, brings) by { hide WriteLaw, CloseLaw; }
    assert WriteLaw(s, e, Elsewhere) by { hide ReadLaw, CloseLaw; }
    assert CloseLaw(s, e) by { hide ReadLaw, WriteLaw; }
    hide *;
  }

  /** A section that only answers, with at most one completion that takes no message. */
  lemma PlainLaws(s: Session, s2: Session, events: seq<Event>)
    requires s2 == s.(blockedReceivers := s2.blockedReceivers)
    requires |events| <= 1 && (events != [] ==> !(events[0].ReceiveDone? && events[0].received.Got?))
    ensures Laws(s, Plain(s2, events), false, Elsewhere, [])
  {
    TakesNothing(Plain(s2, events));
    QueueAlone(s, Plain(s2, events));
    hide Takes, QueueLaw;
  }

  lemma PumpReadLaws(s: Session)
    ensures Laws(s, PumpRead(s), true, Elsewhere, [])
  {
    hide PumpLaw, EndLaw, FlagLaw, ParksNothing;
    TakesNothing(PumpRead(s));
    hide Takes;
  }

  lemma OnReadClosedLaws(s: Session)
    ensures Laws(s, OnReadClosed(s), false, Elsewhere, [])
  {
    hide Waiters, Takes, QueueLaw;
    TakesNoWaiters(s, true, OnReadClosed(s));
    QueueAlone(s, OnReadClosed(s));
  }

  lemma OnReadErrorLaws(s: Session, ec: Ending)
    ensures Laws(s, OnReadError(s, ec), false, Elsewhere, [])
  {
    hide Takes, QueueLaw;
    TakesNothing(OnReadError(s, ec));
    QueueAlone(s, OnReadError(s, ec));
  }

  lemma FailLaws(s: Session)
    ensures Laws(s, Fail(s), false, Elsewhere, [])
  {
    hide Waiters, Takes, QueueLaw;
    TakesNoWaiters(s, false, Fail(s));
    QueueAlone(s, Fail(s));
  }

  lemma FailAndCloseLaws(s: Session)
    ensures Laws(s, FailAndClose(s), true, Elsewhere, [])
  {
    hide Waiters, Takes, QueueLaw;
    TakesNoWaiters(s, false, FailAndClose(s));
    QueueAlone(s, FailAndClose(s));
  }

  lemma DeliverLaws(s: Session, m: Message)
    ensures Laws(s, Deliver(s, m), true, Elsewhere, [m])
  {
    DeliverQueue(s, m);
    DeliverWire(s, m);
    ReceiveSideWire(s, Deliver(s, m), true);
    hide Deliver, ReceiveSideOnly, QueueLaw, ReadLaw, WriteLaw, CloseLaw;
  }

  lemma DeliverQueue(s: Session, m: Message)
    ensures QueueLaw(s, Deliver(s, m), [m])
  {
    if s.pendingReceive.Some? {
      TakesOne(Deliver(s, m), m);
    } else {
      TakesNothing(Deliver(s, m));
    }
    hide Takes;
    assert s.received == [] ==> s.received + [m] == [m] + s.received;
    assert s.received + [m] == [] + (s.received + [m]);
  }

  lemma DeliverWire(s: Session, m: Message)
    ensures ReceiveSideOnly(s, Deliver(s, m), true)
  {
  }

  lemma OnReadMessageLaws(s: Session, binary: bool, bytes: Octets)
    ensures Laws(s, OnReadMessage(s, binary, bytes), true, Elsewhere,
                 match Arrival(binary, bytes) case None => [] case Some(m) => [m])
  {
    hide Arrival, Laws, Deliver, FailAndClose;
    match Arrival(binary, bytes)
    case None => FailAndCloseLaws(s);
    case Some(m) => DeliverLaws(s, m);
  }

  lemma StartWriteLaws(s: Session)
    ensures Laws(s, StartWrite(s), false, Starting, [])
  {
    hide Takes, QueueLaw;
    TakesNothing(StartWrite(s));
    QueueAlone(s, StartWrite(s));
  }

  lemma OnWriteLaws(s: Session, ec: Ending)
    ensures Laws(s, OnWrite(s, ec), false, Phase.Ending, [])
  {
    hide Takes, QueueLaw;
    TakesNothing(OnWrite(s, ec));
    QueueAlone(s, OnWrite(s, ec));
  }

  lemma RequestCloseLaws(s: Session)
    ensures Laws(s, RequestClose(s), false, Elsewhere, [])
  {
    hide Takes, QueueLaw;
    TakesNothing(RequestClose(s));
    QueueAlone(s, RequestClose(s));
  }

  lemma RequestKickLaws(s: Session)
    ensures Laws(s, RequestKick(s), false, Elsewhere, [])
  {
    hide Takes, QueueLaw;
    TakesNothing(RequestKick(s));
    QueueAlone(s, RequestKick(s));
  }

  lemma OnCloseLaws(s: Session, ec: Ending)
    ensures Laws(s, OnClose(s, ec), false, Elsewhere, [])
  {
    hide Waiters, Takes, QueueLaw;
    var s2 := if s.Terminal() then s else if ec != Success then s.(failed := true) else s.(peerClosed := true);
    TakesNoWaiters(s2, !s2.failed, OnClose(s, ec));
    QueueAlone(s, OnClose(s, ec));
  }

  lemma OnDeadlineLaws(s: Session, g: nat)
    ensures Laws(s, OnDeadline(s, g), false, Elsewhere, [])
  {
    OnDeadlineQueue(s, g);
    OnDeadlineWire(s, g);
    ReceiveSideWire(s, OnDeadline(s, g), false);
    hide OnDeadline, ReceiveSideOnly, QueueLaw, ReadLaw, WriteLaw, CloseLaw;
  }

  lemma OnDeadlineWire(s: Session, g: nat)
    ensures ReceiveSideOnly(s, OnDeadline(s, g), false)
  {
  }

  lemma OnDeadlineQueue(s: Session, g: nat)
    ensures QueueLaw(s, OnDeadline(s, g), [])
  {
    hide Takes, QueueLaw;
    var e := OnDeadline(s, g);
    TakesNothing(e);
    assert e.then_.Nothing? && e.s.received == s.received && (e.s == s || e.s.pendingReceive == None);
    hide OnDeadline;
    QueueAlone(s, e);
  }

  lemma FinishReceiveLaws(s: Session, s2: Session, id: Id)
    requires s2 == s.(blockedReceivers := s2.blockedReceivers)
    ensures Laws(s, FinishReceive(s2, id), false, Elsewhere, [])
  {
    hide Takes;
    var e := FinishReceive(s2, id);
    if s.received != [] && s.pendingReceive.None? {
      TakesOne(e, s.received[0]);
      assert s.received + [] == [s.received[0]] + s.received[1..];
    } else {
      TakesNothing(e);
      QueueAlone(s, e);
    }
    hide QueueLaw;
  }

  lemma ReceiveAsyncLaws(s: Session, id: Id, timeout: Option<int>)
    ensures Laws(s, ReceiveAsync(s, id, timeout), false, Elsewhere, [])
  {
    ReceiveAsyncQueue(s, id, timeout);
    ReceiveAsyncWire(s, id, timeout);
    ReceiveSideWire(s, ReceiveAsync(s, id, timeout), false);
    hide ReceiveAsync, ReceiveSideOnly, QueueLaw, ReadLaw, WriteLaw, CloseLaw;
  }

  lemma OldestWire(s: Session)
    requires s.received != []
    ensures var e := Oldest(s); ReceiveSideOnly(s, e, false) && e.s.received == s.received[1..] && e.s.pendingReceive == s.pendingReceive
    ensures Oldest(s).then_.Nothing? && Oldest(s).postsReady.None? && Oldest(s).events == []
  {
  }

  lemma ReceiveAsyncWire(s: Session, id: Id, timeout: Option<int>)
    ensures ReceiveSideOnly(s, ReceiveAsync(s, id, timeout), false)
  {
    hide Oldest, Park, ReceiveSideOnly;
    var e := ReceiveAsync(s, id, timeout);
    if s.pendingReceive.Some? || s.blockedReceivers > 0 {
      AnswerWire(s, e.events);
    } else if s.received != [] {
      OldestWire(s);
      ReadyWire(s, Oldest(s), e.postsReady);
    } else if s.peerClosed || s.failed || (timeout.Some? && timeout.value <= 0) {
      AnswerWire(s, e.events);
    } else {
      ParkWire(s, id);
    }
  }

  lemma AnswerWire(s: Session, events: seq<Event>)
    ensures ReceiveSideOnly(s, Plain(s, events), false)
  {
  }

  lemma ParkWire(s: Session, id: Id)
    ensures ReceiveSideOnly(s, Park(s, id), false)
  {
  }

  lemma ReadyWire(s: Session, e: Effect, ready: Option<(Id, Message)>)
    requires ReceiveSideOnly(s, e, false)
    ensures ReceiveSideOnly(s, e.(postsReady := ready), false)
  {
  }

  lemma ReceiveAsyncQueue(s: Session, id: Id, timeout: Option<int>)
    ensures QueueLaw(s, ReceiveAsync(s, id, timeout), [])
  {
    if s.received != [] {
      OldestWire(s);
    }
    hide Takes, Oldest;
    var e := ReceiveAsync(s, id, timeout);
    if s.pendingReceive.None? && s.blockedReceivers == 0 && s.received != [] {
      TakesOne(e, s.received[0]);
      assert s.received + [] == [s.received[0]] + s.received[1..];
    } else {
      TakesNothing(e);
      assert s.received + [] == [] + s.received;
    }
  }

  lemma BeginWriteLaws(s: Session, id: Id)
    requires SendReady(s)
    ensures Laws(s, BeginWrite(s, id), false, Elsewhere, [])
  {
    hide Takes, QueueLaw;
    TakesNothing(BeginWrite(s, id));
    QueueAlone(s, BeginWrite(s, id));
  }

  lemma EndWriteLaws(s: Session, id: Id)
    ensures Laws(s, EndWrite(s, id), false, Elsewhere, [])
  {
    hide Takes, QueueLaw;
    TakesNothing(EndWrite(s, id));
    QueueAlone(s, EndWrite(s, id));
  }

  lemma SendAsyncLaws(s: Session, id: Id)
    ensures Laws(s, SendAsync(s, id), false, Elsewhere, [])
  {
    hide Takes, QueueLaw;
    TakesNothing(SendAsync(s, id));
    QueueAlone(s, SendAsync(s, id));
  }
}
