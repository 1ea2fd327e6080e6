/** No waiting call of a WebSocket session is left asleep: whatever makes its condition true notifies, or will. */
module WsWakes {
  import opened Common
  import opened FrameSpec
  import opened Crc32
  import opened WsSpec
  import opened WsRuns
  import opened WsCalls
  import opened WsSafety

  /** The wait condition of a blocking Send whose write is on its way. */
  predicate EndReady(s: Session) {
    s.writeComplete || s.failed
  }

  predicate TurnsTrue(before: bool, after: bool) {
    !before && after
  }

  /** The section notifies when it makes a wait condition true, but for a Send's when only a close was requested. */
  predicate WakeLaw(s: Session, e: Effect, closing: bool) {
    (ReceiveSlotOk(s) && TurnsTrue(ReceiveReady(s), ReceiveReady(e.s)) ==> e.notified) &&
    (TurnsTrue(EndReady(s), EndReady(e.s)) ==> e.notified) && (TurnsTrue(SendReady(s), SendReady(e.s)) ==> e.notified || closing)
  }

  lemma PumpReadWakes(s: Session)
    ensures WakeLaw(s, PumpRead(s), false)
  {
    hide PumpLaw, EndLaw, FlagLaw, ParksNothing, OneMessage, NoneSent, OffStrand, Waiters, SendOf;
  }

  lemma OnReadClosedWakes(s: Session)
    ensures WakeLaw(s, OnReadClosed(s), false)
  {
    hide PumpLaw, EndLaw, FlagLaw, ParksNothing, OneMessage, NoneSent, OffStrand, Waiters, SendOf;
  }

  lemma OnReadErrorWakes(s: Session, ec: Ending)
    ensures WakeLaw(s, OnReadError(s, ec), false)
  {
    hide PumpLaw, EndLaw, FlagLaw, ParksNothing, OneMessage, NoneSent, OffStrand, Waiters, SendOf;
  }

  lemma FailWakes(s: Session)
    ensures WakeLaw(s, Fail(s), false)
  {
    hide PumpLaw, EndLaw, FlagLaw, ParksNothing, OneMessage, NoneSent, OffStrand, Waiters, SendOf;
  }

  lemma FailAndCloseWakes(s: Session)
    ensures WakeLaw(s, FailAndClose(s), false)
  {
    hide PumpLaw, EndLaw, FlagLaw, ParksNothing, OneMessage, NoneSent, OffStrand, Waiters, SendOf;
  }

  lemma DeliverWakes(s: Session, m: Message)
    ensures WakeLaw(s, Deliver(s, m), false)
  {
    hide PumpLaw, EndLaw, FlagLaw, ParksNothing, OneMessage, NoneSent, OffStrand, Waiters, SendOf;
  }

  lemma StartWriteWakes(s: Session)
    ensures WakeLaw(s, StartWrite(s), false)
  {
    hide PumpLaw, EndLaw, FlagLaw, ParksNothing, OneMessage, NoneSent, OffStrand, Waiters, SendOf;
  }

  lemma OnWriteWakes(s: Session, ec: Ending)
    ensures WakeLaw(s, OnWrite(s, ec), false)
  {
    hide PumpLaw, EndLaw, FlagLaw, ParksNothing, OneMessage, NoneSent, OffStrand, Waiters, SendOf;
  }

  lemma OnCloseWakes(s: Session, ec: Ending)
    ensures WakeLaw(s, OnClose(s, ec), false)
  {
    hide PumpLaw, EndLaw, FlagLaw, ParksNothing, OneMessage, NoneSent, OffStrand, Waiters, SendOf;
  }

  lemma OnDeadlineWakes(s: Session, g: nat)
    ensures WakeLaw(s, OnDeadline(s, g), false)
  {
    hide PumpLaw, EndLaw, FlagLaw, ParksNothing, OneMessage, NoneSent, OffStrand, Waiters, SendOf;
  }

  lemma BeginWriteWakes(s: Session, id: Id)
    ensures WakeLaw(s, BeginWrite(s, id), false)
  {
    hide PumpLaw, EndLaw, FlagLaw, ParksNothing, OneMessage, NoneSent, OffStrand, Waiters, SendOf;
  }

  lemma EndWriteWakes(s: Session, id: Id)
    ensures WakeLaw(s, EndWrite(s, id), false)
  {
    hide PumpLaw, EndLaw, FlagLaw, ParksNothing, OneMessage, NoneSent, OffStrand, Waiters, SendOf;
  }

  lemma SendAsyncWakes(s: Session, id: Id)
    ensures WakeLaw(s, SendAsync(s, id), false)
  {
    hide PumpLaw, EndLaw, FlagLaw, ParksNothing, OneMessage, NoneSent, OffStrand, Waiters, SendOf;
  }

  lemma RequestCloseWakes(s: Session)
    ensures WakeLaw(s, RequestClose(s), true)
  {
    hide PumpLaw, EndLaw, FlagLaw, ParksNothing, OneMessage, NoneSent, OffStrand;
  }

  lemma RequestKickWakes(s: Session)
    ensures WakeLaw(s, RequestKick(s), true)
  {
    RequestCloseWakes(s.(kicked := true));
    hide RequestClose, PumpLaw, EndLaw, FlagLaw, ParksNothing, OneMessage, NoneSent, OffStrand;
  }

  lemma OnReadMessageWakes(s: Session, binary: bool, bytes: Octets)
    ensures WakeLaw(s, OnReadMessage(s, binary, bytes), false)
  {
    hide Arrival, FailAndClose, Deliver, WakeLaw, PumpLaw, EndLaw, FlagLaw, ParksNothing, OneMessage, NoneSent, OffStrand;
    match Arrival(binary, bytes)
    case None => FailAndCloseWakes(s);
    case Some(m) => DeliverWakes(s, m);
  }

  /** Taking a message makes nobody's condition true. */
  lemma TakingWakes(s: Session, e: Effect)
    requires ReceiveSideOnly(s, e, false) && |e.s.received| <= |s.received| && (e.s.pendingReceive.Some? || s.pendingReceive.None?)
    ensures WakeLaw(s, e, false)
  {
  }

  lemma FinishReceiveWakes(s: Session, id: Id)
    ensures WakeLaw(s, FinishReceive(s, id), false)
  {
    hide WakeLaw, ReceiveSideOnly, Oldest, PumpLaw, EndLaw, FlagLaw, ParksNothing, OneMessage, NoneSent, OffStrand;
    if s.received != [] && s.pendingReceive.None? {
      OldestWire(s);
      TakingWakes(s, Oldest(s));
      SameWake(s, Oldest(s), FinishReceive(s, id));
    } else {
      AnswerWire(s, FinishReceive(s, id).events);
      TakingWakes(s, FinishReceive(s, id));
    }
  }

  lemma SameWake(s: Session, a: Effect, b: Effect)
    requires a.s == b.s && a.notified == b.notified && WakeLaw(s, a, false)
    ensures WakeLaw(s, b, false)
  {
  }

  lemma ReceiveAsyncWakes(s: Session, id: Id, timeout: Option<int>)
    ensures WakeLaw(s, ReceiveAsync(s, id, timeout), false)
  {
    hide WakeLaw, ReceiveSideOnly, Oldest, PumpLaw, EndLaw, FlagLaw, ParksNothing, OneMessage, NoneSent, OffStrand;
    ReceiveAsyncWire(s, id, timeout);
    if s.received != [] {
      OldestWire(s);
    }
    TakingWakes(s, ReceiveAsync(s, id, timeout));
  }

  lemma CountWakes(s: Session, s2: Session, e: Effect)
    requires s2 == s.(blockedReceivers := s2.blockedReceivers) && WakeLaw(s2, e, false)
    ensures WakeLaw(s, e, false)
  {
  }

  lemma CountAlone(s: Session, s2: Session, events: seq<Event>)
    requires s2 == s.(blockedReceivers := s2.blockedReceivers)
    ensures WakeLaw(s, Plain(s2, events), false)
  {
  }

  lemma SectionWakes(w: World, step: Step)
    requires Enabled(w, step)
    ensures WakeLaw(w.s, Section(w, step), step.RunClose? || step.RunKick?)
  {
    hide PumpRead, OnReadClosed, OnReadError, Fail, OnReadMessage, StartWrite, OnWrite, RequestClose, RequestKick, OnClose, OnDeadline,
      FinishReceive, ReceiveAsync, BeginWrite, EndWrite, SendAsync, ReceiveReady, SendReady, Sendable, Blocked, WakeLaw, PumpLaw, EndLaw, FlagLaw, ParksNothing, OneMessage, NoneSent, OffStrand;
    match step
    case RunPump => PumpReadWakes(w.s);
    case ReadClosed => OnReadClosedWakes(w.s);
    case ReadFailed(ec) => OnReadErrorWakes(w.s, ec);
    case ReadMessage(binary, bytes) => OnReadMessageWakes(w.s, binary, bytes);
    case RunWrite => StartWriteWakes(w.s);
    case WriteDone(ec) => OnWriteWakes(w.s, ec);
    case RunClose => RequestCloseWakes(w.s);
    case RunKick => RequestKickWakes(w.s);
    case CloseDone(ec) => OnCloseWakes(w.s, ec);
    case DeadlineFires(g) => OnDeadlineWakes(w.s, g);
    case RunReady(k) => CountAlone(w.s, w.s, Section(w, step).events);
    case Continue =>
      PumpReadWakes(w.s);
      FailWakes(w.s);
      CountAlone(w.s, w.s, []);
    case BlockingReceive(id, _) =>
      FinishReceiveWakes(w.s, id);
      CountAlone(w.s, Blocked(w.s, 1), []);
    case ResumeReceive(id) =>
      FinishReceiveWakes(Blocked(w.s, -1), id);
      CountWakes(w.s, Blocked(w.s, -1), FinishReceive(Blocked(w.s, -1), id));
    case ReceiveDeadline(id) =>
      FinishReceiveWakes(Blocked(w.s, -1), id);
      CountWakes(w.s, Blocked(w.s, -1), FinishReceive(Blocked(w.s, -1), id));
      CountAlone(w.s, Blocked(w.s, -1), [ReceiveDone(id, ReceiveTimeout)]);
    case AsyncReceive(id, timeout) => ReceiveAsyncWakes(w.s, id, timeout);
    case BlockingSend(id, m) => CountAlone(w.s, w.s, Section(w, step).events);
    case TakeTurn => BeginWriteWakes(w.s, w.turn.id);
    case FinishTurn => EndWriteWakes(w.s, w.turn.id);
    case AsyncSend(id, m) =>
      SendAsyncWakes(w.s, id);
      CountAlone(w.s, w.s, [SendDone(id, SendInvalid)]);
    case PostWrite => CountAlone(w.s, w.s, []);
    case Abort => FailWakes(w.s);
  }

  /** How many writes are on their way to a completion that notifies. */
  function WritesUnderWay(w: World): nat {
    w.writeOps + w.postedWrites + w.writesDue + AsCount(w.strand.ArmWrite?)
  }

  /**
   * A step that makes the condition of a waiting call true notifies the waiters. The one exception is a close requested
   * while a Send waits behind a write, which is under way then, and whose end notifies.
   */
  lemma {:induction false} NoLostWakeup(w: World, step: Step)
    requires Inv(w) && Enabled(w, step)
    ensures var s, e := w.s, Section(w, step);
            (TurnsTrue(ReceiveReady(s), ReceiveReady(e.s)) ==> e.notified) && (TurnsTrue(EndReady(s), EndReady(e.s)) ==> e.notified) &&
            (TurnsTrue(SendReady(s), SendReady(e.s)) ==>
               e.notified || ((step.RunClose? || step.RunKick?) && WritesUnderWay(Next(w, step)) == 1))
  {
    SectionWakes(w, step);
    InvWrite(w);
    if step.RunClose? || step.RunKick? {
      StepKeepsWrite(w, step);
      CloseKeepsWrite(w, step);
      hide Section, Next, Enabled;
    }
    hide Section, Next, ReceiveReady, EndReady;
  }

  lemma InvWrite(w: World)
    requires Inv(w)
    ensures WriteOk(w) && ReceiveSlotOk(w.s)
  {
    hide ReadOk, CloseOk, PumpOk, OncePerCall, DeadlinesOk, CountOk, HandedOk, WriteOk, ReceiveSlotOk;
  }

  lemma CloseKeepsWrite(w: World, step: Step)
    requires Enabled(w, step) && (step.RunClose? || step.RunKick?)
    ensures Next(w, step).s.writeComplete == w.s.writeComplete
  {
    hide Takes, Arrived, Sending, Parked, PumpLaw, EndLaw, FlagLaw, ParksNothing, OneMessage, NoneSent, OffStrand;
  }

  /** A write that is not handed to the socket notifies at once, and one that is notifies when it ends. */
  lemma WritesNotify(w: World, step: Step)
    requires Enabled(w, step) && (step.RunWrite? || step.WriteDone?)
    ensures Section(w, step).notified || (step.RunWrite? && Section(w, step).then_.ArmWrite?)
  {
    hide SendOf, Written, PumpLaw, EndLaw, FlagLaw, ParksNothing, OneMessage, NoneSent, OffStrand;
  }
}
