/** Outgoing messages of a WebSocket session: what goes out, and whose outcome a send reports. */
module WsSends {
  import opened Common
  import opened FrameSpec
  import opened Crc32
  import opened WsSpec
  import opened WsRuns
  import opened WsCalls
  import opened WsSafety

  predicate WriteEnded(o: Outgoing, id: Id) {
    id in o.outcomes
  }

  predicate Succeeded(o: Outgoing, id: Id) {
    id in o.outcomes && o.outcomes[id]
  }

  /** Some write was begun for the call. */
  predicate Begun(o: Outgoing, id: Id) {
    o.writer == Some(id) || WriteEnded(o, id) || id in o.wire
  }

  /** The write in progress is that of the call that began it last, and has not ended. */
  predicate WriterOk(s: Session, o: Outgoing) {
    (if s.writeComplete then o.writer.Some? ==> WriteEnded(o, o.writer.value) && o.outcomes[o.writer.value] == !s.writeError
     else o.writer.Some? && !WriteEnded(o, o.writer.value) && !s.writeError) &&
    (s.pendingSend.Some? ==> s.pendingSend == o.writer) && (o.writer.None? ==> o.outcomes == map[]) &&
    (s.writeComplete && s.writeError ==> s.Terminal() || s.closeRequested)
  }

  /** A blocking Send on the wire is the writer, or its own write has succeeded. */
  predicate TurnOk(turn: Turn, o: Outgoing) {
    match turn
    case Free => true
    case Waiting(id) => !Begun(o, id)
    case InFlight(id) => o.writer == Some(id) || Succeeded(o, id)
  }

  ghost predicate BegunOk(issued: set<Id>, o: Outgoing) {
    forall id: Id | Begun(o, id) :: id in issued && id in o.sends
  }

  predicate Distinct(ids: seq<Id>) {
    forall i, j | 0 <= i < j < |ids| :: ids[i] != ids[j]
  }

  ghost predicate SucceededWentOut(o: Outgoing) {
    forall id: Id | Succeeded(o, id) :: id in o.wire
  }

  /** Each call's message goes out at most once, and a write that succeeded has gone out. */
  ghost predicate GoneOutOk(s: Session, o: Outgoing) {
    Distinct(o.wire) && SucceededWentOut(o) &&
    (s.wireWriteBusy ==> o.writer.Some? && o.writer.value in o.wire) &&
    (!s.writeComplete && !s.wireWriteBusy && o.writer.Some? ==> o.writer.value !in o.wire)
  }

  /** A turn that waits keeps its message; a turn's call was made. */
  predicate TurnSends(turn: Turn, o: Outgoing) {
    turn.Waiting? ==> turn.id in o.sends
  }

  ghost predicate OutgoingOk(w: World) {
    WriterOk(w.s, w.outgoing) && TurnOk(w.turn, w.outgoing) && BegunOk(w.issued, w.outgoing) && GoneOutOk(w.s, w.outgoing) &&
    TurnSends(w.turn, w.outgoing)
  }

  // ----- what the sections do to a write -----

  /** How a section moves the fields a write is recorded in. */
  predicate WriteMove(s: Session, e: Effect) {
    e.s.writeComplete == s.writeComplete && e.s.writeError == s.writeError && e.s.wireWriteBusy == s.wireWriteBusy && !e.postsWrite &&
    (e.s.pendingSend == s.pendingSend || e.s.pendingSend == None) && Monotone(s, e)
  }

  /** Endings and close requests are for good. */
  predicate Monotone(s: Session, e: Effect) {
    s.Terminal() || s.closeRequested ==> e.s.Terminal() || e.s.closeRequested
  }

  lemma PumpReadMoves(s: Session)
    ensures WriteMove(s, PumpRead(s))
  {
    hide Waiters, PumpLaw, EndLaw, FlagLaw, ParksNothing, OneMessage, NoneSent, OffStrand;
  }

  lemma OnReadClosedMoves(s: Session)
    ensures WriteMove(s, OnReadClosed(s))
  {
    hide Waiters, PumpLaw, EndLaw, FlagLaw, ParksNothing, OneMessage, NoneSent, OffStrand;
  }

  lemma OnReadErrorMoves(s: Session, ec: Ending)
    ensures WriteMove(s, OnReadError(s, ec))
  {
    hide Waiters, PumpLaw, EndLaw, FlagLaw, ParksNothing, OneMessage, NoneSent, OffStrand;
  }

  lemma FailMoves(s: Session)
    ensures WriteMove(s, Fail(s))
  {
    hide Waiters, PumpLaw, EndLaw, FlagLaw, ParksNothing, OneMessage, NoneSent, OffStrand;
  }

  lemma RequestCloseMoves(s: Session)
    ensures WriteMove(s, RequestClose(s))
  {
    hide Waiters, PumpLaw, EndLaw, FlagLaw, ParksNothing, OneMessage, NoneSent, OffStrand;
  }

  lemma RequestKickMoves(s: Session)
    ensures WriteMove(s, RequestKick(s))
  {
    RequestCloseMoves(s.(kicked := true));
    hide RequestClose, PumpLaw, EndLaw, FlagLaw, ParksNothing, OneMessage, NoneSent, OffStrand;
  }

  lemma OnCloseMoves(s: Session, ec: Ending)
    ensures WriteMove(s, OnClose(s, ec))
  {
    hide Ended, Waiters, PumpLaw, EndLaw, FlagLaw, ParksNothing, OneMessage, NoneSent, OffStrand;
  }

  lemma FailAndCloseMoves(s: Session)
    ensures WriteMove(s, FailAndClose(s))
  {
    hide Waiters, PumpLaw, EndLaw, FlagLaw, ParksNothing, OneMessage, NoneSent, OffStrand;
  }

  lemma EndWriteMoves(s: Session, id: Id)
    ensures WriteMove(s, EndWrite(s, id))
  {
    hide Waiters, PumpLaw, EndLaw, FlagLaw, ParksNothing, OneMessage, NoneSent, OffStrand;
  }

  lemma ReceiveSideMoves(s: Session, e: Effect, brings: bool)
    requires ReceiveSideOnly(s, e, brings)
    ensures WriteMove(s, e)
  {
  }

  lemma OnReadMessageMoves(s: Session, binary: bool, bytes: Octets)
    ensures WriteMove(s, OnReadMessage(s, binary, bytes))
  {
    hide Arrival, FailAndClose, Deliver, WriteMove, PumpLaw, EndLaw, FlagLaw, ParksNothing, OneMessage, NoneSent, ReceiveSideOnly;
    match Arrival(binary, bytes)
    case None => FailAndCloseMoves(s);
    case Some(m) =>
      DeliverWire(s, m);
      ReceiveSideMoves(s, Deliver(s, m), true);
  }

  lemma OnDeadlineMoves(s: Session, g: nat)
    ensures WriteMove(s, OnDeadline(s, g))
  {
    hide WriteMove, ReceiveSideOnly;
    OnDeadlineWire(s, g);
    ReceiveSideMoves(s, OnDeadline(s, g), false);
  }

  lemma ReceiveAsyncMoves(s: Session, id: Id, timeout: Option<int>)
    ensures WriteMove(s, ReceiveAsync(s, id, timeout))
  {
    hide WriteMove, ReceiveSideOnly;
    ReceiveAsyncWire(s, id, timeout);
    ReceiveSideMoves(s, ReceiveAsync(s, id, timeout), false);
  }

  lemma FinishReceiveMoves(s: Session, id: Id)
    ensures WriteMove(s, FinishReceive(s, id))
  {
    hide ReceiveSideOnly, Oldest, PumpLaw, EndLaw, FlagLaw, ParksNothing, OneMessage, NoneSent, OffStrand;
    if s.received != [] {
      OldestWire(s);
      ReceiveSideMoves(s, Oldest(s), false);
    }
  }

  /** The steps that neither begin, hand over nor end a write. */
  predicate Bystander(step: Step) {
    !step.RunWrite? && !step.WriteDone? && !step.TakeTurn? && !step.AsyncSend?
  }

  lemma BystanderMoves(w: World, step: Step)
    requires Enabled(w, step) && Bystander(step)
    ensures WriteMove(w.s, Section(w, step))
  {
    hide PumpRead, OnReadClosed, OnReadError, Fail, OnReadMessage, RequestClose, RequestKick, OnClose, OnDeadline, FinishReceive,
      ReceiveAsync, EndWrite, ReceiveReady, SendReady, Sendable, PumpLaw, EndLaw, FlagLaw, ParksNothing, OneMessage, NoneSent, OffStrand;
    match step
    case RunPump => PumpReadMoves(w.s);
    case ReadClosed => OnReadClosedMoves(w.s);
    case ReadFailed(ec) => OnReadErrorMoves(w.s, ec);
    case ReadMessage(binary, bytes) => OnReadMessageMoves(w.s, binary, bytes);
    case RunClose => RequestCloseMoves(w.s);
    case RunKick => RequestKickMoves(w.s);
    case CloseDone(ec) => OnCloseMoves(w.s, ec);
    case DeadlineFires(g) => OnDeadlineMoves(w.s, g);
    case Continue =>
      PumpReadMoves(w.s);
      FailMoves(w.s);
    case BlockingReceive(id, _) => FinishReceiveMoves(w.s, id);
    case ResumeReceive(id) => FinishReceiveMoves(Blocked(w.s, -1), id);
    case ReceiveDeadline(id) => FinishReceiveMoves(Blocked(w.s, -1), id);
    case AsyncReceive(id, timeout) => ReceiveAsyncMoves(w.s, id, timeout);
    case FinishTurn => EndWriteMoves(w.s, w.turn.id);
    case Abort => FailMoves(w.s);
    case _ =>
  }

  lemma StartWriteMoves(s: Session)
    ensures var e := StartWrite(s);
            !e.postsWrite &&
            if e.then_.ArmWrite? then e.s == s.(wireWriteBusy := true)
            else e.s == s.(writeComplete := true, writeError := true, pendingSend := None) && (s.Terminal() || s.closeRequested)
  {
    hide SendOf, PumpLaw, EndLaw, FlagLaw, ParksNothing, OneMessage, NoneSent;
  }

  lemma OnWriteMoves(s: Session, ec: Ending)
    ensures var e := OnWrite(s, ec); !e.postsWrite && e.s == Written(s, ec).(closeStarted := e.s.closeStarted)
  {
    hide Written, SendOf, PumpLaw, EndLaw, FlagLaw, ParksNothing, OneMessage, NoneSent;
  }

  /** A begun write: the fields start over. */
  predicate Begins(s: Session, e: Effect, parked: Option<Id>) {
    if e.postsWrite then
      e.s == s.(writeComplete := false, writeError := false, pendingSend := parked) && s.writeComplete && !s.Terminal() && !s.closeRequested
    else e.s == s
  }

  lemma BeginWriteMoves(s: Session, id: Id)
    requires SendReady(s) && SendSlotOk(s)
    ensures Begins(s, BeginWrite(s, id), None)
    ensures BeginWrite(s, id).postsWrite <==> BeginWrite(s, id).events == []
  {
    hide PumpLaw, EndLaw, FlagLaw, ParksNothing, OneMessage, NoneSent, OffStrand;
  }

  lemma SendAsyncMoves(s: Session, id: Id)
    ensures Begins(s, SendAsync(s, id), Some(id))
  {
    hide PumpLaw, EndLaw, FlagLaw, ParksNothing, OneMessage, NoneSent, OffStrand;
  }

  // ----- every step keeps the record -----

  lemma BystanderKeeps(s: Session, e: Effect, o: Outgoing)
    requires WriteMove(s, e) && WriterOk(s, o) && GoneOutOk(s, o)
    ensures WriterOk(e.s, o) && GoneOutOk(e.s, o)
  {
    hide Distinct, SucceededWentOut;
  }

  /** The write begun last is handed to the socket. */
  lemma StartsKeep(s: Session, o: Outgoing)
    requires !s.writeComplete && !s.wireWriteBusy && WriterOk(s, o) && GoneOutOk(s, o)
    ensures var o2 := o.(wire := o.wire + [o.writer.value]);
            WriterOk(s.(wireWriteBusy := true), o2) && GoneOutOk(s.(wireWriteBusy := true), o2)
  {
    var o2 := o.(wire := o.wire + [o.writer.value]);
    assert o2.wire[|o.wire|] == o.writer.value;
    forall id: Id | Succeeded(o2, id)
      ensures id in o2.wire
    {
      assert Succeeded(o, id);
    }
  }

  /** It is refused instead. */
  lemma RefusalKeeps(s: Session, o: Outgoing)
    requires !s.writeComplete && !s.wireWriteBusy && (s.Terminal() || s.closeRequested) && WriterOk(s, o) && GoneOutOk(s, o)
    ensures var s2 := s.(writeComplete := true, writeError := true, pendingSend := None);
            var o2 := o.(outcomes := o.outcomes[o.writer.value := false]);
            WriterOk(s2, o2) && GoneOutOk(s2, o2)
  {
    var o2 := o.(outcomes := o.outcomes[o.writer.value := false]);
    forall id: Id | Succeeded(o2, id)
      ensures id in o2.wire
    {
      assert Succeeded(o, id);
    }
    hide Distinct;
  }

  /** The write on the wire ends. */
  lemma EndingKeeps(s: Session, s2: Session, ec: Ending, o: Outgoing)
    requires !s.writeComplete && s.wireWriteBusy && WriterOk(s, o) && GoneOutOk(s, o)
    requires s2 == Written(s, ec).(closeStarted := s2.closeStarted)
    ensures var o2 := o.(outcomes := o.outcomes[o.writer.value := ec == Success]); WriterOk(s2, o2) && GoneOutOk(s2, o2)
  {
    var o2 := o.(outcomes := o.outcomes[o.writer.value := ec == Success]);
    forall id: Id | Succeeded(o2, id)
      ensures id in o2.wire
    {
      if id != o.writer.value {
        assert Succeeded(o, id);
      }
    }
    hide Distinct;
  }

  /** A new write begins, of a call that had none. */
  lemma BeginningKeeps(s: Session, e: Effect, parked: Option<Id>, id: Id, o: Outgoing, o2: Outgoing)
    requires Begins(s, e, parked) && (parked.None? || parked == Some(id)) && !Begun(o, id) && WriterOk(s, o) && GoneOutOk(s, o)
    requires (e.postsWrite ==> !s.wireWriteBusy) && o2 == o.(sends := o2.sends, writer := if e.postsWrite then Some(id) else o.writer)
    ensures WriterOk(e.s, o2) && GoneOutOk(e.s, o2)
  {
    forall id: Id | Succeeded(o2, id)
      ensures id in o2.wire
    {
      assert Succeeded(o, id);
    }
    hide Distinct;
  }

  lemma {:induction false} StepKeepsWrites(w: World, step: Step)
    requires Enabled(w, step) && WriteOk(w) && OutgoingOk(w)
    ensures WriterOk(Next(w, step).s, Next(w, step).outgoing) && GoneOutOk(Next(w, step).s, Next(w, step).outgoing)
  {
    hide Takes, Parked, Arrived, Sendable, SendReady, WriterOk, GoneOutOk, TurnOk, BegunOk, StartWrite, OnWrite, BeginWrite, SendAsync,
      Written, Begins, WriteMove, Begun, PumpLaw, EndLaw, FlagLaw, ParksNothing, OneMessage, NoneSent, OffStrand;
    var e, o := Section(w, step), w.outgoing;
    assert Next(w, step).s == e.s && Next(w, step).outgoing == Sending(o, w.turn, step, e);
    hide Next;
    if Bystander(step) {
      BystanderMoves(w, step);
      hide Section;
      BystanderKeeps(w.s, e, o);
      SendsAlone(e.s, o, Sending(o, w.turn, step, e));
    } else {
      match step {
        case RunWrite =>
          WriterThere(w);
          StartWriteMoves(w.s);
          if e.then_.ArmWrite? {
            StartsKeep(w.s, o);
          } else {
            RefusalKeeps(w.s, o);
          }
        case WriteDone(ec) =>
          WriterThere(w);
          OnWriteMoves(w.s, ec);
          EndingKeeps(w.s, e.s, ec, o);
        case TakeTurn =>
          NotBegun(w, w.turn.id);
          BeginWriteMoves(w.s, w.turn.id);
          FreeWire(w);
          BeginsWhenComplete(w.s, e, None);
          BeginningKeeps(w.s, e, None, w.turn.id, o, Sending(o, w.turn, step, e));
        case AsyncSend(id, m) =>
          NotBegun(w, id);
          SendAsyncMoves(w.s, id);
          FreeWire(w);
          if Sendable(m) {
            BeginsWhenComplete(w.s, e, Some(id));
            BeginningKeeps(w.s, e, Some(id), id, o, Sending(o, w.turn, step, e));
          } else {
            SendsAlone(w.s, o, Sending(o, w.turn, step, e));
          }
      }
    }
  }

  lemma SendsAlone(s: Session, o: Outgoing, o2: Outgoing)
    requires o2 == o.(sends := o2.sends) && WriterOk(s, o) && GoneOutOk(s, o)
    ensures WriterOk(s, o2) && GoneOutOk(s, o2)
  {
    hide Distinct;
    forall id: Id | Succeeded(o2, id)
      ensures id in o2.wire
    {
      assert Succeeded(o, id);
    }
  }

  lemma BeginsWhenComplete(s: Session, e: Effect, parked: Option<Id>)
    requires Begins(s, e, parked)
    ensures e.postsWrite ==> s.writeComplete
  {
  }

  /** While a write is on its way it has a writer, and it is on the wire or not yet. */
  lemma WriterThere(w: World)
    requires WriteOk(w) && WriterOk(w.s, w.outgoing)
    ensures w.postedWrites > 0 || w.writeOps > 0 ==> !w.s.writeComplete && w.outgoing.writer.Some?
    ensures w.postedWrites > 0 ==> !w.s.wireWriteBusy
    ensures w.writeOps > 0 ==> w.s.wireWriteBusy
  {
  }

  lemma FreeWire(w: World)
    requires WriteOk(w)
    ensures SendSlotOk(w.s) && (w.s.writeComplete ==> !w.s.wireWriteBusy)
  {
  }

  /** A call still waiting for its turn, or just being made, has no write yet. */
  lemma NotBegun(w: World, id: Id)
    requires TurnOk(w.turn, w.outgoing) && BegunOk(w.issued, w.outgoing)
    requires w.turn == Waiting(id) || id !in w.issued
    ensures !Begun(w.outgoing, id)
  {
  }

  lemma BegunMoves(o: Outgoing, turn: Turn, step: Step, e: Effect, id: Id)
    requires Begun(Sending(o, turn, step, e), id)
    ensures Begun(o, id) || (step.TakeTurn? && turn == Waiting(id)) || (step.AsyncSend? && step.id == id)
    ensures id in o.sends ==> id in Sending(o, turn, step, e).sends
  {
  }

  lemma {:induction false} StepKeepsBegun(w: World, step: Step)
    requires Enabled(w, step) && OutgoingOk(w) && (!w.turn.Free? ==> w.turn.id in w.issued)
    ensures BegunOk(Next(w, step).issued, Next(w, step).outgoing)
  {
    hide Takes, Parked, Arrived, Sendable, Section, Begun, WriterOk, GoneOutOk, TurnOk, SendReady;
    var o2 := Next(w, step).outgoing;
    assert o2 == Sending(w.outgoing, w.turn, step, Section(w, step)) && Next(w, step).issued == w.issued + Made(step);
    hide Next;
    forall id: Id | Begun(o2, id)
      ensures id in w.issued + Made(step) && id in o2.sends
    {
      BegunMoves(w.outgoing, w.turn, step, Section(w, step), id);
    }
  }

  /** The turn's call keeps its standing when another call's write begins, goes out or ends. */
  lemma TurnStays(turn: Turn, s: Session, o: Outgoing, step: Step, e: Effect)
    requires TurnOk(turn, o) && WriterOk(s, o) && !step.TakeTurn?
    requires step.AsyncSend? ==> (!turn.Free? ==> turn.id != step.id) && (e.postsWrite ==> s.writeComplete && !s.Terminal() && !s.closeRequested)
    ensures TurnOk(turn, Sending(o, turn, step, e))
  {
  }

  lemma {:induction false} StepKeepsTurn(w: World, step: Step)
    requires Enabled(w, step) && OutgoingOk(w) && WriteOk(w) && (!w.turn.Free? ==> w.turn.id in w.issued)
    ensures TurnOk(Next(w, step).turn, Next(w, step).outgoing) && TurnSends(Next(w, step).turn, Next(w, step).outgoing)
  {
    hide Takes, Parked, Arrived, Sendable, Begun, WriterOk, GoneOutOk, SendReady, Begins, BeginWrite, SendAsync, TurnOk;
    var e, o := Section(w, step), w.outgoing;
    match step {
      case TakeTurn =>
        FreeWire(w);
        BeginWriteMoves(w.s, w.turn.id);
        TurnTaken(w.turn.id, o, e);
      case BlockingSend(id, m) =>
        hide Section;
        TurnStays(w.turn, w.s, o, step, e);
        if Sendable(m) {
          NotBegun(w, id);
          TurnWaits(id, o, m);
        }
      case AsyncSend(id, m) =>
        SendAsyncMoves(w.s, id);
        BeginsLive(w.s, e, id, m);
        hide Section;
        TurnStays(w.turn, w.s, o, step, e);
      case FinishTurn =>
        hide Section;
        TurnStays(Free, w.s, o, step, e);
      case _ =>
        hide Section;
        TurnStays(w.turn, w.s, o, step, e);
        OtherTurn(w, step);
    }
  }

  lemma BeginsLive(s: Session, e: Effect, id: Id, m: Message)
    requires if Sendable(m) then Begins(s, e, Some(id)) else e == Plain(s, [SendDone(id, SendInvalid)])
    ensures e.postsWrite ==> s.writeComplete && !s.Terminal() && !s.closeRequested
  {
    hide Sendable;
  }

  lemma TurnTaken(id: Id, o: Outgoing, e: Effect)
    requires e.postsWrite <==> e.events == []
    ensures TurnOk(if e.events == [] then InFlight(id) else Free, Sending(o, Waiting(id), TakeTurn, e))
  {
  }

  lemma TurnWaits(id: Id, o: Outgoing, m: Message)
    requires !Begun(o, id)
    ensures TurnOk(Waiting(id), o.(sends := o.sends[id := m]))
  {
  }

  /** Steps that are not the turn's leave it alone. */
  lemma OtherTurn(w: World, step: Step)
    requires Enabled(w, step) && !step.TakeTurn? && !step.BlockingSend? && !step.FinishTurn?
    ensures Next(w, step).turn == w.turn && Next(w, step).outgoing == Sending(w.outgoing, w.turn, step, Section(w, step))
    ensures Sending(w.outgoing, w.turn, step, Section(w, step)).sends.Keys >= w.outgoing.sends.Keys
  {
    hide Section, Takes, Parked, Arrived, Sendable;
  }

  // ----- runs -----

  lemma {:induction false} StepKeepsOutgoing(w: World, step: Step)
    requires Inv(w) && OutgoingOk(w) && Enabled(w, step)
    ensures OutgoingOk(Next(w, step))
  {
    WaitersWereIssued(w);
    StepKeepsWrites(w, step);
    StepKeepsBegun(w, step);
    StepKeepsTurn(w, step);
    hide Next, Enabled, WriterOk, GoneOutOk, TurnOk, BegunOk, TurnSends;
  }

  lemma {:induction false} RunsKeepOutgoing(ws: seq<World>, steps: seq<Step>, i: nat)
    requires IsRun(ws, steps) && i < |ws|
    ensures OutgoingOk(ws[i])
  {
    if i == 0 {
      StartOutgoing();
    } else {
      RunsKeepOutgoing(ws, steps, i - 1);
      RunsKeepInv(ws, steps, i - 1);
      hide Next, OutgoingOk, Inv;
      StepKeepsOutgoing(ws[i - 1], steps[i - 1]);
    }
  }

  lemma StartOutgoing()
    ensures OutgoingOk(START)
  {
  }

  // ----- what a send reports -----

  /** Each call's message goes out at most once, and only for calls made with that message. */
  lemma {:induction false} GoesOutOnce(ws: seq<World>, steps: seq<Step>, i: nat)
    requires IsRun(ws, steps) && i < |ws|
    ensures var o := ws[i].outgoing;
            Distinct(o.wire) && forall id | id in o.wire :: id in ws[i].issued && id in o.sends
  {
    RunsKeepOutgoing(ws, steps, i);
    hide IsRun, WriterOk, TurnOk, Distinct;
    forall id | id in ws[i].outgoing.wire
      ensures id in ws[i].issued && id in ws[i].outgoing.sends
    {
      assert Begun(ws[i].outgoing, id);
    }
  }

  /** An asynchronous send that its write completes reports that write's own end. */
  lemma {:induction false} AsyncSendOutcome(w: World, step: Step, id: Id, result: SendResult)
    requires Inv(w) && OutgoingOk(w) && Enabled(w, step) && (step.RunWrite? || step.WriteDone?)
    requires SendDone(id, result) in Section(w, step).events
    ensures w.outgoing.writer == Some(id) && WriteEnded(Next(w, step).outgoing, id)
    ensures result == if Succeeded(Next(w, step).outgoing, id) then Sent else SendError
  {
    hide ReadOk, CloseOk, QueueOk, PumpOk, OncePerCall, DeadlinesOk, CountOk, HandedOk, TurnOk, BegunOk, GoneOutOk, PumpLaw, EndLaw,
      FlagLaw, ParksNothing, OneMessage, NoneSent;
    WriterThere(w);
    assert Next(w, step).outgoing == Sending(w.outgoing, w.turn, step, Section(w, step));
    hide Next;
  }

  /** A blocking Send reports the end of the write begun last. */
  lemma FinishReports(w: World)
    requires Enabled(w, FinishTurn) && OutgoingOk(w)
    ensures w.outgoing.writer.Some?
    ensures Section(w, FinishTurn).events ==
            [SendDone(w.turn.id, if Succeeded(w.outgoing, w.outgoing.writer.value) then Sent else SendError)]
  {
    hide BegunOk, GoneOutOk, PumpLaw, EndLaw, FlagLaw, ParksNothing, OneMessage, NoneSent;
    TurnWriter(w);
  }

  /** Something was written once a turn is on the wire. */
  lemma TurnWriter(w: World)
    requires OutgoingOk(w) && w.turn.InFlight?
    ensures w.outgoing.writer.Some?
  {
    hide BegunOk, GoneOutOk;
  }

  /**
   * A blocking Send reported as sent was: its own write succeeded. The other way it can be wrong: it reports an error
   * although its own write succeeded exactly when an asynchronous send began another write before it resumed, and that
   * one has not succeeded.
   */
  lemma {:induction false} BlockingSendOutcome(w: World)
    requires Enabled(w, FinishTurn) && OutgoingOk(w)
    ensures var o, id := w.outgoing, w.turn.id;
            (Section(w, FinishTurn).events == [SendDone(id, Sent)] ==> Succeeded(o, id)) &&
            (Succeeded(o, id) ==>
               (Section(w, FinishTurn).events == [SendDone(id, SendError)] <==>
                o.writer.Some? && o.writer.value != id && !Succeeded(o, o.writer.value)))
  {
    FinishReports(w);
    hide Section, BegunOk, GoneOutOk;
  }

  lemma StrandSent(w: World, step: Step)
    requires Enabled(w, step) && OnStrand(step) && !step.WriteDone?
    ensures NoneSent(Section(w, step))
  {
    hide PumpRead, OnReadClosed, OnReadError, OnReadMessage, StartWrite, OnWrite, RequestClose, RequestKick, OnClose,
      OnDeadline, OffStrand, ParksNothing, PumpLaw, EndLaw, FlagLaw, OneMessage;
    if step.Continue? && w.strand.FailNext? {
      assert Section(w, step) == Fail(w.s);
    }
    hide Fail;
  }

  lemma FacadeSent(w: World, step: Step)
    requires Enabled(w, step) && !OnStrand(step) && !step.FinishTurn?
    ensures NoneSent(Section(w, step))
  {
    hide FinishReceive, ReceiveAsync, BeginWrite, EndWrite, SendAsync, Fail, ReceiveReady, SendReady, Sendable, Blocked, ParksNothing,
      OffStrand, PumpLaw, EndLaw, FlagLaw, OneMessage;
    match step
    case TakeTurn => assert NoneSent(BeginWrite(w.s, w.turn.id));
    case AsyncReceive(id, timeout) => assert NoneSent(ReceiveAsync(w.s, id, timeout));
    case ResumeReceive(id) => assert NoneSent(FinishReceive(Blocked(w.s, -1), id));
    case ReceiveDeadline(id) => assert NoneSent(FinishReceive(Blocked(w.s, -1), id));
    case Abort => assert NoneSent(Fail(w.s));
    case _ =>
  }

  /** Every send reported as sent, by whatever step, has gone out whole: its own write succeeded. */
  lemma {:induction false} SentMeansGoneOut(w: World, step: Step, id: Id)
    requires Inv(w) && OutgoingOk(w) && Enabled(w, step) && SendDone(id, Sent) in Section(w, step).events
    ensures Succeeded(Next(w, step).outgoing, id) && id in Next(w, step).outgoing.wire
  {
    StepKeepsOutgoing(w, step);
    if step.WriteDone? {
      AsyncSendOutcome(w, step, id, Sent);
    } else if step.FinishTurn? {
      BlockingSendOutcome(w);
      FinishReports(w);
      assert Next(w, step).outgoing == w.outgoing;
    } else if OnStrand(step) {
      StrandSent(w, step);
    } else {
      FacadeSent(w, step);
    }
    hide Section, Next, Inv, WriterOk, TurnOk, BegunOk, Distinct;
  }

  // ----- an error that is another call's -----

  const BORROWED: seq<Step> :=
    [BlockingSend(0, EMPTY), TakeTurn, PostWrite, RunWrite, Continue, WriteDone(Success), AsyncSend(1, EMPTY), PostWrite, RunWrite,
     Continue, WriteDone(OtherError), FinishTurn]

  function BorrowedSession(i: nat): Session {
    var writing := Initial().(writeComplete := false);
    if i < 2 then Initial()
    else if i < 4 then writing
    else if i < 6 then writing.(wireWriteBusy := true)
    else if i < 7 then Initial()
    else if i < 9 then writing.(pendingSend := Some(1))
    else if i < 11 then writing.(pendingSend := Some(1), wireWriteBusy := true)
    else Initial().(writeError := true, failed := true)
  }

  function BorrowedRecord(i: nat): Outgoing {
    Outgoing(if i < 1 then map[] else if i < 7 then map[0 := EMPTY] else map[0 := EMPTY, 1 := EMPTY],
             if i < 2 then None else if i < 7 then Some(0) else Some(1),
             if i < 6 then map[] else if i < 11 then map[0 := true] else map[0 := true, 1 := false],
             if i < 4 then [] else if i < 9 then [0] else [0, 1])
  }

  function BorrowedWorld(i: nat): World {
    START.(s := BorrowedSession(i), strand := if i == 4 || i == 9 then ArmWrite else Nothing,
           writesDue := if i == 2 || i == 7 then 1 else 0, postedWrites := if i == 3 || i == 8 then 1 else 0,
           writeOps := if i == 5 || i == 10 then 1 else 0,
           turn := if i < 1 then Free else if i < 2 then Turn.Waiting(0) else if i < 12 then InFlight(0) else Free,
           issued := if i < 1 then {} else if i < 7 then {0} else {0, 1},
           events := if i < 11 then [] else if i < 12 then [SendDone(1, SendError)] else [SendDone(1, SendError), SendDone(0, SendError)],
           outgoing := BorrowedRecord(i))
  }

  lemma BorrowedTurn(i: nat)
    requires 0 <= i < 2
    ensures Enabled(BorrowedWorld(i), BORROWED[i]) && Next(BorrowedWorld(i), BORROWED[i]) == BorrowedWorld(i + 1)
  {
    EmptyIsSendable();
    hide PumpLaw, EndLaw, FlagLaw, ParksNothing, OffStrand, OneMessage, NoneSent, Sendable;
    TakesNothing(Section(BorrowedWorld(i), BORROWED[i]));
    hide Takes, Gots;
  }

  lemma BorrowedPosts(i: nat)
    requires 2 <= i < 4
    ensures Enabled(BorrowedWorld(i), BORROWED[i]) && Next(BorrowedWorld(i), BORROWED[i]) == BorrowedWorld(i + 1)
  {
    EmptyIsSendable();
    hide PumpLaw, EndLaw, FlagLaw, ParksNothing, OffStrand, OneMessage, NoneSent, Sendable;
    TakesNothing(Section(BorrowedWorld(i), BORROWED[i]));
    hide Takes, Gots;
  }

  lemma BorrowedWrites(i: nat)
    requires 4 <= i < 6
    ensures Enabled(BorrowedWorld(i), BORROWED[i]) && Next(BorrowedWorld(i), BORROWED[i]) == BorrowedWorld(i + 1)
  {
    EmptyIsSendable();
    hide PumpLaw, EndLaw, FlagLaw, ParksNothing, OffStrand, OneMessage, NoneSent, Sendable;
    TakesNothing(Section(BorrowedWorld(i), BORROWED[i]));
    hide Takes, Gots;
  }

  lemma BorrowedAgain(i: nat)
    requires 6 <= i < 8
    ensures Enabled(BorrowedWorld(i), BORROWED[i]) && Next(BorrowedWorld(i), BORROWED[i]) == BorrowedWorld(i + 1)
  {
    EmptyIsSendable();
    hide PumpLaw, EndLaw, FlagLaw, ParksNothing, OffStrand, OneMessage, NoneSent, Sendable;
    TakesNothing(Section(BorrowedWorld(i), BORROWED[i]));
    hide Takes, Gots;
  }

  lemma BorrowedFails(i: nat)
    requires 8 <= i < 10
    ensures Enabled(BorrowedWorld(i), BORROWED[i]) && Next(BorrowedWorld(i), BORROWED[i]) == BorrowedWorld(i + 1)
  {
    EmptyIsSendable();
    hide PumpLaw, EndLaw, FlagLaw, ParksNothing, OffStrand, OneMessage, NoneSent, Sendable;
    TakesNothing(Section(BorrowedWorld(i), BORROWED[i]));
    hide Takes, Gots;
  }

  lemma BorrowedBreaks(i: nat)
    requires i == 10
    ensures Enabled(BorrowedWorld(i), BORROWED[i]) && Next(BorrowedWorld(i), BORROWED[i]) == BorrowedWorld(i + 1)
  {
    hide PumpLaw, EndLaw, FlagLaw, ParksNothing, OffStrand, OneMessage, NoneSent, Sendable;
    TakesNothing(Section(BorrowedWorld(i), BORROWED[i]));
    hide Takes, Gots;
  }

  lemma BorrowedReports(i: nat)
    requires i == 11
    ensures Enabled(BorrowedWorld(i), BORROWED[i]) && Next(BorrowedWorld(i), BORROWED[i]) == BorrowedWorld(i + 1)
  {
    hide PumpLaw, EndLaw, FlagLaw, ParksNothing, OffStrand, OneMessage, NoneSent, Sendable;
    TakesNothing(Section(BorrowedWorld(i), BORROWED[i]));
  }

  /**
   * It happens: call 0's write succeeds, call 1's write begins before call 0 resumes, and fails; both report an error.
   */
  lemma {:induction false} ErrorBorrowed() returns (ws: seq<World>)
    ensures IsRun(ws, BORROWED)
    ensures var last := ws[|BORROWED|]; Succeeded(last.outgoing, 0) && last.events == [SendDone(1, SendError), SendDone(0, SendError)]
  {
    ws := seq(|BORROWED| + 1, i requires 0 <= i <= |BORROWED| => BorrowedWorld(i));
    forall i | 0 <= i < |BORROWED|
      ensures Enabled(ws[i], BORROWED[i]) && ws[i + 1] == Next(ws[i], BORROWED[i])
    {
      if i < 2 {
        BorrowedTurn(i);
      } else if i < 4 {
        BorrowedPosts(i);
      } else if i < 6 {
        BorrowedWrites(i);
      } else if i < 8 {
        BorrowedAgain(i);
      } else if i < 10 {
        BorrowedFails(i);
      } else if i < 11 {
        BorrowedBreaks(i);
      } else {
        BorrowedReports(i);
      }
      hide Enabled, Next, BorrowedWorld;
    }
    hide Enabled, Next;
  }
}
