/** `WsSession`: its lock sections as code that updates the fields in place. */
module WsSession {
  import opened Common
  import opened FrameSpec
  import opened Crc32
  import opened WsSpec
  import Frame

  class WsSession {
    var received: seq<Message>
    var pendingReceive: Option<Id>
    var pendingSend: Option<Id>
    var receiveParkGeneration: nat
    var blockedReceivers: nat
    var readPaused: bool
    var peerClosed: bool
    var failed: bool
    var writeComplete: bool
    var writeError: bool
    var wireWriteBusy: bool
    var closeRequested: bool
    var closeStarted: bool
    var kickArmed: bool
    /** What was posted to the executor: read pumps, ready completions, and writes due once the lock is free. */
    var pumpsPosted: nat
    var readyPosted: seq<(Id, Message)>
    var writesDue: nat
    /** How often `wake_.notify_all()` was called. */
    var notifications: nat

    function View(): Session
      reads this
    {
      Session(received, pendingReceive, pendingSend, receiveParkGeneration, blockedReceivers, readPaused, peerClosed, failed,
              writeComplete, writeError, wireWriteBusy, closeRequested, closeStarted, kickArmed)
    }

    /** Everything a section promises: the fields it leaves, its completions in order, what comes next, what it posted. */
    twostate predicate Did(e: Effect, fired: seq<Event>, next: Then)
      reads this
    {
      View() == e.s && fired == e.events && next == e.then_ && Posted(e)
    }

    twostate predicate Posted(e: Effect)
      reads this
    {
      (notifications > old(notifications) <==> e.notified) &&
      pumpsPosted == old(pumpsPosted) + AsCount(e.postsPump) && writesDue == old(writesDue) + AsCount(e.postsWrite) &&
      readyPosted == old(readyPosted) + match e.postsReady case None => [] case Some(r) => [r]
    }

    constructor ()
      ensures View() == Initial() && pumpsPosted == 0 && readyPosted == [] && writesDue == 0
    {
      received, pendingReceive, pendingSend, receiveParkGeneration, blockedReceivers := [], None, None, 0, 0;
      readPaused, peerClosed, failed, writeComplete, writeError := false, false, false, true, false;
      wireWriteBusy, closeRequested, closeStarted, kickArmed := false, false, false, false;
      pumpsPosted, readyPosted, writesDue, notifications := 0, [], 0, 0;
    }

    // ----- the strand -----

    method PumpRead() returns (next: Then)
      modifies this
      ensures Did(WsSpec.PumpRead(old(View())), [], next)
    {
      if failed || peerClosed || closeStarted {
        return Nothing;
      }
      if |received| >= QUEUE_DEPTH {
        readPaused := true;
        return Nothing;
      }
      return ArmRead;
    }

    /** Takes both slots and fires the send before the receive. */
    method CompleteAsyncWaiters(clean: bool) returns (fired: seq<Event>)
      modifies this`pendingReceive, this`pendingSend
      ensures fired == Waiters(old(View()), clean) && View() == Emptied(old(View()))
    {
      fired := [];
      var send := pendingSend;
      pendingSend := None;
      if send.Some? {
        fired := fired + [SendDone(send.value, SendError)];
      }
      var receive := pendingReceive;
      pendingReceive := None;
      if receive.Some? {
        fired := fired + [ReceiveDone(receive.value, if clean then CleanEnd else ReceiveError)];
      }
    }

    method OnReadClosed() returns (fired: seq<Event>)
      modifies this
      ensures Did(WsSpec.OnReadClosed(old(View())), fired, Nothing)
    {
      peerClosed := true;
      fired := CompleteAsyncWaiters(true);
      notifications := notifications + 1;
    }

    method OnReadError(ec: Ending) returns (next: Then)
      ensures next == WsSpec.OnReadError(View(), ec).then_
      ensures WsSpec.OnReadError(View(), ec) == Plain(View(), []).(then_ := next)
    {
      if closeRequested && ec == Aborted {
        return Nothing;
      }
      return FailNext;
    }

    method Fail() returns (fired: seq<Event>)
      modifies this
      ensures Did(WsSpec.Fail(old(View())), fired, Nothing)
    {
      if !failed && !peerClosed {
        failed := true;
      }
      fired := CompleteAsyncWaiters(false);
      notifications := notifications + 1;
    }

    method FailAndClose() returns (fired: seq<Event>, next: Then)
      modifies this
      ensures Did(WsSpec.FailAndClose(old(View())), fired, next)
    {
      hide PumpLaw, EndLaw, FlagLaw, ParksNothing, OneMessage, NoneSent;
      fired := Fail();
      hide Waiters;
      closeRequested := true;
      next := Nothing;
      if !closeStarted && !wireWriteBusy {
        closeStarted := true;
        next := ArmClose;
      }
    }

    method Deliver(message: Message) returns (fired: seq<Event>, next: Then)
      modifies this
      ensures Did(WsSpec.Deliver(old(View()), message), fired, next)
    {
      fired := [];
      if pendingReceive.Some? {
        fired := [ReceiveDone(pendingReceive.value, Got(message))];
        pendingReceive := None;
      } else {
        received := received + [message];
        notifications := notifications + 1;
      }
      next := Pump;
    }

    /** A message read off the wire: exactly one frame, or the session fails and closes. */
    method OnReadMessage(binary: bool, bytes: Octets) returns (fired: seq<Event>, next: Then)
      modifies this
      ensures Did(WsSpec.OnReadMessage(old(View()), binary, bytes), fired, next)
    {
      hide Decode;
      if !binary {
        fired, next := FailAndClose();
        return;
      }
      var decoded := Frame.DecodeMessage(bytes);
      if decoded.Err? || decoded.value.None? || decoded.value.value.1 != |bytes| {
        fired, next := FailAndClose();
        return;
      }
      fired, next := Deliver(decoded.value.value.0);
    }

    method StartWrite() returns (fired: seq<Event>, next: Then)
      modifies this
      ensures Did(WsSpec.StartWrite(old(View())), fired, next)
    {
      hide WsSpec.StartWrite, PumpLaw, EndLaw, FlagLaw, ParksNothing, OneMessage, NoneSent;
      if failed || peerClosed || closeRequested {
        RefusesWrite(View());
        writeComplete := true;
        writeError := true;
        fired := TakeSend(SendError);
        notifications := notifications + 1;
        return fired, Nothing;
      }
      BeginsWrite(View());
      wireWriteBusy := true;
      return [], ArmWrite;
    }

    method TakeSend(result: SendResult) returns (fired: seq<Event>)
      modifies this`pendingSend
      ensures fired == SendOf(old(pendingSend), result) && pendingSend == None
    {
      fired := if pendingSend.Some? then [SendDone(pendingSend.value, result)] else [];
      pendingSend := None;
    }

    method MarkWritten(ec: Ending)
      modifies this`wireWriteBusy, this`writeComplete, this`writeError, this`failed
      ensures View() == Written(old(View()), ec).(pendingSend := pendingSend)
    {
      wireWriteBusy := false;
      writeComplete := true;
      if ec != Success {
        writeError := true;
        if !failed && !peerClosed {
          failed := true;
        }
      }
    }

    /** The first half of `OnWrite`: the outcome of the write, and the send it belongs to. */
    method RecordWrite(ec: Ending) returns (fired: seq<Event>)
      modifies this
      ensures View() == Written(old(View()), ec)
      ensures fired == SendOf(old(pendingSend), if writeError then SendError else Sent)
      ensures pumpsPosted == old(pumpsPosted) && readyPosted == old(readyPosted) && writesDue == old(writesDue)
      ensures notifications > old(notifications)
    {
      hide SendOf;
      MarkWritten(ec);
      fired := TakeSend(if writeError then SendError else Sent);
      notifications := notifications + 1;
    }

    method OnWrite(ec: Ending) returns (fired: seq<Event>, next: Then)
      modifies this
      ensures Did(WsSpec.OnWrite(old(View()), ec), fired, next)
    {
      hide PumpLaw, EndLaw, FlagLaw, ParksNothing, OneMessage, NoneSent, SendOf;
      fired := RecordWrite(ec);
      next := Nothing;
      if ec == Success && closeRequested && !closeStarted {
        closeStarted := true;
        next := ArmClose;
      }
    }

    method RequestCloseLocked() returns (next: Then)
      modifies this
      ensures Did(RequestClose(old(View())), [], next)
    {
      if closeRequested || failed || peerClosed {
        return Nothing;
      }
      closeRequested := true;
      if !wireWriteBusy {
        closeStarted := true;
        return ArmClose;
      }
      return Nothing;
    }

    method Kick() returns (next: Then)
      modifies this
      ensures Did(RequestKick(old(View())), [], next)
    {
      if kickArmed || peerClosed {
        return Nothing;
      }
      kickArmed := true;
      next := RequestCloseLocked();
    }

    method MarkEnded(ec: Ending)
      modifies this`failed, this`peerClosed
      ensures View() == Ended(old(View()), ec)
    {
      if !failed && !peerClosed {
        if ec != Success {
          failed := true;
        } else {
          peerClosed := true;
        }
      }
    }

    method OnClose(ec: Ending) returns (fired: seq<Event>)
      modifies this
      ensures Did(WsSpec.OnClose(old(View()), ec), fired, Nothing)
    {
      hide PumpLaw, EndLaw, FlagLaw, ParksNothing, OneMessage, NoneSent, Ended, Waiters;
      MarkEnded(ec);
      fired := CompleteAsyncWaiters(!failed);
      notifications := notifications + 1;
    }

    method OnReceiveDeadline(generation: nat) returns (fired: seq<Event>)
      modifies this
      ensures Did(OnDeadline(old(View()), generation), fired, Nothing)
    {
      if pendingReceive.None? || receiveParkGeneration != generation {
        return [];
      }
      fired := [ReceiveDone(pendingReceive.value, ReceiveTimeout)];
      pendingReceive := None;
      notifications := notifications + 1;
    }

    // ----- the facade -----

    method ResumeReadsIfPaused()
      modifies this`readPaused, this`pumpsPosted
      ensures View() == Resumed(old(View())) && pumpsPosted == old(pumpsPosted) + AsCount(Resumes(old(View())))
    {
      if !readPaused || failed || peerClosed || |received| >= QUEUE_DEPTH {
        return;
      }
      readPaused := false;
      pumpsPosted := pumpsPosted + 1;
    }

    method PopReceived() returns (message: Message)
      requires received != []
      modifies this
      ensures message == old(received)[0] && Posted(Oldest(old(View()))) && View() == Oldest(old(View())).s
    {
      message := received[0];
      received := received[1..];
      ResumeReadsIfPaused();
    }

    /** `ReceiveWithin` up to its wait: completes at once, or is left waiting. */
    method BeginReceive(id: Id) returns (waiting: bool, fired: seq<Event>)
      modifies this
      ensures waiting <==> !ReceiveReady(old(View()))
      ensures Did(if waiting then Plain(old(View()).(blockedReceivers := old(blockedReceivers) + 1), [])
                  else FinishReceive(old(View()), id), fired, Nothing)
    {
      hide FinishReceive, EndLaw, FlagLaw, PumpLaw, ParksNothing, OneMessage, NoneSent, OffStrand;
      blockedReceivers := blockedReceivers + 1;
      var ready := ReceiveReady(View());
      assert ready == ReceiveReady(old(View()));
      hide ReceiveReady;
      if !ready {
        return true, [];
      }
      blockedReceivers := blockedReceivers - 1;
      assert View() == old(View());
      fired := FinishReceiveLocked(id);
      waiting := false;
    }

    method FinishReceiveLocked(id: Id) returns (fired: seq<Event>)
      modifies this
      ensures Did(FinishReceive(old(View()), id), fired, Nothing)
    {
      hide Oldest;
      if received != [] && pendingReceive.None? {
        OldestWire(View());
        var message := PopReceived();
        return [ReceiveDone(id, Got(message))];
      }
      return [ReceiveDone(id, if peerClosed then CleanEnd else ReceiveError)];
    }

    /** Leaves the count of blocked receivers, which is no part of the wait's condition. */
    method LeaveWait() returns (ready: bool)
      requires blockedReceivers > 0
      modifies this`blockedReceivers
      ensures View() == old(View()).(blockedReceivers := old(blockedReceivers) - 1)
      ensures ready == ReceiveReady(old(View())) == ReceiveReady(View())
    {
      ready := (received != [] && pendingReceive.None?) || peerClosed || failed;
      blockedReceivers := blockedReceivers - 1;
    }

    /** `ReceiveWithin` after its wait; `expired` is a deadline that ran out with the condition still false. */
    method ResumeReceive(id: Id, expired: bool) returns (fired: seq<Event>)
      requires blockedReceivers > 0 && (expired || ReceiveReady(View()))
      modifies this
      ensures var left := old(View()).(blockedReceivers := old(blockedReceivers) - 1);
              Did(if !ReceiveReady(left) then Plain(left, [ReceiveDone(id, ReceiveTimeout)]) else FinishReceive(left, id),
                  fired, Nothing)
    {
      hide FinishReceive, ReceiveReady, EndLaw, FlagLaw, PumpLaw, ParksNothing, OneMessage, NoneSent, OffStrand;
      var ready := LeaveWait();
      if !ready {
        return [ReceiveDone(id, ReceiveTimeout)];
      }
      fired := FinishReceiveLocked(id);
    }

    /** `ReceiveAsyncWithin`; a park reports the generation its deadline must name. */
    method ReceiveAsyncWithin(id: Id, timeout: Option<int>) returns (fired: seq<Event>, parkedGeneration: Option<nat>)
      modifies this
      ensures Did(ReceiveAsync(old(View()), id, timeout), fired, Nothing)
      ensures parkedGeneration.Some? <==> ReceiveAsync(old(View()), id, timeout) == Park(old(View()), id)
      ensures parkedGeneration.Some? ==> parkedGeneration.value == receiveParkGeneration
    {
      hide Oldest, ReceiveNothing, PumpLaw, EndLaw, FlagLaw, ParksNothing, OneMessage, NoneSent, OffStrand;
      parkedGeneration, fired := None, [];
      if pendingReceive.Some? || blockedReceivers > 0 {
        fired := [ReceiveDone(id, ReceiveRefused)];
      } else if received != [] {
        OldestWire(View());
        var message := PopReceived();
        readyPosted := readyPosted + [(id, message)];
      } else {
        fired, parkedGeneration := ReceiveOrPark(id, timeout);
      }
    }

    method ReceiveOrPark(id: Id, timeout: Option<int>) returns (fired: seq<Event>, parkedGeneration: Option<nat>)
      requires received == [] && pendingReceive.None?
      modifies this
      ensures Did(ReceiveNothing(old(View()), id, timeout), fired, Nothing)
      ensures parkedGeneration.Some? <==> ReceiveNothing(old(View()), id, timeout) == Park(old(View()), id)
      ensures parkedGeneration.Some? ==> parkedGeneration.value == receiveParkGeneration
    {
      hide PumpLaw, EndLaw, FlagLaw, ParksNothing, OneMessage, NoneSent, OffStrand;
      parkedGeneration, fired := None, [];
      if peerClosed {
        fired := [ReceiveDone(id, CleanEnd)];
      } else if failed {
        fired := [ReceiveDone(id, ReceiveError)];
      } else if timeout.Some? && timeout.value <= 0 {
        fired := [ReceiveDone(id, ReceiveTimeout)];
      } else {
        pendingReceive := Some(id);
        receiveParkGeneration := receiveParkGeneration + 1;
        parkedGeneration := Some(receiveParkGeneration);
      }
    }

    /** The blocking Send once its turn has come. */
    method BeginSend(id: Id) returns (fired: seq<Event>)
      requires SendReady(View())
      modifies this
      ensures Did(BeginWrite(old(View()), id), fired, Nothing)
    {
      if failed || peerClosed || closeRequested {
        return [SendDone(id, SendError)];
      }
      writeComplete := false;
      writeError := false;
      writesDue := writesDue + 1;
      return [];
    }

    method EndSend(id: Id) returns (fired: seq<Event>)
      requires writeComplete || failed
      ensures fired == EndWrite(View(), id).events && EndWrite(View(), id) == Plain(View(), fired)
    {
      if writeComplete && !writeError {
        return [SendDone(id, Sent)];
      }
      return [SendDone(id, SendError)];
    }

    method SendAsync(id: Id) returns (fired: seq<Event>)
      modifies this
      ensures Did(WsSpec.SendAsync(old(View()), id), fired, Nothing)
    {
      hide PumpLaw, EndLaw, FlagLaw, ParksNothing, OneMessage, NoneSent;
      if failed || peerClosed || closeRequested {
        return [SendDone(id, SendError)];
      }
      if !writeComplete || pendingSend.Some? {
        return [SendDone(id, SendRefused)];
      }
      pendingSend := Some(id);
      writeComplete := false;
      writeError := false;
      writesDue := writesDue + 1;
      return [];
    }
  }

  lemma RefusesWrite(s: Session)
    requires s.failed || s.peerClosed || s.closeRequested
    ensures StartWrite(s) ==
            Notifying(s.(writeComplete := true, writeError := true, pendingSend := None), SendOf(s.pendingSend, SendError))
  {
    hide PumpLaw, EndLaw, FlagLaw, ParksNothing, OneMessage, NoneSent;
  }

  lemma BeginsWrite(s: Session)
    requires !s.failed && !s.peerClosed && !s.closeRequested
    ensures StartWrite(s) == Plain(s.(wireWriteBusy := true), []).(then_ := ArmWrite)
  {
    hide PumpLaw, EndLaw, FlagLaw, ParksNothing, OneMessage, NoneSent;
  }
}
