/** `PairState` and `PairEnd`: the critical sections as code that updates the shared state in place. */
module Pair {
  import opened Common
  import opened FrameSpec
  import opened PairSpec
  import Frame

  class PairState {
    var queues: Two<seq<Message>>
    var pendingReceive: Two<Option<Id>>
    var pendingSend: Two<Option<PendingSend>>
    var receiveParkGeneration: Two<nat>
    var blockedReceivers: Two<nat>
    var blockedSenders: Two<nat>
    var closed: bool
    var peerClose: Two<Option<CloseReason>>
    /** How often `changed.notify_all()` was called. */
    var notifications: nat

    function View(): State
      reads this
    {
      State(queues, pendingReceive, pendingSend, receiveParkGeneration, blockedReceivers, blockedSenders, closed, peerClose)
    }

    /** Everything a critical section promises: its new state, its completions in order, its notification. */
    twostate predicate Did(d: Done, fired: seq<Event>)
      reads this
    {
      View() == d.s && fired == d.events && (notifications > old(notifications) <==> d.notified)
    }

    constructor ()
      ensures View() == Initial()
    {
      queues, pendingReceive, pendingSend := Two([], []), Two(None, None), Two(None, None);
      receiveParkGeneration, blockedReceivers, blockedSenders := Two(0, 0), Two(0, 0), Two(0, 0);
      closed, peerClose, notifications := false, Two(None, None), 0;
    }

    method NotifyAll()
      modifies this`notifications
      ensures notifications == old(notifications) + 1
    {
      notifications := notifications + 1;
    }
  }

  class PairEnd {
    const state: PairState
    const sendIndex: End

    constructor (state: PairState, sendIndex: End)
      ensures this.state == state && this.sendIndex == sendIndex
    {
      this.state, this.sendIndex := state, sendIndex;
    }

    /** The peer's parked receive, taken out of its slot. */
    method TakePeerReceiverLocked() returns (parked: Option<Id>)
      modifies state
      ensures parked == old(state.pendingReceive).At(sendIndex.Other())
      ensures state.View() == old(state.View()).(pendingReceive := old(state.pendingReceive).With(sendIndex.Other(), None))
      ensures state.notifications == old(state.notifications) + if parked.Some? then 1 else 0
    {
      var peer := sendIndex.Other();
      parked := state.pendingReceive.At(peer);
      if parked.Some? {
        state.NotifyAll();
        state.pendingReceive := state.pendingReceive.With(peer, None);
      }
    }

    /** The common tail of both sends. */
    method TransmitLocked(id: Id, m: Message) returns (fired: seq<Event>)
      modifies state
      ensures state.Did(Transmit(old(state.View()), sendIndex, id, m), fired)
    {
      var deliver := TakePeerReceiverLocked();
      if deliver.Some? {
        return [ReceiveDone(sendIndex.Other(), deliver.value, Got(m)), SendDone(sendIndex, id, m, Sent)];
      }
      state.queues := state.queues.With(sendIndex, state.queues.At(sendIndex) + [m]);
      state.NotifyAll();
      return [SendDone(sendIndex, id, m, Sent)];
    }

    /** `Send` up to its wait: completes at once, or is left waiting. */
    method BeginSend(id: Id, m: Message) returns (waiting: bool, fired: seq<Event>)
      modifies state
      ensures waiting <==> Encode(m).Ok? && !SendReady(old(state.View()), sendIndex)
      ensures state.Did(
                if Encode(m).Err? then Done(old(state.View()), [SendDone(sendIndex, id, m, SendInvalid)], false)
                else if waiting then Done(old(state.View()).(blockedSenders :=
                    old(state.blockedSenders).With(sendIndex, old(state.blockedSenders).At(sendIndex) + 1)), [], false)
                else FinishSend(old(state.View()), sendIndex, id, m), fired)
    {
      hide Encode;
      var frame := Frame.EncodeMessage(m);
      if frame.Err? {
        return false, [SendDone(sendIndex, id, m, SendInvalid)];
      }
      ghost var before := state.blockedSenders;
      state.blockedSenders := state.blockedSenders.With(sendIndex, state.blockedSenders.At(sendIndex) + 1);
      if !SendReady(state.View(), sendIndex) {
        return true, [];
      }
      state.blockedSenders := state.blockedSenders.With(sendIndex, state.blockedSenders.At(sendIndex) - 1);
      assert state.blockedSenders == before;
      fired := FinishSendLocked(id, m);
      waiting := false;
    }

    method FinishSendLocked(id: Id, m: Message) returns (fired: seq<Event>)
      modifies state
      ensures state.Did(FinishSend(old(state.View()), sendIndex, id, m), fired)
    {
      if state.closed {
        return [SendDone(sendIndex, id, m, SendClosed)];
      }
      fired := TransmitLocked(id, m);
    }

    /** `Send` after its wait: leaves the count, then finishes. */
    method ResumeSend(id: Id, m: Message) returns (fired: seq<Event>)
      requires state.blockedSenders.At(sendIndex) > 0 && SendReady(state.View(), sendIndex)
      modifies state
      ensures state.Did(FinishSend(old(state.View()).(blockedSenders :=
                  old(state.blockedSenders).With(sendIndex, old(state.blockedSenders).At(sendIndex) - 1)), sendIndex, id, m), fired)
    {
      state.blockedSenders := state.blockedSenders.With(sendIndex, state.blockedSenders.At(sendIndex) - 1);
      fired := FinishSendLocked(id, m);
    }

    method SendAsync(id: Id, m: Message) returns (fired: seq<Event>)
      modifies state
      ensures state.Did(PairSpec.SendAsync(old(state.View()), sendIndex, id, m), fired)
    {
      hide Encode;
      var frame := Frame.EncodeMessage(m);
      if frame.Err? {
        return [SendDone(sendIndex, id, m, SendInvalid)];
      }
      if state.closed {
        return [SendDone(sendIndex, id, m, SendClosed)];
      }
      if state.pendingSend.At(sendIndex).Some? || state.blockedSenders.At(sendIndex) > 0 {
        return [SendDone(sendIndex, id, m, SendRefused)];
      }
      if |state.queues.At(sendIndex)| >= QUEUE_DEPTH {
        state.pendingSend := state.pendingSend.With(sendIndex, Some(PendingSend(m, id)));
        return [];
      }
      fired := TransmitLocked(id, m);
    }

    /** The peer's parked send takes the place this end freed. */
    method AbsorbPeerPendingSendLocked() returns (fired: seq<Event>)
      modifies state
      ensures (state.View(), fired) == Absorb(old(state.View()), sendIndex)
      ensures state.notifications == old(state.notifications)
    {
      var peer := sendIndex.Other();
      var parked := state.pendingSend.At(peer);
      if parked.None? || |state.queues.At(peer)| >= QUEUE_DEPTH {
        return [];
      }
      state.queues := state.queues.With(peer, state.queues.At(peer) + [parked.value.message]);
      state.pendingSend := state.pendingSend.With(peer, None);
      return [SendDone(peer, parked.value.id, parked.value.message, Sent)];
    }

    method PopLocked(id: Id) returns (fired: seq<Event>)
      requires state.queues.At(sendIndex.Other()) != []
      modifies state
      ensures state.Did(Pop(old(state.View()), sendIndex, id), fired)
    {
      var peer := sendIndex.Other();
      var inbound := state.queues.At(peer);
      state.queues := state.queues.With(peer, inbound[1..]);
      var absorbed := AbsorbPeerPendingSendLocked();
      state.NotifyAll();
      return absorbed + [ReceiveDone(sendIndex, id, Got(inbound[0]))];
    }

    /** `ReceiveAsyncWithin`; a park reports the generation its deadline must name. */
    method ReceiveAsyncWithin(id: Id, timeout: Option<int>) returns (fired: seq<Event>, parkedGeneration: Option<nat>)
      modifies state
      ensures state.Did(ReceiveAsync(old(state.View()), sendIndex, id, timeout), fired)
      ensures parkedGeneration == if fired == [] then Some(state.receiveParkGeneration.At(sendIndex)) else None
    {
      parkedGeneration := None;
      if state.pendingReceive.At(sendIndex).Some? || state.blockedReceivers.At(sendIndex) > 0 {
        fired := [ReceiveDone(sendIndex, id, ReceiveRefused)];
      } else if state.queues.At(sendIndex.Other()) != [] {
        fired := PopLocked(id);
      } else if state.closed {
        fired := [ReceiveDone(sendIndex, id, CleanEnd)];
      } else if timeout.Some? && timeout.value <= 0 {
        fired := [ReceiveDone(sendIndex, id, ReceiveTimeout)];
      } else {
        state.pendingReceive := state.pendingReceive.With(sendIndex, Some(id));
        state.receiveParkGeneration := state.receiveParkGeneration.With(sendIndex, state.receiveParkGeneration.At(sendIndex) + 1);
        fired := [];
        parkedGeneration := Some(state.receiveParkGeneration.At(sendIndex));
      }
    }

    /** The deadline thread's critical section. */
    method OnWatchdog(generation: nat) returns (fired: seq<Event>)
      modifies state
      ensures state.Did(Watchdog(old(state.View()), sendIndex, generation), fired)
    {
      var parked := state.pendingReceive.At(sendIndex);
      if parked.None? || state.receiveParkGeneration.At(sendIndex) != generation {
        return [];
      }
      state.pendingReceive := state.pendingReceive.With(sendIndex, None);
      state.NotifyAll();
      return [ReceiveDone(sendIndex, parked.value, ReceiveTimeout)];
    }

    /** `ReceiveWithin` up to its wait. */
    method BeginReceive(id: Id) returns (waiting: bool, fired: seq<Event>)
      modifies state
      ensures waiting <==> !ReceiveReady(old(state.View()), sendIndex)
      ensures state.Did(
                if waiting then Done(old(state.View()).(blockedReceivers :=
                    old(state.blockedReceivers).With(sendIndex, old(state.blockedReceivers).At(sendIndex) + 1)), [], false)
                else FinishReceive(old(state.View()), sendIndex, id), fired)
    {
      ghost var before := state.blockedReceivers;
      state.blockedReceivers := state.blockedReceivers.With(sendIndex, state.blockedReceivers.At(sendIndex) + 1);
      if !ReceiveReady(state.View(), sendIndex) {
        return true, [];
      }
      state.blockedReceivers := state.blockedReceivers.With(sendIndex, state.blockedReceivers.At(sendIndex) - 1);
      assert state.blockedReceivers == before;
      fired := FinishReceiveLocked(id);
      waiting := false;
    }

    method FinishReceiveLocked(id: Id) returns (fired: seq<Event>)
      modifies state
      ensures state.Did(FinishReceive(old(state.View()), sendIndex, id), fired)
    {
      if state.queues.At(sendIndex.Other()) == [] {
        return [ReceiveDone(sendIndex, id, CleanEnd)];
      }
      fired := PopLocked(id);
    }

    /** `ReceiveWithin` after its wait; `expired` is a deadline that ran out with the condition still false. */
    method ResumeReceive(id: Id, expired: bool) returns (fired: seq<Event>)
      requires state.blockedReceivers.At(sendIndex) > 0 && (expired || ReceiveReady(state.View(), sendIndex))
      modifies state
      ensures var left := old(state.View()).(blockedReceivers :=
                  old(state.blockedReceivers).With(sendIndex, old(state.blockedReceivers).At(sendIndex) - 1));
              state.Did(
                if !ReceiveReady(left, sendIndex) then Done(left, [ReceiveDone(sendIndex, id, ReceiveTimeout)], false)
                else FinishReceive(left, sendIndex, id), fired)
    {
      var ready := ReceiveReady(state.View(), sendIndex);
      state.blockedReceivers := state.blockedReceivers.With(sendIndex, state.blockedReceivers.At(sendIndex) - 1);
      if !ready {
        return [ReceiveDone(sendIndex, id, ReceiveTimeout)];
      }
      fired := FinishReceiveLocked(id);
    }

    /** `End`, behind Close and Kick: both ends' waiters come out, each end's send before its receive. */
    method CloseBoth(why: CloseReason) returns (fired: seq<Event>)
      modifies state
      ensures state.Did(Shut(old(state.View()), sendIndex, why), fired)
    {
      if !state.closed {
        state.peerClose := state.peerClose.With(sendIndex.Other(), Some(why));
      }
      state.closed := true;
      var first := TakeWaiters(E0);
      var second := TakeWaiters(E1);
      state.NotifyAll();
      return first + second;
    }

    method TakeWaiters(end: End) returns (fired: seq<Event>)
      modifies state
      ensures fired == Waiters(old(state.View()), end)
      ensures state.View() == old(state.View()).(pendingSend := old(state.pendingSend).With(end, None),
                                                 pendingReceive := old(state.pendingReceive).With(end, None))
      ensures state.notifications == old(state.notifications)
    {
      fired := [];
      var send := state.pendingSend.At(end);
      if send.Some? {
        state.pendingSend := state.pendingSend.With(end, None);
        fired := fired + [SendDone(end, send.value.id, send.value.message, SendClosed)];
      }
      var receive := state.pendingReceive.At(end);
      if receive.Some? {
        state.pendingReceive := state.pendingReceive.With(end, None);
        fired := fired + [ReceiveDone(end, receive.value, CleanEnd)];
      }
    }
  }

  /** Two connected ends over one fresh state. */
  method Create() returns (a: PairEnd, b: PairEnd)
    ensures fresh(a.state) && a.state == b.state && a.state.View() == Initial()
    ensures a.sendIndex == E0 && b.sendIndex == E1
  {
    var state := new PairState();
    a := new PairEnd(state, E0);
    b := new PairEnd(state, E1);
  }
}
