/** Every call of a session ends at most once, every deadline hits only its own receive, and no message is lost. */
module WsCalls {
  import opened Common
  import opened FrameSpec
  import opened Crc32
  import opened WsSpec
  import opened WsRuns

  // ----- counting -----

  /** How often call id has come to its end. */
  function Completions(events: seq<Event>, id: Id): nat {
    if events == [] then 0
    else Completions(events[..|events| - 1], id) + AsCount(events[|events| - 1].id == id)
  }

  /** How often a posted completion carries call id. */
  function Readied(ready: seq<(Id, Message)>, id: Id): nat {
    if ready == [] then 0
    else Readied(ready[..|ready| - 1], id) + AsCount(ready[|ready| - 1].0 == id)
  }

  /** The messages the posted completions carry. */
  function Posted(ready: seq<(Id, Message)>): seq<Message> {
    if ready == [] then [] else Posted(ready[..|ready| - 1]) + [ready[|ready| - 1].1]
  }

  function InSlot(s: Session, id: Id): nat {
    AsCount(s.pendingReceive == Some(id)) + AsCount(s.pendingSend == Some(id))
  }

  lemma {:induction false} EventsAppended(a: seq<Event>, b: seq<Event>, id: Id)
    ensures Completions(a + b, id) == Completions(a, id) + Completions(b, id)
    ensures Gots(a + b) == Gots(a) + Gots(b)
    decreases |b|
  {
    if b == [] {
      assert a + b == a;
    } else {
      var init := b[..|b| - 1];
      EventsAppended(a, init, id);
      assert (a + b)[..|a + b| - 1] == a + init;
    }
  }

  lemma {:induction false} ReadyAppended(a: seq<(Id, Message)>, b: seq<(Id, Message)>, id: Id)
    ensures Readied(a + b, id) == Readied(a, id) + Readied(b, id)
    ensures Posted(a + b) == Posted(a) + Posted(b)
    decreases |b|
  {
    if b == [] {
      assert a + b == a;
    } else {
      var init := b[..|b| - 1];
      ReadyAppended(a, init, id);
      assert (a + b)[..|a + b| - 1] == a + init;
    }
  }

  lemma OneEvent(ev: Event, id: Id)
    ensures Completions([ev], id) == AsCount(ev.id == id) && Completions([], id) == 0
  {
    assert [ev][..0] == [];
  }

  lemma OneReady(r: (Id, Message), id: Id)
    ensures Readied([r], id) == AsCount(r.0 == id) && Posted([r]) == [r.1]
  {
    assert [r][..0] == [];
  }

  /** Posted completion k leaves the queue. */
  lemma ReadyTaken(ready: seq<(Id, Message)>, k: nat, id: Id)
    requires k < |ready|
    ensures Readied(ready, id) == Readied(ready[..k] + ready[k + 1..], id) + AsCount(ready[k].0 == id)
    ensures multiset(Posted(ready)) == multiset(Posted(ready[..k] + ready[k + 1..])) + multiset{ready[k].1}
  {
    assert ready == ready[..k] + [ready[k]] + ready[k + 1..];
    ReadyAppended(ready[..k] + [ready[k]], ready[k + 1..], id);
    ReadyAppended(ready[..k], [ready[k]], id);
    ReadyAppended(ready[..k], ready[k + 1..], id);
    OneReady(ready[k], id);
    hide Readied, Posted;
  }

  // ----- what a section does to the calls -----

  function PostedIn(e: Effect): seq<(Id, Message)> {
    match e.postsReady case None => [] case Some(r) => [r]
  }

  /** A call the section completes, parks or posts was parked before, or is the one it serves. */
  ghost predicate Accounted(s: Session, e: Effect, served: Option<Id>, id: Id) {
    Completions(e.events, id) + InSlot(e.s, id) + Readied(PostedIn(e), id) == InSlot(s, id) + AsCount(served == Some(id))
  }

  lemma WaitersComplete(s: Session, clean: bool, id: Id)
    ensures Completions(Waiters(s, clean), id) == InSlot(s, id)
  {
    var sends := match s.pendingSend case None => [] case Some(id) => [SendDone(id, SendError)];
    var receives := match s.pendingReceive case None => [] case Some(id) => [ReceiveDone(id, if clean then CleanEnd else ReceiveError)];
    if s.pendingSend.Some? {
      OneEvent(sends[0], id);
    }
    if s.pendingReceive.Some? {
      OneEvent(receives[0], id);
    }
    EventsAppended(sends, receives, id);
  }

  /** A section that leaves the slots alone and completes the call it serves, or none. */
  lemma AnswerAccounted(s: Session, e: Effect, served: Option<Id>, id: Id)
    requires e.s.pendingReceive == s.pendingReceive && e.s.pendingSend == s.pendingSend && e.postsReady.None?
    requires if served.None? then e.events == [] else |e.events| == 1 && e.events[0].id == served.value
    ensures Accounted(s, e, served, id)
  {
    if e.events != [] {
      OneEvent(e.events[0], id);
      assert e.events == [e.events[0]];
    }
  }

  /** A section that takes every waiter out. */
  lemma WaitersAccounted(s: Session, e: Effect, t: Session, clean: bool, id: Id)
    requires t.pendingReceive == s.pendingReceive && t.pendingSend == s.pendingSend
    requires e.events == Waiters(t, clean) && e.s.pendingReceive == None && e.s.pendingSend == None && e.postsReady.None?
    ensures Accounted(s, e, None, id)
  {
    WaitersComplete(t, clean, id);
    hide Waiters;
  }

  /** A section that may complete the parked receive, and no other. */
  lemma ReceiverAccounted(s: Session, e: Effect, id: Id)
    requires e.s.pendingSend == s.pendingSend && e.postsReady.None?
    requires (e.events == [] && e.s.pendingReceive == s.pendingReceive) ||
             (|e.events| == 1 && s.pendingReceive == Some(e.events[0].id) && e.s.pendingReceive == None)
    ensures Accounted(s, e, None, id)
  {
    if e.events != [] {
      OneEvent(e.events[0], id);
      assert e.events == [e.events[0]];
    }
  }

  /** A section that completes the parked send if there is one. */
  lemma SenderAccounted(s: Session, e: Effect, result: SendResult, id: Id)
    requires e.s.pendingReceive == s.pendingReceive && e.postsReady.None?
    requires e.events == SendOf(s.pendingSend, result) && e.s.pendingSend == None
    ensures Accounted(s, e, None, id)
  {
    if s.pendingSend.Some? {
      OneEvent(e.events[0], id);
    }
  }

  lemma OnReadMessageAccounted(s: Session, binary: bool, bytes: Octets, id: Id)
    ensures Accounted(s, OnReadMessage(s, binary, bytes), None, id)
  {
    hide Accounted, Arrival, FailAndClose, Deliver;
    match Arrival(binary, bytes)
    case None => FailAndCloseAccounted(s, id);
    case Some(m) => DeliverAccounted(s, m, id);
  }

  lemma FailAndCloseAccounted(s: Session, id: Id)
    ensures Accounted(s, FailAndClose(s), None, id)
  {
    hide Accounted, Waiters;
    WaitersAccounted(s, FailAndClose(s), s, false, id);
  }

  lemma DeliverAccounted(s: Session, m: Message, id: Id)
    ensures Accounted(s, Deliver(s, m), None, id)
  {
    hide Accounted;
    if s.pendingReceive.Some? {
      ReceiverAccounted(s, Deliver(s, m), id);
    } else {
      AnswerAccounted(s, Deliver(s, m), None, id);
    }
  }

  lemma StartWriteAccounted(s: Session, id: Id)
    ensures Accounted(s, StartWrite(s), None, id)
  {
    hide Accounted;
    if s.failed || s.peerClosed || s.closeRequested {
      SenderAccounted(s, StartWrite(s), SendError, id);
    } else {
      AnswerAccounted(s, StartWrite(s), None, id);
    }
  }

  lemma OnWriteAccounted(s: Session, ec: Ending, id: Id)
    ensures Accounted(s, OnWrite(s, ec), None, id)
  {
    hide Accounted;
    SenderAccounted(s, OnWrite(s, ec), if ec != Success || s.writeError then SendError else Sent, id);
  }

  lemma OnCloseAccounted(s: Session, ec: Ending, id: Id)
    ensures Accounted(s, OnClose(s, ec), None, id)
  {
    hide Accounted, Waiters;
    var s2 := if s.Terminal() then s else if ec != Success then s.(failed := true) else s.(peerClosed := true);
    WaitersAccounted(s, OnClose(s, ec), s2, !s2.failed, id);
  }

  lemma ReceiveAsyncAccounted(s: Session, call: Id, timeout: Option<int>, id: Id)
    ensures Accounted(s, ReceiveAsync(s, call, timeout), Some(call), id)
  {
    hide Oldest, Accounted;
    var e := ReceiveAsync(s, call, timeout);
    if s.pendingReceive.Some? || s.blockedReceivers > 0 {
      AnswerAccounted(s, e, Some(call), id);
    } else if s.received != [] {
      OldestWire(s);
      OldestSend(s);
      ReadyAccounted(s, e, call, s.received[0], id);
    } else if s.peerClosed || s.failed || (timeout.Some? && timeout.value <= 0) {
      AnswerAccounted(s, e, Some(call), id);
    } else {
      ParkAccounted(s, call, id);
    }
  }

  lemma ReadyAccounted(s: Session, e: Effect, call: Id, m: Message, id: Id)
    requires e.s.pendingReceive == s.pendingReceive && e.s.pendingSend == s.pendingSend
    requires e.events == [] && e.postsReady == Some((call, m))
    ensures Accounted(s, e, Some(call), id)
  {
    OneReady((call, m), id);
  }

  lemma ParkAccounted(s: Session, call: Id, id: Id)
    requires s.pendingReceive.None?
    ensures Accounted(s, Park(s, call), Some(call), id)
  {
  }

  lemma OldestSend(s: Session)
    requires s.received != []
    ensures Oldest(s).s.pendingSend == s.pendingSend && Oldest(s).events == []
  {
  }

  lemma FinishReceiveAccounted(s: Session, s2: Session, call: Id, id: Id)
    requires s2.pendingReceive == s.pendingReceive && s2.pendingSend == s.pendingSend
    ensures Accounted(s, FinishReceive(s2, call), Some(call), id)
  {
    hide Accounted;
    if s2.received != [] {
      OldestWire(s2);
      OldestSend(s2);
    }
    hide Oldest;
    AnswerAccounted(s, FinishReceive(s2, call), Some(call), id);
  }

  lemma SendAsyncAccounted(s: Session, call: Id, id: Id)
    ensures Accounted(s, SendAsync(s, call), Some(call), id)
  {
    var e := SendAsync(s, call);
    if e.events != [] {
      AnswerAccounted(s, e, Some(call), id);
    }
  }

  lemma PumpReadAccounted(s: Session, id: Id)
    ensures Accounted(s, PumpRead(s), None, id)
  {
    hide Accounted;
    AnswerAccounted(s, PumpRead(s), None, id);
  }

  lemma OnReadErrorAccounted(s: Session, ec: Ending, id: Id)
    ensures Accounted(s, OnReadError(s, ec), None, id)
  {
    hide Accounted;
    AnswerAccounted(s, OnReadError(s, ec), None, id);
  }

  lemma RequestCloseAccounted(s: Session, id: Id)
    ensures Accounted(s, RequestClose(s), None, id)
  {
    hide Accounted;
    AnswerAccounted(s, RequestClose(s), None, id);
  }

  lemma RequestKickAccounted(s: Session, id: Id)
    ensures Accounted(s, RequestKick(s), None, id)
  {
    hide Accounted;
    AnswerAccounted(s, RequestKick(s), None, id);
  }

  lemma OnDeadlineAccounted(s: Session, generation: nat, id: Id)
    ensures Accounted(s, OnDeadline(s, generation), None, id)
  {
    hide Accounted;
    ReceiverAccounted(s, OnDeadline(s, generation), id);
  }

  lemma OnReadClosedAccounted(s: Session, id: Id)
    ensures Accounted(s, OnReadClosed(s), None, id)
  {
    hide Accounted, Waiters;
    WaitersAccounted(s, OnReadClosed(s), s, true, id);
  }

  lemma FailAccounted(s: Session, id: Id)
    ensures Accounted(s, Fail(s), None, id)
  {
    hide Accounted, Waiters;
    WaitersAccounted(s, Fail(s), s, false, id);
  }

  lemma BeginWriteAccounted(s: Session, call: Id, id: Id)
    ensures Accounted(s, BeginWrite(s, call), if BeginWrite(s, call).events == [] then None else Some(call), id)
  {
    hide Accounted;
    AnswerAccounted(s, BeginWrite(s, call), if BeginWrite(s, call).events == [] then None else Some(call), id);
  }

  lemma EndWriteAccounted(s: Session, call: Id, id: Id)
    ensures Accounted(s, EndWrite(s, call), Some(call), id)
  {
    hide Accounted;
    AnswerAccounted(s, EndWrite(s, call), Some(call), id);
  }

  /** The call a step's section serves: the one it makes, or the waiter it wakes; none if that one starts waiting. */
  function Served(w: World, step: Step): Option<Id>
    requires Enabled(w, step)
  {
    match step
    case RunReady(k) => Some(w.ready[k].0)
    case BlockingReceive(id, _) => if ReceiveReady(w.s) then Some(id) else None
    case ResumeReceive(id) => Some(id)
    case ReceiveDeadline(id) => Some(id)
    case AsyncReceive(id, _) => Some(id)
    case BlockingSend(id, m) => if Sendable(m) then None else Some(id)
    case TakeTurn => if Section(w, step).events == [] then None else Some(w.turn.id)
    case FinishTurn => Some(w.turn.id)
    case AsyncSend(id, _) => Some(id)
    case _ => None
  }

  lemma SectionAccounted(w: World, step: Step, id: Id)
    requires Enabled(w, step)
    ensures Accounted(w.s, Section(w, step), Served(w, step), id)
  {
    hide Accounted, PumpRead, OnReadClosed, OnReadError, Fail, OnReadMessage, StartWrite, OnWrite, RequestClose, RequestKick,
      OnClose, OnDeadline, FinishReceive, ReceiveAsync, BeginWrite, EndWrite, SendAsync, ReceiveReady, SendReady, Sendable;
    match step
    case RunPump => PumpReadAccounted(w.s, id);
    case ReadClosed => OnReadClosedAccounted(w.s, id);
    case ReadFailed(ec) => OnReadErrorAccounted(w.s, ec, id);
    case ReadMessage(binary, bytes) => OnReadMessageAccounted(w.s, binary, bytes, id);
    case RunWrite => StartWriteAccounted(w.s, id);
    case WriteDone(ec) => OnWriteAccounted(w.s, ec, id);
    case RunClose => RequestCloseAccounted(w.s, id);
    case RunKick => RequestKickAccounted(w.s, id);
    case CloseDone(ec) => OnCloseAccounted(w.s, ec, id);
    case DeadlineFires(g) => OnDeadlineAccounted(w.s, g, id);
    case Continue =>
      match w.strand {
        case Pump => PumpReadAccounted(w.s, id);
        case FailNext => FailAccounted(w.s, id);
        case _ => AnswerAccounted(w.s, Plain(w.s, []), None, id);
      }
    case BlockingReceive(call, _) =>
      if ReceiveReady(w.s) {
        FinishReceiveAccounted(w.s, w.s, call, id);
      } else {
        AnswerAccounted(w.s, Plain(Blocked(w.s, 1), []), None, id);
      }
    case ResumeReceive(call) => FinishReceiveAccounted(w.s, Blocked(w.s, -1), call, id);
    case ReceiveDeadline(call) =>
      if ReceiveReady(w.s) {
        FinishReceiveAccounted(w.s, Blocked(w.s, -1), call, id);
      } else {
        AnswerAccounted(w.s, Plain(Blocked(w.s, -1), [ReceiveDone(call, ReceiveTimeout)]), Some(call), id);
      }
    case AsyncReceive(call, timeout) => ReceiveAsyncAccounted(w.s, call, timeout, id);
    case TakeTurn => BeginWriteAccounted(w.s, w.turn.id, id);
    case FinishTurn => EndWriteAccounted(w.s, w.turn.id, id);
    case AsyncSend(call, m) =>
      if Sendable(m) {
        SendAsyncAccounted(w.s, call, id);
      } else {
        AnswerAccounted(w.s, Section(w, step), Some(call), id);
      }
    case Abort => FailAccounted(w.s, id);
    case _ => AnswerAccounted(w.s, Section(w, step), Served(w, step), id);
  }

  // ----- every call in one place -----

  function InTurn(t: Turn, id: Id): nat {
    AsCount(!t.Free? && t.id == id)
  }

  /** Where a call stands: completed, parked, posted, blocked in a receive, or blocked in the send turn. */
  function Places(w: World, id: Id): nat {
    Completions(w.events, id) + InSlot(w.s, id) + Readied(w.ready, id) + AsCount(id in w.receivers) + InTurn(w.turn, id)
  }

  /** A call made stands in exactly one place, once; a call never made in none. */
  ghost predicate Once(w: World, id: Id) {
    Places(w, id) == AsCount(id in w.issued)
  }

  ghost predicate OncePerCall(w: World) {
    forall id: Id :: Once(w, id)
  }

  /** What a step moves besides its section. */
  lemma Moves(w: World, step: Step, id: Id)
    requires Enabled(w, step) && (!w.turn.Free? ==> w.turn.id in w.issued) && (id in w.receivers ==> id in w.issued)
    ensures var w2, e := Next(w, step), Section(w, step);
            w2.events == w.events + e.events && w2.s == e.s &&
            w2.ready == (if step.RunReady? then w.ready[..step.k] + w.ready[step.k + 1..] else w.ready) + PostedIn(e)
    ensures step.RunReady? ==> Served(w, step) == Some(w.ready[step.k].0)
    ensures var w2 := Next(w, step);
            AsCount(id in w2.receivers) + InTurn(w2.turn, id) + AsCount(Served(w, step) == Some(id)) + AsCount(id in w.issued) ==
            AsCount(id in w.receivers) + InTurn(w.turn, id) + AsCount(id in w2.issued) + AsCount(step.RunReady? && w.ready[step.k].0 == id)
  {
    SectionBlocks(w, step);
    hide Section, Takes, Arrived, Sending, Sendable, Parked;
  }

  /** A blocking call goes on waiting exactly when its section completes nothing. */
  lemma SectionBlocks(w: World, step: Step)
    requires Enabled(w, step)
    ensures step.BlockingReceive? ==> (Section(w, step).events == [] <==> !ReceiveReady(w.s))
  {
  }

  lemma OnceKept(w: World, step: Step, id: Id)
    requires Enabled(w, step) && Once(w, id) && (!w.turn.Free? ==> w.turn.id in w.issued) && (id in w.receivers ==> id in w.issued)
    ensures Once(Next(w, step), id)
  {
    assert step.RunReady? ==> step.k < |w.ready|;
    hide AsCount, Completions, Readied, Posted, InSlot, InTurn, Section, Next, Served, Enabled, PostedIn;
    var w2, e := Next(w, step), Section(w, step);
    SectionAccounted(w, step, id);
    Moves(w, step, id);
    EventsAppended(w.events, e.events, id);
    ReadyAppended(Left(w, step), PostedIn(e), id);
    LeftTaken(w, step, id);
    hide Left;
  }

  /** The completions still posted when a step has taken its own. */
  function Left(w: World, step: Step): seq<(Id, Message)>
    requires Enabled(w, step)
  {
    if step.RunReady? then w.ready[..step.k] + w.ready[step.k + 1..] else w.ready
  }

  lemma LeftTaken(w: World, step: Step, id: Id)
    requires Enabled(w, step)
    ensures Readied(w.ready, id) == Readied(Left(w, step), id) + AsCount(step.RunReady? && w.ready[step.k].0 == id)
    ensures Next(w, step).ready == Left(w, step) + PostedIn(Section(w, step))
  {
    hide Readied, Section;
    if step.RunReady? {
      ReadyTaken(w.ready, step.k, id);
    }
  }

  lemma WaitersWereIssued(w: World)
    requires OncePerCall(w)
    ensures w.receivers.Keys <= w.issued && (!w.turn.Free? ==> w.turn.id in w.issued)
  {
    hide Completions, InSlot, Readied;
    forall id | id in w.receivers.Keys
      ensures id in w.issued
    {
      assert Once(w, id);
    }
    if !w.turn.Free? {
      assert Once(w, w.turn.id);
    }
  }

  // ----- deadlines -----

  /** An armed deadline bears an old generation, or that of the park it was armed for. */
  ghost predicate DeadlinesOk(w: World) {
    forall g: nat | g in w.deadlines :: DeadlineOk(w, g)
  }

  ghost predicate DeadlineOk(w: World, g: nat)
    requires g in w.deadlines
  {
    g <= w.s.generation && (g == w.s.generation && w.s.pendingReceive.Some? ==> w.s.pendingReceive.value == w.deadlines[g])
  }

  predicate NotParked(s: Session, e: Effect) {
    e.s.generation == s.generation && (e.s.pendingReceive == s.pendingReceive || e.s.pendingReceive == None)
  }

  lemma StrandGeneration(w: World, step: Step)
    requires Enabled(w, step) && OnStrand(step)
    ensures NotParked(w.s, Section(w, step))
  {
    hide PumpRead, OnReadClosed, OnReadError, Fail, OnReadMessage, StartWrite, OnWrite, RequestClose, RequestKick,
      OnClose, OnDeadline, FinishReceive, ReceiveAsync, BeginWrite, EndWrite, SendAsync, ReceiveReady, SendReady, Sendable;
  }

  lemma FacadeGeneration(w: World, step: Step)
    requires Enabled(w, step) && !OnStrand(step) && !step.AsyncReceive?
    ensures NotParked(w.s, Section(w, step))
  {
    hide Fail, FinishReceive, BeginWrite, EndWrite, SendAsync, ReceiveReady, SendReady, Sendable, Blocked;
    match step
    case BlockingReceive(id, _) =>
    case ResumeReceive(id) => assert NotParked(Blocked(w.s, -1), FinishReceive(Blocked(w.s, -1), id));
    case ReceiveDeadline(id) => assert NotParked(Blocked(w.s, -1), FinishReceive(Blocked(w.s, -1), id));
    case BlockingSend(_, _) =>
    case TakeTurn =>
    case FinishTurn =>
    case AsyncSend(_, _) =>
    case PostWrite =>
    case Abort =>
  }

  /** Only a park names a new generation; everything else leaves the slot alone or empties it. */
  lemma SectionGeneration(w: World, step: Step)
    requires Enabled(w, step)
    ensures var e := Section(w, step); if Parked(w, step, e) then e == Park(w.s, step.id) else NotParked(w.s, e)
  {
    if step.AsyncReceive? {
      assert Section(w, step) == ReceiveAsync(w.s, step.id, step.timeout);
      hide Section, ReceiveAsync;
    } else if OnStrand(step) {
      StrandGeneration(w, step);
      hide Section;
    } else {
      FacadeGeneration(w, step);
      hide Section;
    }
  }

  lemma DeadlinesKept(w: World, step: Step)
    requires Enabled(w, step) && DeadlinesOk(w)
    ensures DeadlinesOk(Next(w, step))
  {
    SectionGeneration(w, step);
    hide Section, Takes, Arrived, Sending, Sendable;
    var w2 := Next(w, step);
    forall g: nat | g in w2.deadlines
      ensures DeadlineOk(w2, g)
    {
      if g in w.deadlines {
        assert DeadlineOk(w, g);
      }
    }
  }

  // ----- the count that async receives consult -----

  ghost predicate CountOk(w: World) {
    w.s.blockedReceivers == |w.receivers|
  }

  lemma SectionCount(w: World, step: Step)
    requires Enabled(w, step)
    ensures Section(w, step).s.blockedReceivers ==
            match step {
              case BlockingReceive(_, _) => w.s.blockedReceivers + AsCount(!ReceiveReady(w.s))
              case ResumeReceive(_) => Blocked(w.s, -1).blockedReceivers
              case ReceiveDeadline(_) => Blocked(w.s, -1).blockedReceivers
              case _ => w.s.blockedReceivers
            }
  {
    hide PumpRead, OnReadClosed, OnReadError, Fail, OnReadMessage, StartWrite, OnWrite, RequestClose, RequestKick,
      OnClose, OnDeadline, FinishReceive, ReceiveAsync, BeginWrite, EndWrite, SendAsync, ReceiveReady, SendReady, Sendable;
  }

  lemma CountKept(w: World, step: Step)
    requires Enabled(w, step) && CountOk(w) && w.receivers.Keys <= w.issued
    ensures CountOk(Next(w, step))
  {
    SectionCount(w, step);
    SectionBlocks(w, step);
    hide Section, Takes, Arrived, Sending, Sendable, ReceiveReady;
    match step
    case BlockingReceive(id, timed) => assert |w.receivers[id := timed].Keys| == |w.receivers.Keys| + 1;
    case ResumeReceive(id) => assert (w.receivers - {id}).Keys == w.receivers.Keys - {id};
    case ReceiveDeadline(id) => assert (w.receivers - {id}).Keys == w.receivers.Keys - {id};
    case _ =>
  }

  // ----- the messages handed over -----

  /** What was taken off the queue or the wire is what receives completed with and what is posted to be. */
  ghost predicate HandedOk(w: World) {
    multiset(Gots(w.events)) + multiset(Posted(w.ready)) == multiset(w.taken)
  }

  lemma HandedKept(w: World, step: Step)
    requires Enabled(w, step) && HandedOk(w)
    ensures HandedOk(Next(w, step))
  {
    var e := Section(w, step);
    var left := if step.RunReady? then w.ready[..step.k] + w.ready[step.k + 1..] else w.ready;
    HandedMoves(w, step, left);
    EventsAppended(w.events, e.events, 0);
    ReadyAppended(left, PostedIn(e), 0);
    TakesPosted(e);
    if step.RunReady? {
      ReadyTaken(w.ready, step.k, 0);
    }
    hide Gots, Posted, Section, Next, Takes, PostedIn, Enabled;
    Balance(Gots(w.events), Posted(w.ready), w.taken, Gots(e.events), Posted(left), Posted(PostedIn(e)), Takes(e), step.RunReady?);
  }

  /** The bookkeeping of one step: what a posted completion hands over was taken before. */
  lemma Balance<T>(gots: seq<T>, posted: seq<T>, taken: seq<T>, got: seq<T>, left: seq<T>, post: seq<T>, takes: seq<T>, wasPosted: bool)
    requires multiset(gots) + multiset(posted) == multiset(taken) && takes == got + post
    requires if wasPosted then multiset(posted) == multiset(left) + multiset(takes) else posted == left
    ensures multiset(gots + got) + multiset(left + post) == multiset(taken + if wasPosted then [] else takes)
  {
    assert multiset(takes) == multiset(got) + multiset(post);
  }

  lemma TakesPosted(e: Effect)
    ensures Takes(e) == Gots(e.events) + Posted(PostedIn(e))
  {
    if e.postsReady.Some? {
      OneReady(e.postsReady.value, 0);
    }
  }

  lemma HandedMoves(w: World, step: Step, left: seq<(Id, Message)>)
    requires Enabled(w, step)
    requires left == if step.RunReady? then w.ready[..step.k] + w.ready[step.k + 1..] else w.ready
    ensures var w2, e := Next(w, step), Section(w, step);
            w2.events == w.events + e.events && w2.ready == left + PostedIn(e) &&
            w2.taken == w.taken + if step.RunReady? then [] else Takes(e)
    ensures step.RunReady? ==> Takes(Section(w, step)) == [w.ready[step.k].1]
  {
    if step.RunReady? {
      TakesOne(Section(w, step), w.ready[step.k].1);
    }
    hide Section, Takes, Sending, Sendable;
  }
}
