/** What holds in every reachable world of a WebSocket session, and where its code falls short of its comments. */
module WsSafety {
  import opened Common
  import opened FrameSpec
  import opened Crc32
  import opened WsSpec
  import opened WsRuns
  import opened WsCalls

  // ----- the pump is not lost -----

  /** On a live session exactly one place holds the right to read, and the pump pauses for a full queue only. */
  ghost predicate PumpOk(w: World) {
    Live(w.s) ==>
      w.readOps + w.postedPumps + AsCount(w.strand.ArmRead? || w.strand.Pump? || w.strand.FailNext?) + AsCount(w.s.readPaused) == 1 &&
      PausedOk(w.s)
  }

  lemma StrandPump(w: World, step: Step)
    requires Enabled(w, step) && OnStrand(step)
    ensures PumpLaw(w.s, Section(w, step), BringsRead(w, step) || step.ReadClosed? || step.ReadFailed?)
  {
    hide PumpRead, OnReadClosed, OnReadError, OnReadMessage, StartWrite, OnWrite, RequestClose, RequestKick, OnClose,
      OnDeadline, OffStrand, ParksNothing;
    if step.Continue? && w.strand.FailNext? {
      assert Section(w, step) == Fail(w.s);
    }
    hide Fail;
  }

  lemma FacadePump(w: World, step: Step)
    requires Enabled(w, step) && !OnStrand(step)
    ensures PumpLaw(w.s, Section(w, step), false)
  {
    hide FinishReceive, ReceiveAsync, BeginWrite, EndWrite, SendAsync, Fail, ReceiveReady, SendReady, Sendable, Blocked, ParksNothing, OffStrand;
    match step
    case BlockingReceive(id, _) =>
    case ResumeReceive(id) => assert PumpLaw(Blocked(w.s, -1), FinishReceive(Blocked(w.s, -1), id), false);
    case ReceiveDeadline(id) => assert PumpLaw(Blocked(w.s, -1), FinishReceive(Blocked(w.s, -1), id), false);
    case AsyncReceive(id, timeout) => assert PumpLaw(w.s, ReceiveAsync(w.s, id, timeout), false);
    case BlockingSend(_, _) =>
    case TakeTurn => assert PumpLaw(w.s, BeginWrite(w.s, w.turn.id), false);
    case FinishTurn => assert PumpLaw(w.s, EndWrite(w.s, w.turn.id), false);
    case AsyncSend(id, _) => assert PumpLaw(w.s, SendAsync(w.s, id), false);
    case PostWrite =>
    case Abort => assert PumpLaw(w.s, Fail(w.s), false);
  }

  lemma {:induction false} StepKeepsPump(w: World, step: Step)
    requires Enabled(w, step) && PumpOk(w) && ReadOk(w) && CloseOk(w)
    ensures PumpOk(Next(w, step))
  {
    if OnStrand(step) {
      StrandPump(w, step);
    } else {
      FacadePump(w, step);
      FacadeSection(w, step);
    }
    hide Section, Takes, Arrived, Sending, Sendable, Made;
  }

  // ----- the invariant -----

  ghost predicate Inv(w: World) {
    WireInv(w) && PumpOk(w) && OncePerCall(w) && DeadlinesOk(w) && CountOk(w) && HandedOk(w)
  }

  lemma {:induction false} StepKeepsInv(w: World, step: Step)
    requires Inv(w) && Enabled(w, step)
    ensures Inv(Next(w, step))
  {
    WaitersWereIssued(w);
    forall id: Id
      ensures Once(Next(w, step), id)
    {
      assert Once(w, id);
      OnceKept(w, step, id);
    }
    hide Next, Enabled, ReadOk, WriteOk, CloseOk, QueueOk, PumpOk, DeadlinesOk, CountOk, HandedOk, Once;
    StepKeepsRead(w, step);
    StepKeepsWrite(w, step);
    StepKeepsClose(w, step);
    StepKeepsQueue(w, step);
    StepKeepsPump(w, step);
    DeadlinesKept(w, step);
    CountKept(w, step);
    HandedKept(w, step);
  }

  /** A run from the start: each world follows from the one before by an enabled step. */
  ghost predicate IsRun(ws: seq<World>, steps: seq<Step>) {
    |ws| == |steps| + 1 && ws[0] == START &&
    forall i | 0 <= i < |steps| :: Enabled(ws[i], steps[i]) && ws[i + 1] == Next(ws[i], steps[i])
  }

  lemma StartReads()
    ensures ReadOk(START)
  {
  }

  lemma StartWrites()
    ensures WriteOk(START)
  {
  }

  lemma StartCloses()
    ensures CloseOk(START)
  {
  }

  lemma StartPump()
    ensures PumpOk(START)
  {
  }

  lemma StartQueue()
    ensures QueueOk(START)
  {
  }

  lemma StartCalls()
    ensures OncePerCall(START) && HandedOk(START) && CountOk(START) && DeadlinesOk(START)
  {
    forall id: Id
      ensures Once(START, id)
    {
    }
    assert HandedOk(START);
    assert CountOk(START);
    assert DeadlinesOk(START);
  }

  lemma StartInv()
    ensures Inv(START)
  {
    StartReads();
    StartWrites();
    StartCloses();
    StartPump();
    StartQueue();
    StartCalls();
    hide ReadOk, WriteOk, CloseOk, QueueOk, PumpOk, OncePerCall, HandedOk, CountOk, DeadlinesOk;
  }

  /** Every reachable world satisfies the invariant, whatever the interleaving. */
  lemma {:induction false} RunsKeepInv(ws: seq<World>, steps: seq<Step>, i: nat)
    requires IsRun(ws, steps) && i < |ws|
    ensures Inv(ws[i])
  {
    hide Inv;
    if i == 0 {
      StartInv();
    } else {
      RunsKeepInv(ws, steps, i - 1);
      hide Next;
      StepKeepsInv(ws[i - 1], steps[i - 1]);
    }
  }

  /**
   * The wire in every reachable world: at most one read, at most one of message write and close, the close started
   * at most once, and no read being armed once it started.
   */
  lemma {:induction false} OneOfEach(ws: seq<World>, steps: seq<Step>, i: nat)
    requires IsRun(ws, steps) && i < |ws|
    ensures var w := ws[i]; w.readOps <= 1 && w.writeOps + w.closeOps <= 1 && w.closesEver <= 1
    ensures ws[i].strand.ArmRead? ==> ws[i].closesEver == 0
    ensures ws[i].strand.ArmWrite? || ws[i].strand.ArmClose? ==> ws[i].writeOps + ws[i].closeOps == 0
  {
    RunsKeepInv(ws, steps, i);
    hide IsRun, QueueOk, PumpOk, OncePerCall, DeadlinesOk, CountOk, HandedOk;
  }

  /**
   * The messages in every reachable world: taken off the session in wire order, never more than eight queued, and each
   * one queued, posted to a receive or handed to one, exactly once. In which order completions run is another matter.
   */
  lemma {:induction false} TakenInOrder(ws: seq<World>, steps: seq<Step>, i: nat)
    requires IsRun(ws, steps) && i < |ws|
    ensures var w := ws[i]; w.arrived == w.taken + w.s.received && |w.s.received| <= QUEUE_DEPTH
    ensures var w := ws[i]; multiset(Gots(w.events)) + multiset(Posted(w.ready)) + multiset(w.s.received) == multiset(w.arrived)
    ensures ws[i].s.pendingReceive.Some? ==> ws[i].s.received == []
  {
    RunsKeepInv(ws, steps, i);
    hide IsRun, ReadOk, WriteOk, CloseOk, PumpOk, OncePerCall, DeadlinesOk, CountOk, Gots, Posted;
  }

  /** A call never ends twice, and only calls that were made end. */
  lemma {:induction false} AtMostOnce(ws: seq<World>, steps: seq<Step>, i: nat, id: Id)
    requires IsRun(ws, steps) && i < |ws|
    ensures Completions(ws[i].events, id) <= if id in ws[i].issued then 1 else 0
  {
    RunsKeepInv(ws, steps, i);
    hide IsRun, ReadOk, WriteOk, CloseOk, QueueOk, PumpOk, DeadlinesOk, CountOk, HandedOk, Completions, InSlot, Readied;
    assert Once(ws[i], id);
  }

  /** A deadline completes at most the receive it was armed for, and takes no message. */
  lemma {:induction false} DeadlineHitsItsOwn(w: World, g: nat)
    requires Inv(w) && Enabled(w, DeadlineFires(g))
    ensures var e := Section(w, DeadlineFires(g));
            (e.events == [] || e.events == [ReceiveDone(w.deadlines[g], ReceiveTimeout)]) && e.s.received == w.s.received
  {
    hide ReadOk, WriteOk, CloseOk, QueueOk, PumpOk, OncePerCall, CountOk, HandedOk;
    assert DeadlineOk(w, g);
  }

  // ----- the end of the stream -----

  lemma StrandEnds(w: World, step: Step)
    requires Enabled(w, step) && OnStrand(step)
    ensures EndLaw(w.s, Section(w, step))
  {
    hide PumpRead, OnReadClosed, OnReadError, OnReadMessage, StartWrite, OnWrite, RequestClose, RequestKick, OnClose,
      OnDeadline, OffStrand, ParksNothing, PumpLaw;
    if step.Continue? && w.strand.FailNext? {
      assert Section(w, step) == Fail(w.s);
    }
    hide Fail;
  }

  lemma FacadeEnds(w: World, step: Step)
    requires Enabled(w, step) && !OnStrand(step)
    ensures EndLaw(w.s, Section(w, step))
  {
    hide FinishReceive, ReceiveAsync, BeginWrite, EndWrite, SendAsync, Fail, ReceiveReady, SendReady, Sendable, Blocked, ParksNothing,
      OffStrand, PumpLaw;
    match step
    case BlockingReceive(id, _) =>
    case ResumeReceive(id) => assert EndLaw(Blocked(w.s, -1), FinishReceive(Blocked(w.s, -1), id));
    case ReceiveDeadline(id) => assert EndLaw(Blocked(w.s, -1), FinishReceive(Blocked(w.s, -1), id));
    case AsyncReceive(id, timeout) => assert EndLaw(w.s, ReceiveAsync(w.s, id, timeout));
    case BlockingSend(_, _) =>
    case TakeTurn => assert EndLaw(w.s, BeginWrite(w.s, w.turn.id));
    case FinishTurn => assert EndLaw(w.s, EndWrite(w.s, w.turn.id));
    case AsyncSend(id, _) => assert EndLaw(w.s, SendAsync(w.s, id));
    case PostWrite =>
    case Abort => assert EndLaw(w.s, Fail(w.s));
  }

  /** A receive reports the end, clean or not, only when every message that arrived has been taken. */
  lemma {:induction false} EndMeansDrained(w: World, step: Step, ev: Event)
    requires Inv(w) && Enabled(w, step) && ev in Section(w, step).events && EndsStream(ev)
    ensures Next(w, step).arrived == Next(w, step).taken
  {
    if OnStrand(step) {
      StrandEnds(w, step);
    } else {
      FacadeEnds(w, step);
    }
    StepKeepsInv(w, step);
    assert Next(w, step).s == Section(w, step).s;
    assert Next(w, step).taken + [] == Next(w, step).taken;
    hide Section, Next, Enabled, ReadOk, WriteOk, CloseOk, PumpOk, OncePerCall, DeadlinesOk, CountOk, HandedOk, EndsStream;
  }

  // ----- where the code falls short -----

  lemma StrandFlags(w: World, step: Step)
    requires Enabled(w, step) && OnStrand(step)
    ensures step.WriteDone? || step.ReadClosed? || FlagLaw(w.s, Section(w, step))
  {
    hide PumpRead, OnReadClosed, OnReadError, OnReadMessage, StartWrite, OnWrite, RequestClose, RequestKick, OnClose,
      OnDeadline, OffStrand, ParksNothing, PumpLaw, EndLaw;
    if step.Continue? && w.strand.FailNext? {
      assert Section(w, step) == Fail(w.s);
    }
    hide Fail;
  }

  lemma FacadeFlags(w: World, step: Step)
    requires Enabled(w, step) && !OnStrand(step)
    ensures FlagLaw(w.s, Section(w, step))
  {
    hide FinishReceive, ReceiveAsync, BeginWrite, EndWrite, SendAsync, Fail, ReceiveReady, SendReady, Sendable, Blocked, ParksNothing,
      OffStrand, PumpLaw, EndLaw;
    match step
    case BlockingReceive(id, _) =>
    case ResumeReceive(id) => assert FlagLaw(Blocked(w.s, -1), FinishReceive(Blocked(w.s, -1), id));
    case ReceiveDeadline(id) => assert FlagLaw(Blocked(w.s, -1), FinishReceive(Blocked(w.s, -1), id));
    case AsyncReceive(id, timeout) => assert FlagLaw(w.s, ReceiveAsync(w.s, id, timeout));
    case BlockingSend(_, _) =>
    case TakeTurn => assert FlagLaw(w.s, BeginWrite(w.s, w.turn.id));
    case FinishTurn => assert FlagLaw(w.s, EndWrite(w.s, w.turn.id));
    case AsyncSend(id, _) => assert FlagLaw(w.s, SendAsync(w.s, id));
    case PostWrite =>
    case Abort => assert FlagLaw(w.s, Fail(w.s));
  }

  lemma SectionFlags(w: World, step: Step)
    requires Enabled(w, step)
    ensures Next(w, step).s == Section(w, step).s
    ensures step.WriteDone? || step.ReadClosed? || FlagLaw(w.s, Section(w, step))
  {
    if OnStrand(step) {
      StrandFlags(w, step);
    } else {
      FacadeFlags(w, step);
    }
    hide Section;
  }

  /**
   * The comment on the slots says every terminal transition takes both. A failed write does not: it is the one step
   * that leaves a receive parked on an ended session, and it does so exactly when one is parked.
   */
  lemma {:induction false} FailedWriteStrands(w: World, step: Step)
    requires Enabled(w, step) && !Stranded(w.s)
    ensures Stranded(Next(w, step).s) <==> step.WriteDone? && step.ec != Success && w.s.pendingReceive.Some?
  {
    SectionFlags(w, step);
    hide Next, Waiters, SendOf;
    if !step.WriteDone? && !step.ReadClosed? {
      hide Section;
    }
  }

  lemma ReadClosedFlags(s: Session)
    ensures OnReadClosed(s).s.peerClosed && OnReadClosed(s).s.failed == s.failed
  {
    hide Waiters, PumpLaw, EndLaw, FlagLaw, ParksNothing, OneMessage, NoneSent;
  }

  lemma OnWriteFlags(s: Session, ec: Ending)
    requires !(s.failed && s.peerClosed)
    ensures !(OnWrite(s, ec).s.failed && OnWrite(s, ec).s.peerClosed)
  {
    hide SendOf, PumpLaw, EndLaw, FlagLaw, ParksNothing, OneMessage, NoneSent;
  }

  /** The two endings are not exclusive: a close frame read after a failure adds the second, and nothing else does. */
  lemma {:induction false} BothFlags(w: World, step: Step)
    requires Enabled(w, step) && !(w.s.failed && w.s.peerClosed)
    ensures Next(w, step).s.failed && Next(w, step).s.peerClosed <==> step.ReadClosed? && w.s.failed
  {
    SectionFlags(w, step);
    hide Next, OnReadClosed, OnWrite;
    if step.WriteDone? {
      OnWriteFlags(w.s, step.ec);
    } else if step.ReadClosed? {
      ReadClosedFlags(w.s);
    } else {
      hide Section;
    }
  }

  // ----- a receive that only Abort can end -----

  /** A stranded receive that nothing outstanding can reach any more. */
  predicate Stuck(w: World) {
    w.s.failed && w.s.pendingReceive.Some? && w.readOps == 0 && w.writeOps == 0 && w.closeOps == 0 && w.strand.Nothing? &&
    w.s.generation !in w.deadlines
  }

  predicate LeavesStuck(s: Session, e: Effect) {
    e.s.failed && e.s.pendingReceive == s.pendingReceive && e.s.generation == s.generation && e.then_.Nothing? &&
    (e.events == [] ==> e.postsReady.None?)
  }

  lemma StuckStrand(s: Session)
    requires s.failed && s.pendingReceive.Some?
    ensures LeavesStuck(s, PumpRead(s)) && LeavesStuck(s, StartWrite(s))
    ensures LeavesStuck(s, RequestClose(s)) && LeavesStuck(s, RequestKick(s))
  {
    hide SendOf, PumpLaw, EndLaw, FlagLaw;
  }

  lemma StuckCalls(s: Session, id: Id, timeout: Option<int>)
    requires s.failed && s.pendingReceive.Some?
    ensures LeavesStuck(s, ReceiveAsync(s, id, timeout)) && ReceiveAsync(s, id, timeout).events != []
    ensures LeavesStuck(s, FinishReceive(s, id)) && LeavesStuck(s, BeginWrite(s, id))
    ensures LeavesStuck(s, EndWrite(s, id)) && LeavesStuck(s, SendAsync(s, id))
  {
    hide Oldest, Park, PumpLaw, EndLaw, FlagLaw;
  }

  lemma StuckSection(w: World, step: Step)
    requires Stuck(w) && Enabled(w, step) && !step.Abort?
    ensures LeavesStuck(w.s, Section(w, step)) && !Parked(w, step, Section(w, step))
  {
    hide PumpRead, StartWrite, RequestClose, RequestKick, FinishReceive, ReceiveAsync, BeginWrite, EndWrite, SendAsync, PumpLaw,
      EndLaw, FlagLaw, OffStrand, ParksNothing, Blocked, ReceiveReady, SendReady, Sendable, OnReadMessage, OnWrite, OnClose, OnReadClosed,
      OnReadError;
    StuckStrand(w.s);
    match step
    case BlockingReceive(id, _) => StuckCalls(w.s, id, None);
    case ResumeReceive(id) => StuckCalls(Blocked(w.s, -1), id, None);
    case ReceiveDeadline(id) => StuckCalls(Blocked(w.s, -1), id, None);
    case AsyncReceive(id, timeout) => StuckCalls(w.s, id, timeout);
    case TakeTurn => StuckCalls(w.s, w.turn.id, None);
    case FinishTurn => StuckCalls(w.s, w.turn.id, None);
    case AsyncSend(id, _) => StuckCalls(w.s, id, None);
    case _ =>
  }

  /** No step but Abort ever completes such a receive: no blocking call, no close, no deadline, nothing on the wire. */
  lemma {:induction false} OnlyAbortUnsticks(w: World, step: Step)
    requires Stuck(w) && Enabled(w, step)
    ensures step.Abort? <==> !Stuck(Next(w, step)) || Next(w, step).s.pendingReceive != w.s.pendingReceive
  {
    if step.Abort? {
      hide Waiters;
    } else {
      StuckSection(w, step);
      hide Section, Takes, Arrived, Sending, Sendable;
    }
  }

  const EMPTY: Message := Message([], [])

  lemma EmptyIsSendable()
    ensures Sendable(EMPTY)
  {
  }

  const STRANDING: seq<Step> :=
    [RunPump, Continue, AsyncReceive(0, None), AsyncSend(1, EMPTY), PostWrite, RunWrite, Continue, RunClose,
     ReadFailed(Aborted), WriteDone(Aborted)]

  /** The fields along that run. */
  function StrandingSession(i: nat): Session {
    var parked := Initial().(pendingReceive := Some(0), generation := 1);
    var sending := parked.(pendingSend := Some(1), writeComplete := false);
    if i < 3 then Initial()
    else if i < 4 then parked
    else if i < 6 then sending
    else if i < 8 then sending.(wireWriteBusy := true)
    else if i < 10 then sending.(wireWriteBusy := true, closeRequested := true)
    else parked.(failed := true, writeError := true, closeRequested := true)
  }

  function StrandingWorld(i: nat): World {
    START.(s := StrandingSession(i), strand := if i == 1 then ArmRead else if i == 6 then ArmWrite else Nothing,
           postedPumps := if i == 0 then 1 else 0, readOps := if 2 <= i < 9 then 1 else 0,
           writesDue := if i == 4 then 1 else 0, postedWrites := if i == 5 then 1 else 0,
           writeOps := if 7 <= i < 10 then 1 else 0, issued := if i < 3 then {} else if i < 4 then {0} else {0, 1},
           events := if i < 10 then [] else [SendDone(1, SendError)],
           outgoing := Outgoing(if i < 4 then map[] else map[1 := EMPTY], if i < 4 then None else Some(1),
                                if i < 10 then map[] else map[1 := false], if i < 6 then [] else [1]))
  }

  lemma StrandingArms(i: nat)
    requires 0 <= i < 2
    ensures Enabled(StrandingWorld(i), STRANDING[i]) && Next(StrandingWorld(i), STRANDING[i]) == StrandingWorld(i + 1)
  {
    EmptyIsSendable();
    hide PumpLaw, EndLaw, FlagLaw, ParksNothing, OffStrand, OneMessage, NoneSent, Sendable;
    TakesNothing(Section(StrandingWorld(i), STRANDING[i]));
    hide Takes, Gots;
  }

  lemma StrandingParks(i: nat)
    requires 2 <= i < 4
    ensures Enabled(StrandingWorld(i), STRANDING[i]) && Next(StrandingWorld(i), STRANDING[i]) == StrandingWorld(i + 1)
  {
    EmptyIsSendable();
    hide PumpLaw, EndLaw, FlagLaw, ParksNothing, OffStrand, OneMessage, NoneSent, Sendable;
    TakesNothing(Section(StrandingWorld(i), STRANDING[i]));
    hide Takes, Gots;
  }

  lemma StrandingPosts(i: nat)
    requires 4 <= i < 6
    ensures Enabled(StrandingWorld(i), STRANDING[i]) && Next(StrandingWorld(i), STRANDING[i]) == StrandingWorld(i + 1)
  {
    EmptyIsSendable();
    hide PumpLaw, EndLaw, FlagLaw, ParksNothing, OffStrand, OneMessage, NoneSent, Sendable;
    TakesNothing(Section(StrandingWorld(i), STRANDING[i]));
    hide Takes, Gots;
  }

  lemma StrandingWrites(i: nat)
    requires 6 <= i < 8
    ensures Enabled(StrandingWorld(i), STRANDING[i]) && Next(StrandingWorld(i), STRANDING[i]) == StrandingWorld(i + 1)
  {
    EmptyIsSendable();
    hide PumpLaw, EndLaw, FlagLaw, ParksNothing, OffStrand, OneMessage, NoneSent, Sendable;
    TakesNothing(Section(StrandingWorld(i), STRANDING[i]));
    hide Takes, Gots;
  }

  lemma StrandingEnds(i: nat)
    requires 8 <= i < 10
    ensures Enabled(StrandingWorld(i), STRANDING[i]) && Next(StrandingWorld(i), STRANDING[i]) == StrandingWorld(i + 1)
  {
    EmptyIsSendable();
    hide PumpLaw, EndLaw, FlagLaw, ParksNothing, OffStrand, OneMessage, NoneSent, Sendable;
    TakesNothing(Section(StrandingWorld(i), STRANDING[i]));
    hide Takes, Gots;
  }

  /**
   * Such a world is reached: a send is in flight and a receive parked when Close comes; the cancelled read is
   * swallowed, and the cancelled write ends the session without the receive.
   */
  lemma {:induction false} CloseStrands() returns (ws: seq<World>)
    ensures IsRun(ws, STRANDING) && Stuck(ws[|STRANDING|])
  {
    ws := seq(|STRANDING| + 1, i requires 0 <= i <= |STRANDING| => StrandingWorld(i));
    forall i | 0 <= i < |STRANDING|
      ensures Enabled(ws[i], STRANDING[i]) && ws[i + 1] == Next(ws[i], STRANDING[i])
    {
      if i < 2 {
        StrandingArms(i);
      } else if i < 4 {
        StrandingParks(i);
      } else if i < 6 {
        StrandingPosts(i);
      } else if i < 8 {
        StrandingWrites(i);
      } else {
        StrandingEnds(i);
      }
      hide Enabled, Next, StrandingWorld;
    }
    hide Enabled, Next;
  }
}
