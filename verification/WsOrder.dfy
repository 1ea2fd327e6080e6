/** In which order messages reach the application: when it is the wire's, and the run in which it is not. */
module WsOrder {
  import opened Common
  import opened FrameSpec
  import opened Crc32
  import opened WsSpec
  import opened WsRuns
  import opened WsCalls
  import opened WsSafety
  import FrameProps

  /** What receives completed with, then what is posted to them, is what was taken off the wire, in that order. */
  ghost predicate Ordered(w: World) {
    Gots(w.events) + Posted(w.ready) == w.taken
  }

  // ----- exactly which steps break the order -----

  /** The message a step completes a receive with, if it does. */
  function HandsOver(w: World, step: Step): seq<Message>
    requires Enabled(w, step)
  {
    Gots(Section(w, step).events)
  }

  /** The messages posted earlier, whose completions have still to run. */
  function Waiting(w: World, step: Step): seq<Message>
    requires Enabled(w, step)
  {
    if step.RunReady? then Posted(w.ready[..step.k]) else Posted(w.ready)
  }

  /** The step completes a receive with a message while an earlier, different one is still posted. */
  ghost predicate Overtakes(w: World, step: Step)
    requires Enabled(w, step)
  {
    exists m, n | m in HandsOver(w, step) && n in Waiting(w, step) :: m != n
  }

  lemma {:induction false} Commutes<T>(x: T, s: seq<T>)
    ensures [x] + s == s + [x] <==> forall y | y in s :: y == x
  {
    if s != [] {
      var l := [x] + s;
      var r := s + [x];
      if l == r {
        assert l[0] == r[0] && s[0] == x;
        assert l[1..] == s && r[1..] == s[1..] + [x];
        assert s == [s[0]] + s[1..];
        Commutes(x, s[1..]);
        forall y | y in s
          ensures y == x
        {
        }
      }
      if forall y | y in s :: y == x {
        forall i | 0 <= i < |l|
          ensures l[i] == r[i]
        {
          assert i == 0 || l[i] == s[i - 1];
          assert i == |s| || r[i] == s[i];
          assert i > 0 ==> s[i - 1] in s;
          assert i < |s| ==> s[i] in s;
        }
      }
    }
  }

  lemma Swap<T>(a: seq<T>, g: seq<T>, p: seq<T>, b: seq<T>)
    ensures a + g + p + b == a + p + g + b <==> g + p == p + g
  {
    assert a + g + p + b == a + (g + p) + b && a + p + g + b == a + (p + g) + b;
    Cut(a, g + p, b);
    Cut(a, p + g, b);
  }

  lemma Cut<T>(a: seq<T>, x: seq<T>, b: seq<T>)
    ensures (a + x + b)[|a|..|a| + |x|] == x
  {
  }

  // ----- what a section may hand over -----

  lemma StrandHands(w: World, step: Step)
    requires Enabled(w, step) && OnStrand(step) && !step.RunReady?
    ensures OneMessage(Section(w, step), w.s.pendingReceive.Some?)
  {
    hide PumpRead, OnReadClosed, OnReadError, OnReadMessage, StartWrite, OnWrite, RequestClose, RequestKick, OnClose,
      OnDeadline, OffStrand, ParksNothing, PumpLaw, EndLaw, FlagLaw, NoneSent;
    if step.Continue? && w.strand.FailNext? {
      assert Section(w, step) == Fail(w.s);
    }
    hide Fail;
  }

  lemma FacadeHands(w: World, step: Step)
    requires Enabled(w, step) && !OnStrand(step)
    ensures OneMessage(Section(w, step), step.BlockingReceive? || step.ResumeReceive? || step.ReceiveDeadline?)
  {
    hide FinishReceive, ReceiveAsync, BeginWrite, EndWrite, SendAsync, Fail, ReceiveReady, SendReady, Sendable, Blocked, ParksNothing,
      OffStrand, PumpLaw, EndLaw, FlagLaw, NoneSent;
    match step
    case TakeTurn => assert OneMessage(BeginWrite(w.s, w.turn.id), false);
    case FinishTurn => assert OneMessage(EndWrite(w.s, w.turn.id), false);
    case AsyncReceive(id, timeout) => assert OneMessage(ReceiveAsync(w.s, id, timeout), false);
    case ResumeReceive(id) => assert OneMessage(FinishReceive(Blocked(w.s, -1), id), true);
    case ReceiveDeadline(id) => assert OneMessage(FinishReceive(Blocked(w.s, -1), id), true);
    case Abort => assert OneMessage(Fail(w.s), false);
    case _ =>
  }

  /** The receive calls and their resumptions may take a message; otherwise only a parked receive is handed one. */
  predicate MayHand(w: World, step: Step) {
    step.RunReady? || step.BlockingReceive? || step.ResumeReceive? || step.ReceiveDeadline? || (OnStrand(step) && w.s.pendingReceive.Some?)
  }

  lemma {:induction false} NoGots(events: seq<Event>)
    requires forall ev | ev in events :: !HandsOverMessage(ev)
    ensures Gots(events) == []
  {
    if events != [] {
      NoGots(events[..|events| - 1]);
      assert events[|events| - 1] in events;
    }
  }

  lemma SectionHands(w: World, step: Step)
    requires Enabled(w, step)
    ensures |HandsOver(w, step)| <= 1 && (!MayHand(w, step) ==> HandsOver(w, step) == [])
  {
    var e := Section(w, step);
    if step.RunReady? {
      GotsOne(e.events[0]);
      assert e.events == [e.events[0]];
    } else {
      if OnStrand(step) {
        StrandHands(w, step);
      } else {
        FacadeHands(w, step);
      }
      hide Section;
      if forall ev | ev in e.events :: !HandsOverMessage(ev) {
        NoGots(e.events);
      } else {
        assert |e.events| == 1;
        GotsOne(e.events[0]);
        assert e.events == [e.events[0]];
      }
    }
  }

  // ----- the exact condition, step by step -----

  lemma CallMoves(w: World, step: Step)
    requires Enabled(w, step) && !step.RunReady?
    ensures var w2 := Next(w, step); var g, p := HandsOver(w, step), Posted(PostedIn(Section(w, step)));
            Gots(w2.events) == Gots(w.events) + g && Posted(w2.ready) == Posted(w.ready) + p && w2.taken == w.taken + (g + p)
  {
    var e := Section(w, step);
    HandedMoves(w, step, w.ready);
    EventsAppended(w.events, e.events, 0);
    ReadyAppended(w.ready, PostedIn(e), 0);
    TakesPosted(e);
    hide Gots, Posted, Section, Next, Takes, PostedIn, Enabled;
  }

  lemma ReadyMoves(w: World, step: Step)
    requires Enabled(w, step) && step.RunReady?
    ensures var w2 := Next(w, step); var g, a, c := HandsOver(w, step), Posted(w.ready[..step.k]), Posted(w.ready[step.k + 1..]);
            Gots(w2.events) == Gots(w.events) + g && Posted(w2.ready) == a + c && w2.taken == w.taken && Posted(w.ready) == a + g + c
  {
    var e := Section(w, step);
    var a, x, c := w.ready[..step.k], w.ready[step.k], w.ready[step.k + 1..];
    HandedMoves(w, step, a + c);
    ReadySection(w, step);
    TakesPosted(e);
    assert PostedIn(e) == [] && Posted([]) == [] && Gots(e.events) + [] == Gots(e.events) && a + c + [] == a + c;
    EventsAppended(w.events, e.events, 0);
    assert w.ready == a + [x] + c;
    ReadyAppended(a + [x], c, 0);
    ReadyAppended(a, [x], 0);
    ReadyAppended(a, c, 0);
    OneReady(x, 0);
    hide Gots, Posted, Section, Next, Takes, PostedIn, Enabled;
    assert w.taken + [] == w.taken;
  }

  lemma Alone<T>(g: seq<T>, p: seq<T>)
    requires |g| <= 1
    ensures g + p == p + g <==> !exists m, n | m in g && n in p :: m != n
  {
    if g == [] {
      assert g + p == p && p + g == p;
    } else {
      var x := g[0];
      assert g == [x] && x in g;
      Commutes(x, p);
      if m, n :| m in g && n in p && m != n {
        assert m == x;
      }
    }
  }

  lemma CallOrder<T>(g0: seq<T>, p0: seq<T>, g: seq<T>, p: seq<T>, taken: seq<T>)
    requires g0 + p0 == taken
    ensures (g0 + g) + (p0 + p) == taken + (g + p) <==> g + p0 == p0 + g
  {
    Swap(g0, g, p0, p);
    assert (g0 + g) + (p0 + p) == g0 + g + p0 + p && g0 + p0 + (g + p) == g0 + p0 + g + p;
  }

  lemma ReadyOrder<T>(g0: seq<T>, a: seq<T>, g: seq<T>, c: seq<T>, taken: seq<T>)
    requires g0 + (a + g + c) == taken
    ensures (g0 + g) + (a + c) == taken <==> g + a == a + g
  {
    Swap(g0, g, a, c);
    assert (g0 + g) + (a + c) == g0 + g + a + c && g0 + (a + g + c) == g0 + a + g + c;
  }

  /** A step breaks the order exactly when it completes a receive ahead of an earlier, different posted message. */
  lemma {:induction false} OrderBreaks(w: World, step: Step)
    requires Enabled(w, step) && Ordered(w)
    ensures Ordered(Next(w, step)) <==> !Overtakes(w, step)
  {
    SectionHands(w, step);
    var g := HandsOver(w, step);
    Alone(g, Waiting(w, step));
    if step.RunReady? {
      ReadyMoves(w, step);
      hide Gots, Posted, Section, Next, HandsOver, Enabled;
      ReadyOrder(Gots(w.events), Posted(w.ready[..step.k]), g, Posted(w.ready[step.k + 1..]), w.taken);
    } else {
      CallMoves(w, step);
      hide Gots, Posted, Section, Next, HandsOver, Enabled;
      CallOrder(Gots(w.events), Posted(w.ready), g, Posted(PostedIn(Section(w, step))), w.taken);
    }
  }

  // ----- a discipline that keeps it -----

  /** While a completion is posted no other receive is made: the one-outstanding-receive contract, completions included. */
  predicate OneAtATime(w: World, step: Step) {
    w.ready != [] ==> !step.BlockingReceive? && !step.AsyncReceive?
  }

  ghost predicate OrderOk(w: World) {
    Ordered(w) && |w.ready| <= 1 && (w.ready != [] ==> w.receivers == map[] && w.s.pendingReceive.None?)
  }

  /** A section posts a completion for an asynchronous receive with no other receive about. */
  lemma PostsAlone(w: World, step: Step)
    requires Enabled(w, step) && CountOk(w)
    ensures Section(w, step).postsReady.Some? ==> step.AsyncReceive? && w.s.pendingReceive.None? && w.receivers == map[]
  {
    hide PumpRead, OnReadClosed, OnReadError, Fail, OnReadMessage, StartWrite, OnWrite, RequestClose, RequestKick,
      OnClose, OnDeadline, FinishReceive, ReceiveAsync, BeginWrite, EndWrite, SendAsync, ReceiveReady, SendReady, Sendable, Blocked,
      ParksNothing, OffStrand, PumpLaw, EndLaw, FlagLaw, OneMessage, NoneSent;
    assert |w.receivers| == 0 ==> w.receivers == map[];
  }

  /** With a completion posted and no other receive about, nothing but that completion hands a message over. */
  lemma QuietHands(w: World, step: Step)
    requires Enabled(w, step) && OrderOk(w) && OneAtATime(w, step)
    ensures !Overtakes(w, step)
  {
    SectionHands(w, step);
    if w.ready != [] {
      if step.RunReady? {
        assert step.k == 0 && w.ready[..0] == [];
        assert Posted([]) == [];
      } else {
        NoResume(w, step);
        assert HandsOver(w, step) == [];
      }
    } else {
      assert Waiting(w, step) == [] by {
        assert Posted([]) == [];
      }
    }
    hide Gots, Posted, Section;
  }

  lemma NoResume(w: World, step: Step)
    requires Enabled(w, step) && w.receivers == map[]
    ensures !step.ResumeReceive? && !step.ReceiveDeadline?
  {
  }

  lemma {:induction false} StepKeepsOrder(w: World, step: Step)
    requires CountOk(w) && Enabled(w, step) && OrderOk(w) && OneAtATime(w, step)
    ensures OrderOk(Next(w, step))
  {
    QuietHands(w, step);
    OrderBreaks(w, step);
    PostsAlone(w, step);
    SlotAfter(w, step);
    ReadyAfter(w, step);
    hide Ordered, Section, Next, Overtakes, Enabled;
  }

  /** How the posted completions and the waiting receivers move. */
  lemma ReadyAfter(w: World, step: Step)
    requires Enabled(w, step)
    ensures |Next(w, step).ready| == |w.ready| - AsCount(step.RunReady?) + AsCount(Section(w, step).postsReady.Some?)
    ensures !step.BlockingReceive? && w.receivers == map[] ==> Next(w, step).receivers == map[]
    ensures Next(w, step).s == Section(w, step).s
  {
    hide Section, Takes, Arrived, Parked, Sending, Sendable;
  }

  /** A posted completion leaves the slot empty, and only an asynchronous receive fills it. */
  lemma SlotAfter(w: World, step: Step)
    requires Enabled(w, step)
    ensures !step.AsyncReceive? && w.s.pendingReceive.None? ==> Section(w, step).s.pendingReceive.None?
    ensures Section(w, step).postsReady.Some? ==> Section(w, step).s.pendingReceive.None?
  {
    SectionGeneration(w, step);
    if step.AsyncReceive? {
      assert Section(w, step) == ReceiveAsync(w.s, step.id, step.timeout);
      hide ReceiveAsync;
    } else {
      PostsNothing(w, step);
    }
    hide Section;
  }

  lemma PostsNothing(w: World, step: Step)
    requires Enabled(w, step) && !step.AsyncReceive?
    ensures Section(w, step).postsReady.None?
  {
    hide PumpRead, OnReadClosed, OnReadError, Fail, OnReadMessage, StartWrite, OnWrite, RequestClose, RequestKick,
      OnClose, OnDeadline, FinishReceive, ReceiveAsync, BeginWrite, EndWrite, SendAsync, ReceiveReady, SendReady, Sendable, Blocked,
      ParksNothing, OffStrand, PumpLaw, EndLaw, FlagLaw, OneMessage, NoneSent;
  }

  /**
   * In every run in which no receive is made while a completion is posted, the application gets the messages in wire
   * order: those its receives completed with, the one posted, and those queued are the messages that arrived.
   */
  lemma {:induction false} DeliversInOrder(ws: seq<World>, steps: seq<Step>, i: nat)
    requires IsRun(ws, steps) && i < |ws| && forall j | 0 <= j < i :: OneAtATime(ws[j], steps[j])
    ensures Gots(ws[i].events) + Posted(ws[i].ready) + ws[i].s.received == ws[i].arrived
  {
    RunsKeepOrder(ws, steps, i);
    TakenInOrder(ws, steps, i);
    hide IsRun, OneAtATime, Gots, Posted;
  }

  lemma {:induction false} RunsKeepOrder(ws: seq<World>, steps: seq<Step>, i: nat)
    requires IsRun(ws, steps) && i < |ws| && forall j | 0 <= j < i :: OneAtATime(ws[j], steps[j])
    ensures OrderOk(ws[i])
  {
    if i == 0 {
      assert Gots([]) == [] && Posted([]) == [];
    } else {
      RunsKeepOrder(ws, steps, i - 1);
      RunsKeepInv(ws, steps, i - 1);
      InvCount(ws[i - 1]);
      assert OneAtATime(ws[i - 1], steps[i - 1]);
      hide Next, OrderOk, Inv, OneAtATime;
      StepKeepsOrder(ws[i - 1], steps[i - 1]);
    }
  }

  lemma InvCount(w: World)
    requires Inv(w)
    ensures CountOk(w)
  {
    hide WireInv, PumpOk, OncePerCall, DeadlinesOk, CountOk, HandedOk;
  }

  // ----- a run out of order -----

  function OutOfOrderSteps(b0: Octets, b1: Octets): seq<Step> {
    [RunPump, Continue, ReadMessage(true, b0), Continue, Continue, AsyncReceive(0, None), AsyncReceive(1, None),
     ReadMessage(true, b1), Continue, Continue, RunReady(0)]
  }

  function OutOfOrderWorld(i: nat, m0: Message, m1: Message): World {
    START.(s := Initial().(received := if 3 <= i < 6 then [m0] else [],
                           pendingReceive := if i == 7 then Some(1) else None, generation := if i < 7 then 0 else 1),
           strand := if i == 1 || i == 4 || i == 9 then ArmRead else if i == 3 || i == 8 then Pump else Nothing,
           postedPumps := if i == 0 then 1 else 0,
           readOps := if i == 2 || 5 <= i < 8 || i >= 10 then 1 else 0,
           ready := if 6 <= i < 11 then [(0, m0)] else [],
           issued := if i < 6 then {} else if i < 7 then {0} else {0, 1},
           arrived := if i < 3 then [] else if i < 8 then [m0] else [m0, m1],
           taken := if i < 6 then [] else if i < 8 then [m0] else [m0, m1],
           events := if i < 8 then [] else if i < 11 then [ReceiveDone(1, Got(m1))] else [ReceiveDone(1, Got(m1)), ReceiveDone(0, Got(m0))])
  }

  ghost predicate Follows(i: nat, m0: Message, m1: Message, b0: Octets, b1: Octets)
    requires i < 11
  {
    var w, step := OutOfOrderWorld(i, m0, m1), OutOfOrderSteps(b0, b1)[i];
    Enabled(w, step) && Next(w, step) == OutOfOrderWorld(i + 1, m0, m1)
  }

  lemma OutOfOrderPumps(i: nat, m0: Message, m1: Message, b0: Octets, b1: Octets)
    requires i == 0 || i == 1
    ensures Follows(i, m0, m1, b0, b1)
  {
    TakesNothing(Section(OutOfOrderWorld(i, m0, m1), OutOfOrderSteps(b0, b1)[i]));
    hide PumpLaw, EndLaw, FlagLaw, ParksNothing, OffStrand, OneMessage, NoneSent, Takes, Gots;
  }

  lemma OutOfOrderPumpsAgain(i: nat, m0: Message, m1: Message, b0: Octets, b1: Octets)
    requires i == 3 || i == 4
    ensures Follows(i, m0, m1, b0, b1)
  {
    TakesNothing(Section(OutOfOrderWorld(i, m0, m1), OutOfOrderSteps(b0, b1)[i]));
    hide PumpLaw, EndLaw, FlagLaw, ParksNothing, OffStrand, OneMessage, NoneSent, Takes, Gots;
  }

  lemma OutOfOrderPumpsOn(i: nat, m0: Message, m1: Message, b0: Octets, b1: Octets)
    requires i == 8 || i == 9
    ensures Follows(i, m0, m1, b0, b1)
  {
    TakesNothing(Section(OutOfOrderWorld(i, m0, m1), OutOfOrderSteps(b0, b1)[i]));
    hide PumpLaw, EndLaw, FlagLaw, ParksNothing, OffStrand, OneMessage, NoneSent, Takes, Gots;
  }

  lemma OutOfOrderQueues(m0: Message, m1: Message, b0: Octets, b1: Octets)
    requires Arrival(true, b0) == Some(m0)
    ensures Follows(2, m0, m1, b0, b1)
  {
    TakesNothing(Section(OutOfOrderWorld(2, m0, m1), OutOfOrderSteps(b0, b1)[2]));
    hide PumpLaw, EndLaw, FlagLaw, ParksNothing, OffStrand, OneMessage, NoneSent, Takes, Gots, Arrival;
  }

  lemma OutOfOrderPosts(m0: Message, m1: Message, b0: Octets, b1: Octets)
    ensures Follows(5, m0, m1, b0, b1)
  {
    hide ReceiveAsync, PumpLaw, EndLaw, FlagLaw, ParksNothing, OffStrand, OneMessage, NoneSent, Takes, Gots;
    var w, step := OutOfOrderWorld(5, m0, m1), OutOfOrderSteps(b0, b1)[5];
    PostsQueued(w.s, 0, m0);
    assert Section(w, step) == ReceiveAsync(w.s, 0, None);
    TakesOne(Section(w, step), m0);
    hide Section;
  }

  lemma PostsQueued(s: Session, id: Id, m: Message)
    requires s == Initial().(received := [m])
    ensures ReceiveAsync(s, id, None) == Plain(s.(received := []), []).(postsReady := Some((id, m)))
  {
    hide PumpLaw, EndLaw, FlagLaw, ParksNothing, OneMessage, NoneSent, OffStrand;
  }

  lemma OutOfOrderParks(m0: Message, m1: Message, b0: Octets, b1: Octets)
    ensures Follows(6, m0, m1, b0, b1)
  {
    hide ReceiveAsync, PumpLaw, EndLaw, FlagLaw, ParksNothing, OffStrand, OneMessage, NoneSent, Takes, Gots;
    var w, step := OutOfOrderWorld(6, m0, m1), OutOfOrderSteps(b0, b1)[6];
    ParksIdle(w.s, 1);
    assert Section(w, step) == ReceiveAsync(w.s, 1, None);
    TakesNothing(Section(w, step));
    hide Section;
  }

  lemma ParksIdle(s: Session, id: Id)
    requires s == Initial()
    ensures ReceiveAsync(s, id, None) == Plain(s.(pendingReceive := Some(id), generation := 1), [])
  {
    hide PumpLaw, EndLaw, FlagLaw, ParksNothing, OneMessage, NoneSent;
  }

  lemma HandsToParked(s: Session, id: Id, m: Message, b: Octets)
    requires s.pendingReceive == Some(id) && Arrival(true, b) == Some(m)
    ensures OnReadMessage(s, true, b) == Plain(s.(pendingReceive := None), [ReceiveDone(id, Got(m))]).(then_ := Pump)
  {
    hide PumpLaw, EndLaw, FlagLaw, ParksNothing, OneMessage, NoneSent, Arrival, FailAndClose;
  }

  lemma OutOfOrderOvertakes(m0: Message, m1: Message, b0: Octets, b1: Octets)
    requires Arrival(true, b1) == Some(m1)
    ensures Follows(7, m0, m1, b0, b1)
  {
    hide OnReadMessage, PumpLaw, EndLaw, FlagLaw, ParksNothing, OffStrand, OneMessage, NoneSent, Takes, Gots, Arrival;
    var w, step := OutOfOrderWorld(7, m0, m1), OutOfOrderSteps(b0, b1)[7];
    HandsToParked(w.s, 1, m1, b1);
    assert Section(w, step) == OnReadMessage(w.s, true, b1);
    TakesOne(Section(w, step), m1);
    hide Section;
  }

  lemma OutOfOrderRuns(m0: Message, m1: Message, b0: Octets, b1: Octets)
    ensures Follows(10, m0, m1, b0, b1)
  {
    hide PumpLaw, EndLaw, FlagLaw, ParksNothing, OffStrand, OneMessage, NoneSent, Takes, Gots;
  }

  lemma FrameArrives(m: Message, b: Octets)
    requires Encode(m) == Ok(b)
    ensures Arrival(true, b) == Some(m)
  {
    FrameProps.RoundTrip(m, []);
    assert b + [] == b;
    hide Encode, Decode;
  }

  lemma OutOfOrderFollows(i: nat, m0: Message, m1: Message, b0: Octets, b1: Octets)
    requires i < 11 && Arrival(true, b0) == Some(m0) && Arrival(true, b1) == Some(m1)
    ensures Follows(i, m0, m1, b0, b1)
  {
    hide Arrival, Follows;
    if i <= 1 {
      OutOfOrderPumps(i, m0, m1, b0, b1);
    } else if i == 2 {
      OutOfOrderQueues(m0, m1, b0, b1);
    } else if i <= 4 {
      OutOfOrderPumpsAgain(i, m0, m1, b0, b1);
    } else if i == 5 {
      OutOfOrderPosts(m0, m1, b0, b1);
    } else if i == 6 {
      OutOfOrderParks(m0, m1, b0, b1);
    } else if i == 7 {
      OutOfOrderOvertakes(m0, m1, b0, b1);
    } else if i <= 9 {
      OutOfOrderPumpsOn(i, m0, m1, b0, b1);
    } else {
      OutOfOrderRuns(m0, m1, b0, b1);
    }
  }

  /**
   * A second receive is not refused while the first one's completion is posted, and the next message is handed to it
   * at once: any two messages can be delivered in the wrong order.
   */
  lemma {:induction false} OutOfOrder(m0: Message, m1: Message, b0: Octets, b1: Octets) returns (ws: seq<World>)
    requires Encode(m0) == Ok(b0) && Encode(m1) == Ok(b1)
    ensures IsRun(ws, OutOfOrderSteps(b0, b1)) && ws[11].arrived == [m0, m1] && Gots(ws[11].events) == [m1, m0]
  {
    FrameArrives(m0, b0);
    FrameArrives(m1, b1);
    ws := seq(12, i requires 0 <= i < 12 => OutOfOrderWorld(i, m0, m1));
    forall i | 0 <= i < 11
      ensures Follows(i, m0, m1, b0, b1)
    {
      OutOfOrderFollows(i, m0, m1, b0, b1);
    }
    hide Encode, Arrival, Enabled, Next, Follows;
    FollowsRun(ws, m0, m1, b0, b1);
    LastEvents(m0, m1);
  }

  lemma FollowsRun(ws: seq<World>, m0: Message, m1: Message, b0: Octets, b1: Octets)
    requires |ws| == 12 && (forall i | 0 <= i < 12 :: ws[i] == OutOfOrderWorld(i, m0, m1)) && forall i | 0 <= i < 11 :: Follows(i, m0, m1, b0, b1)
    ensures IsRun(ws, OutOfOrderSteps(b0, b1))
  {
    hide Enabled, Next;
    forall i | 0 <= i < 11
      ensures Enabled(ws[i], OutOfOrderSteps(b0, b1)[i]) && ws[i + 1] == Next(ws[i], OutOfOrderSteps(b0, b1)[i])
    {
      assert Follows(i, m0, m1, b0, b1);
    }
    assert OutOfOrderWorld(0, m0, m1) == START;
  }

  lemma GotsBoth(a: Event, b: Event)
    requires HandsOverMessage(a) && HandsOverMessage(b)
    ensures Gots([a, b]) == [a.received.message, b.received.message]
  {
    GotsOne(a);
    GotsOne(b);
    GotsTwo([a], [b]);
    assert [a, b] == [a] + [b];
    hide Gots;
  }

  lemma LastEvents(m0: Message, m1: Message)
    ensures Gots(OutOfOrderWorld(11, m0, m1).events) == [m1, m0]
  {
    hide Gots;
    GotsBoth(ReceiveDone(1, Got(m1)), ReceiveDone(0, Got(m0)));
  }
}
