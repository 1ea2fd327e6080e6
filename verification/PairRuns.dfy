/** Whole runs of the pair: any interleaving of calls, wake-ups, deadlines and closes. */
module PairRuns {
  import opened Common
  import opened FrameSpec
  import opened PairSpec

  /**
   * The shared state with everything around it: the blocking calls that wait, the armed deadlines with the
   * receive each was armed for, the calls ever made, and every completion so far.
   */
  datatype World = World(
    s: State,
    events: seq<Event>,
    receivers: map<Id, (End, bool)>,
    senders: map<Id, (End, Message)>,
    deadlines: map<(End, nat), Id>,
    issued: set<Id>)

  datatype Step =
    | BlockingSend(end: End, id: Id, message: Message)
    | ResumeSend(id: Id)
    | AsyncSend(end: End, id: Id, message: Message)
    | BlockingReceive(end: End, id: Id, timed: bool)
    | ResumeReceive(id: Id)
    | ReceiveDeadline(id: Id)
    | AsyncReceive(end: End, id: Id, timeout: Option<int>)
    | WatchdogFires(end: End, generation: nat)
    | CloseOrKick(end: End, why: CloseReason)

  /** A new call has a new name; a waiter resumes only when its condition holds; a deadline fires only when armed. */
  predicate Enabled(w: World, step: Step) {
    match step
    case BlockingSend(_, id, _) => id !in w.issued
    case AsyncSend(_, id, _) => id !in w.issued
    case BlockingReceive(_, id, _) => id !in w.issued
    case AsyncReceive(_, id, _) => id !in w.issued
    case ResumeSend(id) => id in w.senders && SendReady(w.s, w.senders[id].0)
    case ResumeReceive(id) => id in w.receivers && ReceiveReady(w.s, w.receivers[id].0)
    case ReceiveDeadline(id) => id in w.receivers && w.receivers[id].1
    case WatchdogFires(e, g) => (e, g) in w.deadlines
    case CloseOrKick(_, _) => true
  }

  /** The call a step makes, if it makes one. */
  function Made(step: Step): set<Id> {
    match step
    case BlockingSend(_, id, _) => {id}
    case AsyncSend(_, id, _) => {id}
    case BlockingReceive(_, id, _) => {id}
    case AsyncReceive(_, id, _) => {id}
    case _ => {}
  }

  function Blocked(n: nat, delta: int): nat {
    if n + delta < 0 then 0 else n + delta
  }

  function CountSender(s: State, e: End, delta: int): State {
    s.(blockedSenders := s.blockedSenders.With(e, Blocked(s.blockedSenders.At(e), delta)))
  }

  function CountReceiver(s: State, e: End, delta: int): State {
    s.(blockedReceivers := s.blockedReceivers.With(e, Blocked(s.blockedReceivers.At(e), delta)))
  }

  /** The critical section a step runs. */
  function Section(w: World, step: Step): Done
    requires Enabled(w, step)
  {
    match step
    case BlockingSend(e, id, m) =>
      if Encode(m).Err? then Done(w.s, [SendDone(e, id, m, SendInvalid)], false)
      else if SendReady(w.s, e) then FinishSend(w.s, e, id, m)
      else Done(CountSender(w.s, e, 1), [], false)
    case ResumeSend(id) =>
      var (e, m) := w.senders[id];
      FinishSend(CountSender(w.s, e, -1), e, id, m)
    case AsyncSend(e, id, m) => SendAsync(w.s, e, id, m)
    case BlockingReceive(e, id, _) =>
      if ReceiveReady(w.s, e) then FinishReceive(w.s, e, id) else Done(CountReceiver(w.s, e, 1), [], false)
    case ResumeReceive(id) =>
      var e := w.receivers[id].0;
      FinishReceive(CountReceiver(w.s, e, -1), e, id)
    case ReceiveDeadline(id) =>
      var e := w.receivers[id].0;
      if ReceiveReady(w.s, e) then FinishReceive(CountReceiver(w.s, e, -1), e, id)
      else Done(CountReceiver(w.s, e, -1), [ReceiveDone(e, id, ReceiveTimeout)], false)
    case AsyncReceive(e, id, timeout) => ReceiveAsync(w.s, e, id, timeout)
    case WatchdogFires(e, g) => Watchdog(w.s, e, g)
    case CloseOrKick(e, why) => Shut(w.s, e, why)
  }

  /** A receive that parked with a deadline arms it for the generation of its park. */
  function Armed(w: World, step: Step, d: Done): map<(End, nat), Id> {
    match step
    case AsyncReceive(e, id, Some(_)) =>
      if d.events == [] then w.deadlines[(e, d.s.generation.At(e)) := id] else w.deadlines
    case WatchdogFires(e, g) => w.deadlines - {(e, g)}
    case _ => w.deadlines
  }

  function Next(w: World, step: Step): World
    requires Enabled(w, step)
  {
    var d := Section(w, step);
    World(d.s, w.events + d.events,
          match step {
            case BlockingReceive(e, id, timed) => if d.events == [] then w.receivers[id := (e, timed)] else w.receivers
            case ResumeReceive(id) => w.receivers - {id}
            case ReceiveDeadline(id) => w.receivers - {id}
            case _ => w.receivers
          },
          match step {
            case BlockingSend(e, id, m) => if d.events == [] then w.senders[id := (e, m)] else w.senders
            case ResumeSend(id) => w.senders - {id}
            case _ => w.senders
          },
          Armed(w, step, d), w.issued + Made(step))
  }

  const START: World := World(Initial(), [], map[], map[], map[], {})

  // ----- what every reachable world satisfies -----

  /** Accepted sends are the messages delivered followed by the messages queued. */
  ghost predicate Fifo(w: World, e: End) {
    Accepted(w.events, e) == Delivered(w.events, e.Other()) + w.s.queues.At(e)
  }

  /** Where a call stands: completed, parked, or blocked. */
  function Places(w: World, id: Id): nat {
    Completions(w.events, id) + Parked(w.s, id) + (if id in w.receivers then 1 else 0) + if id in w.senders then 1 else 0
  }

  ghost predicate OncePerCall(w: World) {
    forall id: Id :: Once(w, id)
  }

  /** A call made stands in exactly one place, once; a call never made in none. */
  ghost predicate Once(w: World, id: Id) {
    Places(w, id) == if id in w.issued then 1 else 0
  }

  /** An armed deadline bears an old generation, or that of the park it was armed for. */
  ghost predicate DeadlinesOk(w: World) {
    forall k: (End, nat) | k in w.deadlines :: DeadlineOk(w, k.0, k.1)
  }

  ghost predicate DeadlineOk(w: World, e: End, g: nat)
    requires (e, g) in w.deadlines
  {
    g <= w.s.generation.At(e) &&
    (g == w.s.generation.At(e) && w.s.pendingReceive.At(e).Some? ==> w.s.pendingReceive.At(e).value == w.deadlines[(e, g)])
  }

  /** The waiting calls of one end. */
  function CallsAt<V>(calls: map<Id, (End, V)>, e: End): set<Id> {
    set id | id in calls && calls[id].0 == e
  }

  lemma CallAdded<V>(calls: map<Id, (End, V)>, id: Id, x: End, v: V, e: End)
    requires id !in calls
    ensures |CallsAt(calls[id := (x, v)], e)| == |CallsAt(calls, e)| + if x == e then 1 else 0
  {
    assert CallsAt(calls[id := (x, v)], e) == CallsAt(calls, e) + if x == e then {id} else {};
  }

  lemma CallRemoved<V>(calls: map<Id, (End, V)>, id: Id, e: End)
    requires id in calls
    ensures |CallsAt(calls - {id}, e)| == |CallsAt(calls, e)| - if calls[id].0 == e then 1 else 0
    ensures calls[id].0 == e ==> |CallsAt(calls, e)| > 0
  {
    assert CallsAt(calls - {id}, e) == CallsAt(calls, e) - {id};
    assert calls[id].0 == e <==> id in CallsAt(calls, e);
  }

  /** The counters the async twins consult count exactly the calls that wait. */
  ghost predicate CountsOk(w: World, e: End) {
    w.s.blockedReceivers.At(e) == |CallsAt(w.receivers, e)| && w.s.blockedSenders.At(e) == |CallsAt(w.senders, e)|
  }

  ghost predicate Inv(w: World) {
    SlotsOk(w.s) && Fifo(w, E0) && Fifo(w, E1) && OncePerCall(w) && DeadlinesOk(w) && CountsOk(w, E0) && CountsOk(w, E1)
  }

  // ----- every step keeps it -----

  /** The call a step's section serves: the one it makes, or the waiter it wakes; none if that one starts waiting. */
  function Served(w: World, step: Step): Option<Id>
    requires Enabled(w, step)
  {
    match step
    case BlockingSend(_, id, _) => if Section(w, step).events == [] then None else Some(id)
    case BlockingReceive(_, id, _) => if Section(w, step).events == [] then None else Some(id)
    case AsyncSend(_, id, _) => Some(id)
    case AsyncReceive(_, id, _) => Some(id)
    case ResumeSend(id) => Some(id)
    case ResumeReceive(id) => Some(id)
    case ReceiveDeadline(id) => Some(id)
    case _ => None
  }

  /** The counters play no part in the slot protocol. */
  lemma CounterLawful(s: State, s2: State, d: Done, served: Option<Id>)
    requires SlotsOk(s) && Lawful(s2, d, served)
    requires s2 == s.(blockedReceivers := s2.blockedReceivers, blockedSenders := s2.blockedSenders)
    ensures Lawful(s, d, served)
  {
    hide Accepted, Delivered, Completions;
    forall id: Id
      ensures Accounted(s, d, served, id)
    {
      assert Accounted(s2, d, served, id);
    }
  }

  lemma CountersFree(s: State, s2: State)
    requires s2 == s.(blockedReceivers := s2.blockedReceivers, blockedSenders := s2.blockedSenders)
    ensures SlotsOk(s2) == SlotsOk(s)
    ensures forall e: End :: SendReady(s2, e) == SendReady(s, e) && ReceiveReady(s2, e) == ReceiveReady(s, e)
  {
  }

  lemma WaitLawful(s: State, s2: State)
    requires SlotsOk(s) && s2 == s.(blockedReceivers := s2.blockedReceivers, blockedSenders := s2.blockedSenders)
    ensures Lawful(s, Done(s2, [], false), None)
  {
    forall id: Id
      ensures Accounted(s, Done(s2, [], false), None, id)
    {
    }
  }

  lemma FinishSendCounted(s: State, s2: State, e: End, id: Id, m: Message)
    requires SlotsOk(s) && SendReady(s, e)
    requires s2 == s.(blockedReceivers := s2.blockedReceivers, blockedSenders := s2.blockedSenders)
    ensures Lawful(s, FinishSend(s2, e, id, m), Some(id))
  {
    hide Lawful, FinishSend, SlotsOk;
    CountersFree(s, s2);
    FinishSendLawful(s2, e, id, m);
    CounterLawful(s, s2, FinishSend(s2, e, id, m), Some(id));
  }

  lemma FinishReceiveCounted(s: State, s2: State, e: End, id: Id)
    requires SlotsOk(s)
    requires s2 == s.(blockedReceivers := s2.blockedReceivers, blockedSenders := s2.blockedSenders)
    ensures Lawful(s, FinishReceive(s2, e, id), Some(id))
  {
    hide Lawful, FinishReceive, SlotsOk;
    CountersFree(s, s2);
    FinishReceiveLawful(s2, e, id);
    CounterLawful(s, s2, FinishReceive(s2, e, id), Some(id));
  }

  lemma TimeoutCounted(s: State, s2: State, e: End, id: Id)
    requires SlotsOk(s)
    requires s2 == s.(blockedReceivers := s2.blockedReceivers, blockedSenders := s2.blockedSenders)
    ensures Lawful(s, Done(s2, [ReceiveDone(e, id, ReceiveTimeout)], false), Some(id))
  {
    hide Lawful, SlotsOk;
    CountersFree(s, s2);
    AnswerLawful(s2, ReceiveDone(e, id, ReceiveTimeout), false);
    CounterLawful(s, s2, Done(s2, [ReceiveDone(e, id, ReceiveTimeout)], false), Some(id));
  }

  /** Every finishing section completes its caller at once. */
  lemma FinishesNow(s: State, e: End, id: Id, m: Message)
    ensures FinishSend(s, e, id, m).events != [] && FinishReceive(s, e, id).events != []
  {
  }

  lemma SectionLawful(w: World, step: Step)
    requires SlotsOk(w.s) && Enabled(w, step)
    ensures Lawful(w.s, Section(w, step), Served(w, step))
  {
    hide Lawful, SlotsOk, FinishSend, FinishReceive, SendAsync, ReceiveAsync, Watchdog, Shut, Encode;
    match step
    case BlockingSend(e, id, m) =>
      if Encode(m).Err? {
        AnswerLawful(w.s, SendDone(e, id, m, SendInvalid), false);
      } else if SendReady(w.s, e) {
        FinishSendCounted(w.s, w.s, e, id, m);
        FinishesNow(w.s, e, id, m);
      } else {
        WaitLawful(w.s, CountSender(w.s, e, 1));
      }
    case ResumeSend(id) =>
      var (e, m) := w.senders[id];
      FinishSendCounted(w.s, CountSender(w.s, e, -1), e, id, m);
    case AsyncSend(e, id, m) => SendAsyncLawful(w.s, e, id, m);
    case BlockingReceive(e, id, _) =>
      if ReceiveReady(w.s, e) {
        FinishReceiveCounted(w.s, w.s, e, id);
        FinishesNow(w.s, e, id, Message([], []));
      } else {
        WaitLawful(w.s, CountReceiver(w.s, e, 1));
      }
    case ResumeReceive(id) => FinishReceiveCounted(w.s, CountReceiver(w.s, w.receivers[id].0, -1), w.receivers[id].0, id);
    case ReceiveDeadline(id) =>
      var e := w.receivers[id].0;
      if ReceiveReady(w.s, e) {
        FinishReceiveCounted(w.s, CountReceiver(w.s, e, -1), e, id);
      } else {
        TimeoutCounted(w.s, CountReceiver(w.s, e, -1), e, id);
      }
    case AsyncReceive(e, id, timeout) => ReceiveAsyncLawful(w.s, e, id, timeout);
    case WatchdogFires(e, g) => WatchdogLawful(w.s, e, g);
    case CloseOrKick(e, why) => ShutLawful(w.s, e, why);
  }

  /** The law of one section is the law of the run. */
  lemma FifoKept(w: World, step: Step, e: End)
    requires Enabled(w, step) && Fifo(w, e) && Flow(w.s, Section(w, step), e)
    ensures Fifo(Next(w, step), e)
  {
    hide Accepted, Delivered, Section, Enabled, Armed, Made;
    var d := Section(w, step);
    Appended(w.events, d.events, e, 0);
    Appended(w.events, d.events, e.Other(), 0);
    QueueStep(Accepted(w.events, e), Delivered(w.events, e.Other()), w.s.queues.At(e), Accepted(d.events, e),
          Delivered(d.events, e.Other()), d.s.queues.At(e));
  }

  /** What a step moves besides its section. */
  lemma Moves(w: World, step: Step, id: Id)
    requires Enabled(w, step) && (id in w.receivers || id in w.senders ==> id in w.issued)
    ensures var w2, d := Next(w, step), Section(w, step); w2.events == w.events + d.events && w2.s == d.s
    ensures var w2 := Next(w, step);
            AsCount(id in w2.receivers) + AsCount(id in w2.senders) + AsCount(Served(w, step) == Some(id)) + AsCount(id in w.issued) ==
            AsCount(id in w.receivers) + AsCount(id in w.senders) + AsCount(id in w2.issued)
  {
    hide Section, Armed;
  }

  lemma OnceKept(w: World, step: Step, id: Id)
    requires Enabled(w, step) && Once(w, id) && Accounted(w.s, Section(w, step), Served(w, step), id)
    ensures Once(Next(w, step), id)
  {
    hide Completions, Parked, Section, Next, Served, Enabled;
    Appended(w.events, Section(w, step).events, E0, id);
    Moves(w, step, id);
  }

  /** How a section moves a park generation and its slot. */
  lemma GenerationMoves(w: World, step: Step, e: End)
    requires Enabled(w, step)
    ensures var d := Section(w, step);
            (d.s.generation == w.s.generation && (d.s.pendingReceive.At(e) == w.s.pendingReceive.At(e) || d.s.pendingReceive.At(e) == None)) ||
            (step.AsyncReceive? && d.events == [] &&
             d.s.generation == w.s.generation.With(step.end, w.s.generation.At(step.end) + 1) &&
             d.s.pendingReceive == w.s.pendingReceive.With(step.end, Some(step.id)))
    ensures step.AsyncReceive? && Section(w, step).events == [] ==>
              Section(w, step).s.generation == w.s.generation.With(step.end, w.s.generation.At(step.end) + 1) &&
              Section(w, step).s.pendingReceive == w.s.pendingReceive.With(step.end, Some(step.id))
  {
    hide Encode;
  }

  lemma DeadlinesKept(w: World, step: Step)
    requires Enabled(w, step) && DeadlinesOk(w)
    ensures DeadlinesOk(Next(w, step))
  {
    GenerationMoves(w, step, E0);
    GenerationMoves(w, step, E1);
    hide Section;
    var w2 := Next(w, step);
    forall k: (End, nat) | k in w2.deadlines
      ensures DeadlineOk(w2, k.0, k.1)
    {
      if k in w.deadlines {
        assert DeadlineOk(w, k.0, k.1);
      }
    }
  }

  /** The counters a section touches. */
  lemma CounterMoves(w: World, step: Step)
    requires Enabled(w, step)
    ensures var d := Section(w, step);
            d.s.blockedReceivers ==
            (match step
             case BlockingReceive(e, _, _) => if d.events == [] then CountReceiver(w.s, e, 1).blockedReceivers else w.s.blockedReceivers
             case ResumeReceive(id) => CountReceiver(w.s, w.receivers[id].0, -1).blockedReceivers
             case ReceiveDeadline(id) => CountReceiver(w.s, w.receivers[id].0, -1).blockedReceivers
             case _ => w.s.blockedReceivers) &&
            d.s.blockedSenders ==
            (match step
             case BlockingSend(e, _, _) => if d.events == [] then CountSender(w.s, e, 1).blockedSenders else w.s.blockedSenders
             case ResumeSend(id) => CountSender(w.s, w.senders[id].0, -1).blockedSenders
             case _ => w.s.blockedSenders)
  {
    hide Encode;
  }

  lemma ReceiversKept(w: World, step: Step, e: End)
    requires Enabled(w, step) && w.s.blockedReceivers.At(e) == |CallsAt(w.receivers, e)| && w.receivers.Keys <= w.issued
    ensures Next(w, step).s.blockedReceivers.At(e) == |CallsAt(Next(w, step).receivers, e)|
  {
    hide Section, Armed, Made, CallsAt;
    CounterMoves(w, step);
    match step
    case BlockingReceive(x, id, timed) => CallAdded(w.receivers, id, x, timed, e);
    case ResumeReceive(id) => CallRemoved(w.receivers, id, e);
    case ReceiveDeadline(id) => CallRemoved(w.receivers, id, e);
    case _ =>
  }

  lemma SendersKept(w: World, step: Step, e: End)
    requires Enabled(w, step) && w.s.blockedSenders.At(e) == |CallsAt(w.senders, e)| && w.senders.Keys <= w.issued
    ensures Next(w, step).s.blockedSenders.At(e) == |CallsAt(Next(w, step).senders, e)|
  {
    hide Section, Armed, Made, CallsAt;
    CounterMoves(w, step);
    match step
    case BlockingSend(x, id, m) => CallAdded(w.senders, id, x, m, e);
    case ResumeSend(id) => CallRemoved(w.senders, id, e);
    case _ =>
  }

  lemma CountsKept(w: World, step: Step, e: End)
    requires Enabled(w, step) && CountsOk(w, e) && w.receivers.Keys <= w.issued && w.senders.Keys <= w.issued
    ensures CountsOk(Next(w, step), e)
  {
    hide Next, CallsAt;
    ReceiversKept(w, step, e);
    SendersKept(w, step, e);
  }

  lemma WaitersWereIssued(w: World)
    requires OncePerCall(w)
    ensures w.receivers.Keys <= w.issued && w.senders.Keys <= w.issued
  {
    hide Completions, Parked;
    forall id | id in w.receivers.Keys || id in w.senders.Keys
      ensures id in w.issued
    {
      assert Once(w, id);
    }
  }

  lemma {:induction false} StepKeepsInv(w: World, step: Step)
    requires Inv(w) && Enabled(w, step)
    ensures Inv(Next(w, step))
  {
    SectionLawful(w, step);
    WaitersWereIssued(w);
    var d := Section(w, step);
    assert Flow(w.s, d, E0) && Flow(w.s, d, E1) && SlotsOk(Next(w, step).s);
    forall id: Id
      ensures Once(Next(w, step), id)
    {
      assert Once(w, id) && Accounted(w.s, d, Served(w, step), id);
      OnceKept(w, step, id);
    }
    hide Section, Next, Fifo, Flow, CountsOk, DeadlinesOk, Once, Lawful;
    FifoKept(w, step, E0);
    FifoKept(w, step, E1);
    DeadlinesKept(w, step);
    CountsKept(w, step, E0);
    CountsKept(w, step, E1);
  }

  // ----- runs -----

  /** A run from the start: each world follows from the one before by an enabled step. */
  ghost predicate IsRun(ws: seq<World>, steps: seq<Step>) {
    |ws| == |steps| + 1 && ws[0] == START &&
    forall i | 0 <= i < |steps| :: Enabled(ws[i], steps[i]) && ws[i + 1] == Next(ws[i], steps[i])
  }

  /** Every reachable world satisfies the invariant, whatever the interleaving. */
  lemma {:induction false} RunsKeepInv(ws: seq<World>, steps: seq<Step>, i: nat)
    requires IsRun(ws, steps) && i < |ws|
    ensures Inv(ws[i])
  {
    hide Inv;
    if i == 0 {
      StartInv();
    } else {
      RunsKeepInv(ws, steps, i - 1);
      hide Next;
      StepKeepsInv(ws[i - 1], steps[i - 1]);
    }
  }

  lemma StartInv()
    ensures Inv(START)
  {
    forall id: Id
      ensures Once(START, id)
    {
    }
    var none: map<Id, (End, bool)> := map[];
    var none': map<Id, (End, Message)> := map[];
    assert CallsAt(none, E0) == {} && CallsAt(none, E1) == {} && CallsAt(none', E0) == {} && CallsAt(none', E1) == {};
  }

  // ----- what single steps never do -----

  /** A timeout takes no message, and a deadline times out only the receive it was armed for. */
  lemma {:induction false} TimeoutsAreHarmless(w: World, step: Step, e: End, id: Id)
    requires Inv(w) && Enabled(w, step) && ReceiveDone(e, id, ReceiveTimeout) in Section(w, step).events
    ensures Section(w, step).s.queues == w.s.queues
    ensures step.WatchdogFires? ==> step.end == e && w.deadlines[(e, step.generation)] == id
    ensures step.ReceiveDeadline? ==> step.id == id
  {
    hide Encode, Accepted, Delivered, Completions, Fifo, Once, CountsOk;
    assert step.WatchdogFires? ==> DeadlineOk(w, step.end, step.generation);
  }

  /** The clean end is reported only when everything accepted in that direction has been delivered. */
  lemma {:induction false} CleanEndMeansDrained(w: World, step: Step, e: End, id: Id)
    requires Inv(w) && Enabled(w, step) && ReceiveDone(e, id, CleanEnd) in Section(w, step).events
    ensures Next(w, step).s.closed
    ensures Delivered(Next(w, step).events, e) == Accepted(Next(w, step).events, e.Other())
  {
    StepKeepsInv(w, step);
    CleanEndQueue(w, step, e, id);
    hide Section, Accepted, Delivered;
    var w2 := Next(w, step);
    assert Fifo(w2, e.Other());
    assert Delivered(w2.events, e) + [] == Delivered(w2.events, e);
  }

  lemma CleanEndQueue(w: World, step: Step, e: End, id: Id)
    requires SlotsOk(w.s) && Enabled(w, step) && ReceiveDone(e, id, CleanEnd) in Section(w, step).events
    ensures Section(w, step).s.closed && Section(w, step).s.queues.At(e.Other()) == []
  {
    hide Encode;
  }

  /** Once closed, a session stays closed and accepts nothing more. */
  lemma {:induction false} ClosedIsFinal(w: World, step: Step, e: End)
    requires Inv(w) && Enabled(w, step) && w.s.closed
    ensures Next(w, step).s.closed && Accepted(Next(w, step).events, e) == Accepted(w.events, e)
  {
    hide Fifo, Once, CountsOk, DeadlinesOk;
    ClosedSection(w, step, e);
    hide Section, Accepted, Delivered;
    Appended(w.events, Section(w, step).events, e, 0);
    assert Accepted(w.events, e) + [] == Accepted(w.events, e);
  }

  lemma ClosedSection(w: World, step: Step, e: End)
    requires SlotsOk(w.s) && Enabled(w, step) && w.s.closed
    ensures Section(w, step).s.closed && Accepted(Section(w, step).events, e) == []
  {
    ClosedSmall(w, step);
    hide Accepted, Section;
    EventsOf(Section(w, step).events, e, 0);
  }

  lemma ClosedSmall(w: World, step: Step)
    requires SlotsOk(w.s) && Enabled(w, step) && w.s.closed
    ensures var d := Section(w, step);
            d.s.closed && |d.events| <= 2 && forall k | 0 <= k < |d.events| :: !(d.events[k].SendDone? && d.events[k].result == Sent)
  {
    hide Encode;
  }

  /** Whatever makes a blocked call's condition true also notifies it. */
  lemma {:induction false} NoLostWakeup(w: World, step: Step, id: Id)
    requires Inv(w) && Enabled(w, step)
    ensures id in w.receivers && id in Next(w, step).receivers && !ReceiveReady(w.s, w.receivers[id].0) && ReceiveReady(Next(w, step).s, w.receivers[id].0) ==>
              Section(w, step).notified
    ensures id in w.senders && id in Next(w, step).senders && !SendReady(w.s, w.senders[id].0) && SendReady(Next(w, step).s, w.senders[id].0) ==>
              Section(w, step).notified
  {
    hide Fifo, Once, CountsOk, DeadlinesOk;
    if !Section(w, step).notified {
      QuietSections(w, step, E0);
      QuietSections(w, step, E1);
    }
    hide Section, ReceiveReady, SendReady;
  }

  /** A section that does not notify makes no condition true. */
  lemma QuietSections(w: World, step: Step, e: End)
    requires SlotsOk(w.s) && Enabled(w, step) && !Section(w, step).notified
    ensures ReceiveReady(Section(w, step).s, e) ==> ReceiveReady(w.s, e)
    ensures SendReady(Section(w, step).s, e) ==> SendReady(w.s, e)
  {
    hide Encode;
  }

  // ----- after the close -----

  /** k receives at end e, one after the other. */
  function ReceiveTimes(s: State, e: End, id: Id, k: nat): Done
    decreases k
  {
    if k == 0 then Done(s, [], false)
    else
      var d := FinishReceive(s, e, id);
      var rest := ReceiveTimes(d.s, e, id + 1, k - 1);
      Done(rest.s, d.events + rest.events, rest.notified)
  }

  /** The messages of q received one by one by calls id, id + 1, and so on. */
  function Receipts(e: End, id: Id, q: seq<Message>): seq<Event> {
    seq(|q|, i requires 0 <= i < |q| => ReceiveDone(e, id + i, Got(q[i])))
  }

  lemma ReceiptsStep(e: End, id: Id, q: seq<Message>)
    requires q != []
    ensures Receipts(e, id, q) == [ReceiveDone(e, id, Got(q[0]))] + Receipts(e, id + 1, q[1..])
  {
  }

  /** After a close the receiver still gets every queued message, in order, and then the clean end. */
  lemma {:induction false} CloseDrains(s: State, e: End, id: Id)
    requires SlotsOk(s) && s.closed
    ensures var q := s.queues.At(e.Other());
            ReceiveTimes(s, e, id, |q| + 1).events == Receipts(e, id, q) + [ReceiveDone(e, id + |q|, CleanEnd)]
    decreases |s.queues.At(e.Other())|
  {
    var q := s.queues.At(e.Other());
    var d := FinishReceive(s, e, id);
    TimesStep(s, e, id, |q|);
    if q == [] {
      TimesNone(d.s, e, id + 1);
    } else {
      ClosedReceive(s, e, id);
      CloseDrains(d.s, e, id + 1);
      ReceiptsStep(e, id, q);
      hide FinishReceive, ReceiveTimes, SlotsOk, Receipts;
    }
  }

  lemma TimesStep(s: State, e: End, id: Id, k: nat)
    ensures ReceiveTimes(s, e, id, k + 1).events ==
            FinishReceive(s, e, id).events + ReceiveTimes(FinishReceive(s, e, id).s, e, id + 1, k).events
  {
    hide FinishReceive;
  }

  lemma TimesNone(s: State, e: End, id: Id)
    ensures ReceiveTimes(s, e, id, 0).events == []
  {
  }

  lemma ClosedReceive(s: State, e: End, id: Id)
    requires SlotsOk(s) && s.closed && s.queues.At(e.Other()) != []
    ensures var d, q := FinishReceive(s, e, id), s.queues.At(e.Other());
            SlotsOk(d.s) && d.s.closed && d.s.queues.At(e.Other()) == q[1..] && d.events == [ReceiveDone(e, id, Got(q[0]))]
  {
  }
}
