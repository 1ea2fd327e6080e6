/** Whole runs of a WebSocket session: facade calls, posted closures and wire completions in any interleaving. */
module WsRuns {
  import opened Common
  import opened FrameSpec
  import opened Crc32
  import opened WsSpec

  /** Where the one blocking Send that holds the send mutex stands. */
  datatype Turn = Free | Waiting(id: Id) | InFlight(id: Id)

  /** The record of outgoing messages: what calls send, whose write was begun last, how writes ended, what went out. */
  datatype Outgoing = Outgoing(sends: map<Id, Message>, writer: Option<Id>, outcomes: map<Id, bool>, wire: seq<Id>)

  /**
   * The session with everything around it: what the strand is in the middle of, the wire operations outstanding,
   * the closures posted, the blocking calls, the deadlines with the receive each was armed for, and the record of
   * what arrived, what was taken, what completed and what was sent.
   */
  datatype World = World(
    s: Session,
    strand: Then,
    readOps: nat,
    writeOps: nat,
    closeOps: nat,
    closesEver: nat,
    postedPumps: nat,
    writesDue: nat,
    postedWrites: nat,
    ready: seq<(Id, Message)>,
    receivers: map<Id, bool>,
    turn: Turn,
    deadlines: map<nat, Id>,
    issued: set<Id>,
    arrived: seq<Message>,
    taken: seq<Message>,
    events: seq<Event>,
    outgoing: Outgoing)

  datatype Step =
    // the strand starts a handler
    | RunPump
    | ReadClosed
    | ReadFailed(ec: Ending)
    | ReadMessage(binary: bool, bytes: Octets)
    | RunWrite
    | WriteDone(ec: Ending)
    | RunClose
    | RunKick
    | CloseDone(ec: Ending)
    | DeadlineFires(generation: nat)
    | RunReady(k: nat)
    // the strand goes on with the handler it is in
    | Continue
    // the facade, on any thread
    | BlockingReceive(id: Id, timed: bool)
    | ResumeReceive(id: Id)
    | ReceiveDeadline(id: Id)
    | AsyncReceive(id: Id, timeout: Option<int>)
    | BlockingSend(id: Id, message: Message)
    | TakeTurn
    | FinishTurn
    | AsyncSend(id: Id, message: Message)
    | PostWrite
    | Abort

  /** The call a step makes. */
  function Made(step: Step): set<Id> {
    match step
    case BlockingReceive(id, _) => {id}
    case AsyncReceive(id, _) => {id}
    case BlockingSend(id, _) => {id}
    case AsyncSend(id, _) => {id}
    case _ => {}
  }

  predicate Enabled(w: World, step: Step) {
    Made(step) !! w.issued &&
    match step
    case RunPump => w.strand.Nothing? && w.postedPumps > 0
    case ReadClosed => w.strand.Nothing? && w.readOps > 0
    case ReadFailed(ec) => w.strand.Nothing? && w.readOps > 0 && ec != Success
    case ReadMessage(_, _) => w.strand.Nothing? && w.readOps > 0
    case RunWrite => w.strand.Nothing? && w.postedWrites > 0
    case WriteDone(_) => w.strand.Nothing? && w.writeOps > 0
    case RunClose => w.strand.Nothing?
    case RunKick => w.strand.Nothing?
    case CloseDone(_) => w.strand.Nothing? && w.closeOps > 0
    case DeadlineFires(g) => w.strand.Nothing? && g in w.deadlines
    case RunReady(k) => w.strand.Nothing? && k < |w.ready|
    case Continue => !w.strand.Nothing?
    case BlockingReceive(_, _) => true
    case ResumeReceive(id) => id in w.receivers && ReceiveReady(w.s)
    case ReceiveDeadline(id) => id in w.receivers && w.receivers[id]
    case AsyncReceive(_, _) => true
    case BlockingSend(_, m) => Sendable(m) ==> w.turn.Free?
    case TakeTurn => w.turn.Waiting? && SendReady(w.s)
    case FinishTurn => w.turn.InFlight? && (w.s.writeComplete || w.s.failed)
    case AsyncSend(_, _) => true
    case PostWrite => w.writesDue > 0
    case Abort => true
  }

  function Blocked(s: Session, delta: int): (r: Session)
    ensures r == s.(blockedReceivers := r.blockedReceivers)
  {
    s.(blockedReceivers := if s.blockedReceivers + delta < 0 then 0 else s.blockedReceivers + delta)
  }

  /** The lock section a step runs. */
  function Section(w: World, step: Step): Effect
    requires Enabled(w, step)
  {
    match step
    case RunPump => PumpRead(w.s)
    case ReadClosed => OnReadClosed(w.s)
    case ReadFailed(ec) => OnReadError(w.s, ec)
    case ReadMessage(binary, bytes) => OnReadMessage(w.s, binary, bytes)
    case RunWrite => StartWrite(w.s)
    case WriteDone(ec) => OnWrite(w.s, ec)
    case RunClose => RequestClose(w.s)
    case RunKick => RequestKick(w.s)
    case CloseDone(ec) => OnClose(w.s, ec)
    case DeadlineFires(g) => OnDeadline(w.s, g)
    case RunReady(k) => Plain(w.s, [ReceiveDone(w.ready[k].0, Got(w.ready[k].1))])
    case Continue =>
      (match w.strand
       case Pump => PumpRead(w.s)
       case FailNext => Fail(w.s)
       case _ => Plain(w.s, []))
    case BlockingReceive(id, _) => if ReceiveReady(w.s) then FinishReceive(w.s, id) else Plain(Blocked(w.s, 1), [])
    case ResumeReceive(id) => FinishReceive(Blocked(w.s, -1), id)
    case ReceiveDeadline(id) =>
      if ReceiveReady(w.s) then FinishReceive(Blocked(w.s, -1), id)
      else Plain(Blocked(w.s, -1), [ReceiveDone(id, ReceiveTimeout)])
    case AsyncReceive(id, timeout) => ReceiveAsync(w.s, id, timeout)
    case BlockingSend(id, m) => Plain(w.s, if Sendable(m) then [] else [SendDone(id, SendInvalid)])
    case TakeTurn => BeginWrite(w.s, w.turn.id)
    case FinishTurn => EndWrite(w.s, w.turn.id)
    case AsyncSend(id, m) => if Sendable(m) then SendAsync(w.s, id) else Plain(w.s, [SendDone(id, SendInvalid)])
    case PostWrite => Plain(w.s, [])
    case Abort => Fail(w.s)
  }

  /** Only the strand's own steps move it. */
  predicate OnStrand(step: Step) {
    match step
    case BlockingReceive(_, _) => false
    case ResumeReceive(_) => false
    case ReceiveDeadline(_) => false
    case AsyncReceive(_, _) => false
    case BlockingSend(_, _) => false
    case TakeTurn => false
    case FinishTurn => false
    case AsyncSend(_, _) => false
    case PostWrite => false
    case Abort => false
    case _ => true
  }

  predicate Parked(w: World, step: Step, e: Effect) {
    step.AsyncReceive? && e.events == [] && e.postsReady.None?
  }

  function Minus(n: nat, b: bool): nat {
    if b && n > 0 then n - 1 else n
  }

  function Plus(n: nat, b: bool): nat {
    if b then n + 1 else n
  }

  /** A begun write belongs to the call that began it until the next is begun; it goes out, and it ends. */
  function Sending(o: Outgoing, turn: Turn, step: Step, e: Effect): Outgoing {
    match step
    case BlockingSend(id, m) => o.(sends := o.sends[id := m])
    case AsyncSend(id, m) => o.(sends := o.sends[id := m], writer := if e.postsWrite then Some(id) else o.writer)
    case TakeTurn => o.(writer := if e.postsWrite && turn.Waiting? then Some(turn.id) else o.writer)
    case RunWrite =>
      if o.writer.None? then o
      else if e.then_.ArmWrite? then o.(wire := o.wire + [o.writer.value])
      else o.(outcomes := o.outcomes[o.writer.value := false])
    case WriteDone(ec) => if o.writer.None? then o else o.(outcomes := o.outcomes[o.writer.value := ec == Success])
    case _ => o
  }

  function Next(w: World, step: Step): World
    requires Enabled(w, step)
  {
    var e := Section(w, step);
    var c := step.Continue?;
    World(
      e.s,
      if OnStrand(step) then e.then_ else w.strand,
      Plus(Minus(w.readOps, step.ReadClosed? || step.ReadFailed? || step.ReadMessage?), c && w.strand.ArmRead?),
      Plus(Minus(w.writeOps, step.WriteDone?), c && w.strand.ArmWrite?),
      Plus(Minus(w.closeOps, step.CloseDone?), c && w.strand.ArmClose?),
      Plus(w.closesEver, c && w.strand.ArmClose?),
      Plus(Minus(w.postedPumps, step.RunPump?), e.postsPump),
      Plus(Minus(w.writesDue, step.PostWrite?), e.postsWrite),
      Plus(Minus(w.postedWrites, step.RunWrite?), step.PostWrite?),
      (if step.RunReady? then w.ready[..step.k] + w.ready[step.k + 1..] else w.ready) +
        (match e.postsReady case None => [] case Some(r) => [r]),
      match step {
        case BlockingReceive(id, timed) => if e.events == [] then w.receivers[id := timed] else w.receivers
        case ResumeReceive(id) => w.receivers - {id}
        case ReceiveDeadline(id) => w.receivers - {id}
        case _ => w.receivers
      },
      match step {
        case BlockingSend(id, m) => if Sendable(m) then Waiting(id) else w.turn
        case TakeTurn => if e.events == [] then InFlight(w.turn.id) else Free
        case FinishTurn => Free
        case _ => w.turn
      },
      if Parked(w, step, e) && step.timeout.Some? then w.deadlines[e.s.generation := step.id]
      else if step.DeadlineFires? then w.deadlines - {step.generation}
      else w.deadlines,
      w.issued + Made(step),
      w.arrived + Arrived(step),
      w.taken + (if step.RunReady? then [] else Takes(e)),
      w.events + e.events,
      Sending(w.outgoing, w.turn, step, e))
  }

  /** `Start` has posted the first pump. */
  const START: World :=
    World(Initial(), Nothing, 0, 0, 0, 0, 1, 0, 0, [], map[], Free, map[], {}, [], [], [], Outgoing(map[], None, map[], []))

  // ----- the wire -----

  /** Exactly one place holds the right to read, or none does any more. */
  ghost predicate ReadOk(w: World) {
    w.readOps + w.postedPumps + AsCount(w.strand.ArmRead? || w.strand.Pump?) + AsCount(w.s.readPaused) <= 1 &&
    (w.strand.ArmRead? ==> !w.s.closeStarted)
  }

  /** A write is somewhere between its Send and its completion exactly while it is not complete. */
  ghost predicate WriteOk(w: World) {
    w.writeOps + w.postedWrites + w.writesDue + AsCount(w.strand.ArmWrite?) == AsCount(!w.s.writeComplete) &&
    AsCount(w.s.wireWriteBusy) == w.writeOps + AsCount(w.strand.ArmWrite?) &&
    SendSlotOk(w.s)
  }

  /** The close operation is started at most once, and never beside a write. */
  ghost predicate CloseOk(w: World) {
    w.closesEver + AsCount(w.strand.ArmClose?) == AsCount(w.s.closeStarted) && w.closeOps <= w.closesEver &&
    CloseFlagsOk(w.s)
  }

  // ----- the messages -----

  ghost predicate QueueOk(w: World) {
    |w.s.received| <= QUEUE_DEPTH &&
    (w.readOps > 0 || w.strand.ArmRead? ==> |w.s.received| < QUEUE_DEPTH) &&
    ReceiveSlotOk(w.s) &&
    w.arrived == w.taken + w.s.received
  }

  ghost predicate WireInv(w: World) {
    ReadOk(w) && WriteOk(w) && CloseOk(w) && QueueOk(w)
  }

  // Each invariant is kept in two halves: what the section does to the fields, and what the step does around it.

  /** The step hands its section the right to read. */
  predicate BringsRead(w: World, step: Step) {
    step.RunPump? || step.ReadMessage? || (step.Continue? && w.strand.Pump?)
  }

  function PhaseOf(step: Step): Phase {
    if step.RunWrite? then Starting else if step.WriteDone? then Phase.Ending else Elsewhere
  }

  /** The message a step reads off the wire. */
  function Arrived(step: Step): seq<Message> {
    if step.ReadMessage? && Arrival(step.binary, step.bytes).Some? then [Arrival(step.binary, step.bytes).value] else []
  }

  lemma SectionLaws(w: World, step: Step)
    requires Enabled(w, step) && !step.RunReady?
    ensures Laws(w.s, Section(w, step), BringsRead(w, step), PhaseOf(step), Arrived(step))
  {
    if OnStrand(step) {
      StrandLaws(w, step);
    } else {
      FacadeLaws(w, step);
    }
  }

  lemma StrandLaws(w: World, step: Step)
    requires Enabled(w, step) && !step.RunReady? && OnStrand(step)
    ensures Laws(w.s, Section(w, step), BringsRead(w, step), PhaseOf(step), Arrived(step))
  {
    hide Laws, Sendable, PumpRead, OnReadClosed, OnReadError, Fail, OnReadMessage, StartWrite, OnWrite, RequestClose, RequestKick,
      OnClose, OnDeadline, FinishReceive, ReceiveAsync, BeginWrite, EndWrite, SendAsync, Arrival, PumpLaw, ParksNothing, OffStrand;
    match step
    case RunPump => PumpReadLaws(w.s);
    case ReadClosed => OnReadClosedLaws(w.s);
    case ReadFailed(ec) => OnReadErrorLaws(w.s, ec);
    case ReadMessage(binary, bytes) => OnReadMessageLaws(w.s, binary, bytes);
    case RunWrite => StartWriteLaws(w.s);
    case WriteDone(ec) => OnWriteLaws(w.s, ec);
    case RunClose => RequestCloseLaws(w.s);
    case RunKick => RequestKickLaws(w.s);
    case CloseDone(ec) => OnCloseLaws(w.s, ec);
    case DeadlineFires(g) => OnDeadlineLaws(w.s, g);
    case Continue =>
      match w.strand {
        case Pump => PumpReadLaws(w.s);
        case FailNext => FailLaws(w.s);
        case _ => PlainLaws(w.s, w.s, []);
      }
  }

  lemma FacadeLaws(w: World, step: Step)
    requires Enabled(w, step) && !OnStrand(step)
    ensures Laws(w.s, Section(w, step), BringsRead(w, step), PhaseOf(step), Arrived(step))
  {
    hide Laws, Sendable, PumpRead, OnReadClosed, OnReadError, Fail, OnReadMessage, StartWrite, OnWrite, RequestClose, RequestKick,
      OnClose, OnDeadline, FinishReceive, ReceiveAsync, BeginWrite, EndWrite, SendAsync, Arrival, PumpLaw, ParksNothing, OffStrand;
    match step
    case BlockingReceive(id, _) =>
      if ReceiveReady(w.s) {
        FinishReceiveLaws(w.s, w.s, id);
      } else {
        PlainLaws(w.s, Blocked(w.s, 1), []);
      }
    case ResumeReceive(id) => FinishReceiveLaws(w.s, Blocked(w.s, -1), id);
    case ReceiveDeadline(id) =>
      if ReceiveReady(w.s) {
        FinishReceiveLaws(w.s, Blocked(w.s, -1), id);
      } else {
        PlainLaws(w.s, Blocked(w.s, -1), [ReceiveDone(id, ReceiveTimeout)]);
      }
    case AsyncReceive(id, timeout) => ReceiveAsyncLaws(w.s, id, timeout);
    case BlockingSend(id, m) => PlainLaws(w.s, w.s, if Sendable(m) then [] else [SendDone(id, SendInvalid)]);
    case TakeTurn => BeginWriteLaws(w.s, w.turn.id);
    case FinishTurn => EndWriteLaws(w.s, w.turn.id);
    case AsyncSend(id, m) =>
      if Sendable(m) {
        SendAsyncLaws(w.s, id);
      } else {
        PlainLaws(w.s, w.s, [SendDone(id, SendInvalid)]);
      }
    case PostWrite => PlainLaws(w.s, w.s, []);
    case Abort => FailLaws(w.s);
  }

  /** A facade section leaves the strand and the wire alone. */
  lemma FacadeSection(w: World, step: Step)
    requires Enabled(w, step) && !OnStrand(step)
    ensures OffStrand(w.s, Section(w, step))
  {
    hide FinishReceive, ReceiveAsync, BeginWrite, EndWrite, SendAsync, Fail, ReceiveReady, SendReady, Sendable, Blocked, PumpLaw, ParksNothing;
    match step
    case BlockingReceive(id, _) =>
    case ResumeReceive(id) => assert OffStrand(Blocked(w.s, -1), FinishReceive(Blocked(w.s, -1), id));
    case ReceiveDeadline(id) => assert OffStrand(Blocked(w.s, -1), FinishReceive(Blocked(w.s, -1), id));
    case AsyncReceive(id, timeout) => assert OffStrand(w.s, ReceiveAsync(w.s, id, timeout));
    case BlockingSend(_, _) =>
    case TakeTurn => assert OffStrand(w.s, BeginWrite(w.s, w.turn.id));
    case FinishTurn => assert OffStrand(w.s, EndWrite(w.s, w.turn.id));
    case AsyncSend(_, _) =>
    case PostWrite =>
    case Abort => assert OffStrand(w.s, Fail(w.s));
  }

  /** Running a posted completion touches no field. */
  lemma ReadySection(w: World, step: Step)
    requires Enabled(w, step) && step.RunReady?
    ensures var e := Section(w, step);
            e.s == w.s && e.then_.Nothing? && !e.postsPump && e.postsReady.None? && !e.postsWrite && |e.events| == 1
  {
  }

  /** Everything the three wire invariants need to know about a section. */
  lemma SectionSummary(w: World, step: Step)
    requires Enabled(w, step)
    ensures var e := Section(w, step);
            ReadLaw(w.s, e, BringsRead(w, step)) && WriteLaw(w.s, e, PhaseOf(step)) && CloseLaw(w.s, e) &&
            (!OnStrand(step) ==> e.then_.Nothing? && e.s.closeStarted == w.s.closeStarted)
  {
    if step.RunReady? {
      ReadySection(w, step);
    } else {
      SectionLaws(w, step);
    }
    if !OnStrand(step) {
      FacadeSection(w, step);
    }
    hide Section;
  }

  lemma {:induction false} StepKeepsRead(w: World, step: Step)
    requires Enabled(w, step) && ReadOk(w)
    ensures ReadOk(Next(w, step))
  {
    SectionSummary(w, step);
    hide Section, Takes, Parked, Arrived, Made, Sending, Sendable, WriteLaw, CloseLaw;
  }

  lemma {:induction false} StepKeepsWrite(w: World, step: Step)
    requires Enabled(w, step) && WriteOk(w)
    ensures WriteOk(Next(w, step))
  {
    SectionSummary(w, step);
    hide Section, Takes, Parked, Arrived, Made, Sending, Sendable, ReadLaw, CloseLaw;
  }

  lemma {:induction false} StepKeepsClose(w: World, step: Step)
    requires Enabled(w, step) && CloseOk(w)
    ensures CloseOk(Next(w, step))
  {
    SectionSummary(w, step);
    hide Section, Takes, Parked, Arrived, Made, Sending, Sendable, ReadLaw, WriteLaw;
  }

  lemma {:induction false} StepKeepsQueue(w: World, step: Step)
    requires Enabled(w, step) && QueueOk(w) && ReadOk(w)
    ensures QueueOk(Next(w, step))
  {
    SectionSummary(w, step);
    if step.RunReady? {
      ReadySection(w, step);
    } else {
      SectionLaws(w, step);
    }
    hide Section, Takes, Parked, Made, Sending, Sendable, WriteLaw, CloseLaw;
    var e := Section(w, step);
    QueueStep(w.arrived, w.taken, w.s.received, Arrived(step), if step.RunReady? then [] else Takes(e), e.s.received);
  }
}
