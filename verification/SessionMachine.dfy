/**
 * One WebSocket session as a state machine over its atomic actions.
 *
 * A session is driven by handlers that its strand runs one at a time, and by
 * other threads that may call `send` and `close` at any moment. A handler is not
 * one step here: it is a program counter that moves from one access to shared
 * state to the next, so that other threads interleave inside handlers as well as
 * between them. What Asio still owes the session (posted handlers, outstanding
 * reads, waits and writes) is counted, so that "at most one" is a property to
 * prove and not a choice of type.
 */
module SessionMachine {
  import opened Wrappers
  import opened JsonValues
  import opened Protocol
  import opened Registry

  const MAX_WRITE_QUEUE_SIZE := 100
  const PLACEHOLDER_SEAT: int32 := -1
  const PLACEHOLDER_STACK: int64 := 0

  datatype Phase = Unauthenticated | Authenticated | Closed

  /** A queued message: one the session composes itself, or text from another component. */
  datatype Frame =
    | ErrorFrame(error: ErrorMessage)
    | HandshakeFrame(handshake: HandshakeResponse)
    | ReloadFrame(reload: ReloadResponse)
    | TextFrame(text: string)

  /** Where a handler continues once an attempt to close has run its course. */
  datatype Next = Done | Rearm

  /** The next atomic action of the handler the strand is running. */
  datatype Pc =
    | Idle
    | Fail(code: string, text: string, next: Next)  // queue a protocol error, then close
    | RequestClose(next: Next)                      // close(): store close_requested_
    | CheckWriter(next: Next)                       // its callback, inline on the strand: read writing_
    | FinishClose(next: Next)                       // do_close(): CAS and exchange
    | Unregister(next: Next)                        // drop the registry entry
    | Draw(attempt: Attempt)                        // register_session: draw an id
    | Emplace(attempt: Attempt, id: string)         // register_session: its critical section
    | SetId(id: string)                             // handshake: store session_id_
    | Respond(id: string)                           // handshake: queue the response
    | Authenticate                                  // handshake: store authenticated
    | Credit(amount: int64)                         // reload: queue the response, commit the stack
    | RearmTimer                                    // on_read's last guard: extend the deadline
    | StartRead                                     // do_read's own guard: start a read
    | DropFrame                                     // do_write after a failed allocation

  /** The write pipeline; `accepted` and `written` record its whole input and output. */
  datatype Writer = Writer(writing: bool, queue: seq<Frame>, posted: nat, inFlight: seq<Frame>,
                           accepted: seq<Frame>, written: seq<Frame>, failed: bool, lost: bool)

  /** Outstanding accepts and reads, and timer waits by the outcome they will deliver. */
  datatype Chains = Chains(accepting: nat, reading: nat, pending: nat, expired: nat, aborted: nat, faulted: nat)

  /** The account; `seqs` and `credits` record the accepted sequence numbers and credited amounts. */
  datatype Account = Account(sid: string, lastSeq: int64, stack: int64, seqs: seq<int64>, credits: seq<int64>)

  datatype Session = Session(
    phase: Phase,
    closeRequested: bool,
    closeInitiated: bool,
    callbacks: nat,   // close callbacks on their way to the strand
    closers: nat,     // other threads between the two halves of close()
    pc: Pc,
    w: Writer,
    io: Chains,
    account: Account)

  /**
   * What a session makes of a message; module SessionMessages computes it from
   * the traffic checks and the JSON, and proves that it fits the session.
   */
  datatype Verdict =
    | Refused(code: string, text: string, next: Next)
    | Greeting
    | Sequenced(n: int64, maxGap: int64)
    | Reload(amount: int64)
    | Goodbye

  /** What the registry has to say, of which the two steps of register_session each read one part. */
  datatype Answer = Answer(id: string, result: EmplaceResult)

  const NO_ANSWER := Answer("", MaxConnections)

  datatype Action =
    // other threads
    | Send(text: string)
    | CloseStore
    | CloseDispatch
    // the clock
    | TimerExpires
    | TimerFails
    // handlers the strand starts
    | AcceptDone(ok: bool)
    | Message(verdict: Verdict)
    | ReadFailed
    | RunPosted
    | RunPostedNoMemory
    | WriteDone(ok: bool)
    | RunCallback
    | TimerFired
    | TimerAborted
    | TimerFaulted
    // the next atomic action of the handler already running
    | StrandStep(answer: Answer)

  /** A session after its constructor and `run()`. */
  function Init(): Session {
    Session(Unauthenticated, false, false, 0, 0, Idle,
            Writer(false, [], 0, [], [], [], false, false),
            Chains(1, 0, 1, 0, 0, 0),
            Account("", -1, PLACEHOLDER_STACK, [], []))
  }

  /** A message handler between deciding on a handshake and completing it. */
  predicate Handshaking(pc: Pc) {
    Registering(pc) || pc.SetId? || pc.Respond? || pc.Authenticate?
  }

  predicate Registering(pc: Pc) {
    pc.Draw? || pc.Emplace?
  }

  // ----- pieces of handlers

  function After(next: Next): Pc {
    if next.Done? then Idle else RearmTimer
  }

  function SidOption(sid: string): Option<string> {
    if sid == "" then None else Some(sid)
  }

  /** A session that still does business. */
  predicate Open(s: Session) {
    s.phase != Closed && !s.closeRequested
  }

  /** The critical section of `queue_message`, and what it returns. */
  function Enqueue(s: Session, f: Frame): (Session, bool) {
    if !Open(s) || |s.w.queue| >= MAX_WRITE_QUEUE_SIZE then (s, false) else
      (s.(w := s.w.(queue := s.w.queue + [f], accepted := s.w.accepted + [f], writing := true,
                    posted := if s.w.writing then s.w.posted else s.w.posted + 1)),
       true)
  }

  /** `cancel()` and `expires_after()`: waits that have not expired yet complete as aborted. */
  function CancelWaits(io: Chains): Chains {
    io.(pending := 0, aborted := io.aborted + io.pending)
  }

  /** The first half of close() on another thread. */
  function StoreClose(s: Session): Session {
    s.(closeRequested := true, closers := s.closers + 1)
  }

  /** The second half of close() on another thread. */
  function DispatchClose(s: Session): Session
    requires s.closers > 0
  {
    s.(closers := s.closers - 1, callbacks := if s.phase == Closed then s.callbacks else s.callbacks + 1)
  }

  /** do_close() up to the registry. */
  function BeginClose(s: Session, next: Next): Session {
    if s.closeInitiated then s.(pc := After(next))
    else if s.phase == Closed then s.(closeInitiated := true, pc := After(next))
    else s.(closeInitiated := true, phase := Closed, io := CancelWaits(s.io),
            pc := if s.account.sid != "" then Unregister(next) else After(next))
  }

  /** min(stack + amount, MAX_AMOUNT) with the int64 addition of the source. */
  function NewStack(stack: int64, amount: int64): int64 {
    var sum := ToInt64(stack + amount);
    if sum < MAX_AMOUNT then sum else MAX_AMOUNT
  }

  /** The gap check of the source, in its unsigned arithmetic. */
  function SequenceGap(seqNumber: int64, last: int64): uint64 {
    ToUint64(ToUint64(seqNumber) - ToUint64(last))
  }

  // ----- the handlers' first actions

  /** The verdicts a session in this state can reach. */
  predicate Fits(s: Session, v: Verdict) {
    match v
    case Refused(_, _, _) => true
    case Greeting => s.phase == Unauthenticated
    case Sequenced(n, maxGap) =>
      s.phase == Authenticated && n > s.account.lastSeq && SequenceGap(n, s.account.lastSeq) <= ToUint64(maxGap)
    case Reload(amount) => s.phase == Authenticated && ValidAmount(amount)
    case Goodbye => s.phase == Authenticated
  }

  /** on_read with a message, up to its first access to shared state. */
  function HandleMessage(s: Session, v: Verdict): Session {
    if s.phase == Closed then s else
      match v
      case Refused(code, text, next) => s.(pc := Fail(code, text, next))
      case Greeting => s.(pc := Draw(0))
      case Sequenced(n, _) =>
        s.(account := s.account.(lastSeq := n, seqs := s.account.seqs + [n]), pc := RearmTimer)
      case Reload(amount) => s.(pc := Credit(amount))
      case Goodbye => s.(pc := RequestClose(Rearm))
  }

  function HandleAccept(s: Session, ok: bool): Session {
    if ok then (if Open(s) then s.(pc := StartRead) else s)
    else if s.phase == Closed then s
    else s.(phase := Closed, io := CancelWaits(s.io))
  }

  function HandleReadFailure(s: Session): Session {
    if s.phase == Closed then s else
      s.(phase := Closed, io := CancelWaits(s.io), pc := if s.account.sid != "" then Unregister(Done) else Idle)
  }

  /** do_write; when `memory` is false the frame is popped and its buffer cannot be allocated. */
  function HandlePosted(s: Session, memory: bool): Session {
    if s.phase == Closed || s.w.queue == [] then s.(w := s.w.(writing := false)) else
      var front, rest := s.w.queue[0], s.w.queue[1..];
      if memory then s.(w := s.w.(queue := rest, inFlight := s.w.inFlight + [front]))
      else s.(w := s.w.(queue := rest, lost := true), pc := DropFrame)
  }

  function HandleWritten(s: Session, f: Frame): Session {
    var w := s.w.(written := s.w.written + [f]);
    if w.queue != [] then s.(w := w.(writing := true, posted := w.posted + 1))
    else s.(w := w.(writing := false), pc := if s.closeRequested then FinishClose(Done) else Idle)
  }

  function HandleWriteFailure(s: Session): Session {
    s.(w := s.w.(writing := false, queue := [], failed := true), closeRequested := true, pc := FinishClose(Done))
  }

  function HandleCallback(s: Session): Session {
    if s.w.writing then s else s.(pc := FinishClose(Done))
  }

  function HandleTimer(s: Session): Session {
    if s.phase == Closed then s
    else s.(pc := Fail("SESSION_CLOSED",
                       if s.phase == Unauthenticated then "Handshake timeout" else "Idle timeout", Done))
  }

  /** A wait that did not expire is started again while the session does business. */
  function HandleWaitAgain(s: Session): Session {
    if Open(s) then s.(io := s.io.(pending := s.io.pending + 1)) else s
  }

  /** A handler about to queue a message of the session's own. */
  predicate Queues(pc: Pc) {
    pc.Fail? || pc.Respond? || pc.Credit?
  }

  /** The message such a handler queues. */
  function Outgoing(s: Session): Frame
    requires Queues(s.pc)
  {
    match s.pc
    case Fail(code, text, _) => ErrorFrame(ErrorMessage(code, text, SidOption(s.account.sid)))
    case Respond(id) => HandshakeFrame(HandshakeResponse(id, PLACEHOLDER_SEAT, PLACEHOLDER_STACK))
    case Credit(amount) => ReloadFrame(ReloadResponse(true, NewStack(s.account.stack, amount)))
  }

  /** How it goes on: an error is followed by a close in any case, the others only if they were not queued. */
  function AfterQueueing(s: Session, queued: bool): Session
    requires Queues(s.pc)
  {
    match s.pc
    case Fail(_, _, next) => s.(pc := RequestClose(next))
    case Respond(_) => s.(pc := if queued then Authenticate else RequestClose(Rearm))
    case Credit(amount) =>
      if queued then
        s.(account := s.account.(stack := NewStack(s.account.stack, amount), credits := s.account.credits + [amount]),
           pc := RearmTimer)
      else s.(pc := RequestClose(Rearm))
  }

  /** register_session has returned without an id. */
  function NoId(s: Session): Session {
    s.(pc := Fail("PROTOCOL_ERROR", "Failed to generate unique session ID", Rearm))
  }

  function AfterEmplacement(s: Session, result: EmplaceResult): Session
    requires s.pc.Emplace?
  {
    match result
    case Success => s.(pc := SetId(s.pc.id))
    case MaxConnections => NoId(s)
    case Collision => if s.pc.attempt + 1 < MAX_SESSION_ID_RETRIES then s.(pc := Draw(s.pc.attempt + 1)) else NoId(s)
  }

  /** The other atomic actions of handlers. */
  function Proceed(s: Session, answer: Answer): Session
    requires !Queues(s.pc)
  {
    match s.pc
    case Idle => s
    case RequestClose(next) => s.(closeRequested := true, pc := CheckWriter(next))
    case CheckWriter(next) => s.(pc := if s.phase == Closed || s.w.writing then After(next) else FinishClose(next))
    case FinishClose(next) => BeginClose(s, next)
    case Unregister(next) => s.(pc := After(next))
    case Draw(attempt) =>
      if answer.id == "" || |answer.id| > MAX_SESSION_ID_LENGTH then NoId(s) else s.(pc := Emplace(attempt, answer.id))
    case Emplace(_, _) => AfterEmplacement(s, answer.result)
    case SetId(id) => s.(account := s.account.(sid := id), pc := Respond(id))
    case Authenticate => s.(phase := Authenticated, pc := RearmTimer)
    case RearmTimer => if Open(s) then s.(io := CancelWaits(s.io), pc := StartRead) else s.(pc := Idle)
    case StartRead => if Open(s) then s.(io := s.io.(reading := s.io.reading + 1), pc := Idle) else s.(pc := Idle)
    case DropFrame => s.(w := s.w.(writing := false), pc := RequestClose(Done))
  }

  /** The next atomic action of the running handler. */
  function Continue(s: Session, answer: Answer): Session {
    if Queues(s.pc) then
      var (s', queued) := Enqueue(s, Outgoing(s));
      AfterQueueing(s', queued)
    else Proceed(s, answer)
  }

  // ----- the machine

  predicate Enabled(s: Session, a: Action) {
    match a
    case Send(_) => true
    case CloseStore => true
    case CloseDispatch => s.closers > 0
    case TimerExpires => s.io.pending > 0
    case TimerFails => s.io.pending > 0
    case AcceptDone(_) => s.pc == Idle && s.io.accepting > 0
    case Message(v) => s.pc == Idle && s.io.reading > 0 && Fits(s, v)
    case ReadFailed => s.pc == Idle && s.io.reading > 0
    case RunPosted => s.pc == Idle && s.w.posted > 0
    case RunPostedNoMemory => s.pc == Idle && s.w.posted > 0
    case WriteDone(_) => s.pc == Idle && s.w.inFlight != []
    case RunCallback => s.pc == Idle && s.callbacks > 0
    case TimerFired => s.pc == Idle && s.io.expired > 0
    case TimerAborted => s.pc == Idle && s.io.aborted > 0
    case TimerFaulted => s.pc == Idle && s.io.faulted > 0
    case StrandStep(_) => s.pc != Idle
  }

  /** Actions that need no turn on the strand. */
  predicate OffStrand(a: Action) {
    a.Send? || a.CloseStore? || a.CloseDispatch? || a.TimerExpires? || a.TimerFails?
  }

  /** The handlers of the reading side, of the writing side, and of the deadline. */
  predicate ReadHandler(a: Action) {
    a.AcceptDone? || a.Message? || a.ReadFailed?
  }

  predicate WriteHandler(a: Action) {
    a.RunPosted? || a.RunPostedNoMemory? || a.WriteDone? || a.RunCallback?
  }

  predicate TimerHandler(a: Action) {
    a.TimerFired? || a.TimerAborted? || a.TimerFaulted?
  }

  /** A handler on its way through a close. */
  predicate Closes(pc: Pc) {
    pc.RequestClose? || pc.CheckWriter? || pc.FinishClose? || pc.Unregister? || pc.DropFrame?
  }

  function ActOffStrand(s: Session, a: Action): Session
    requires OffStrand(a) && Enabled(s, a)
  {
    match a
    case Send(text) => Enqueue(s, TextFrame(text)).0
    case CloseStore => StoreClose(s)
    case CloseDispatch => DispatchClose(s)
    case TimerExpires => s.(io := s.io.(pending := s.io.pending - 1, expired := s.io.expired + 1))
    case TimerFails => s.(io := s.io.(pending := s.io.pending - 1, faulted := s.io.faulted + 1))
  }

  /** The strand takes up a handler Asio owes it. */
  function StartHandler(s: Session, a: Action): Session
    requires !OffStrand(a) && !a.StrandStep? && Enabled(s, a)
  {
    match a
    case AcceptDone(ok) => HandleAccept(s.(io := s.io.(accepting := s.io.accepting - 1)), ok)
    case Message(v) => HandleMessage(s.(io := s.io.(reading := s.io.reading - 1)), v)
    case ReadFailed => HandleReadFailure(s.(io := s.io.(reading := s.io.reading - 1)))
    case RunPosted => HandlePosted(s.(w := s.w.(posted := s.w.posted - 1)), true)
    case RunPostedNoMemory => HandlePosted(s.(w := s.w.(posted := s.w.posted - 1)), false)
    case WriteDone(ok) =>
      var s' := s.(w := s.w.(inFlight := s.w.inFlight[1..]));
      if ok then HandleWritten(s', s.w.inFlight[0]) else HandleWriteFailure(s')
    case RunCallback => HandleCallback(s.(callbacks := s.callbacks - 1))
    case TimerFired => HandleTimer(s.(io := s.io.(expired := s.io.expired - 1)))
    case TimerAborted => HandleWaitAgain(s.(io := s.io.(aborted := s.io.aborted - 1)))
    case TimerFaulted => HandleWaitAgain(s.(io := s.io.(faulted := s.io.faulted - 1)))
  }

  function Act(s: Session, a: Action): Session
    requires Enabled(s, a)
  {
    if OffStrand(a) then ActOffStrand(s, a)
    else if a.StrandStep? then Continue(s, a.answer)
    else StartHandler(s, a)
  }

  /** An action that is not enabled changes nothing, so every sequence of actions is a run. */
  function Step(s: Session, a: Action): Session {
    if Enabled(s, a) then Act(s, a) else s
  }

  function Run(s: Session, actions: seq<Action>): Session {
    if actions == [] then s else
      Step(Run(s, actions[..|actions| - 1]), actions[|actions| - 1])
  }

  lemma {:induction false} RunConcat(s: Session, before: seq<Action>, after: seq<Action>)
    ensures Run(s, before + after) == Run(Run(s, before), after)
  {
    if after == [] {
      assert before + after == before;
    } else {
      var init := after[..|after| - 1];
      RunConcat(s, before, init);
      assert (before + after)[..|before + after| - 1] == before + init;
    }
  }

  lemma RunLast(s: Session, actions: seq<Action>, a: Action)
    ensures Run(s, actions + [a]) == Step(Run(s, actions), a)
  {
    assert (actions + [a])[..|actions|] == actions;
  }

  lemma RunSingle(s: Session, a: Action)
    ensures Run(s, [a]) == Step(s, a)
  {
    assert [a][..0] == [];
    assert Run(s, []) == s;
  }

  lemma RunFirst(s: Session, a: Action, rest: seq<Action>)
    ensures Run(s, [a] + rest) == Run(Step(s, a), rest)
  {
    RunConcat(s, [a], rest);
    RunSingle(s, a);
  }

  lemma RunTwo(s: Session, a: Action, b: Action)
    ensures Run(s, [a, b]) == Step(Step(s, a), b)
  {
    RunFirst(s, a, [b]);
    RunSingle(Step(s, a), b);
    assert [a, b] == [a] + [b];
  }
}
