/**
 * What comes of a message, an expired deadline or a registration once the handler
 * it starts has run to its end: when the session accepts, when it refuses and
 * with which error, in terms of the raw JSON and of nothing the handlers use.
 */
module SessionOutcomes {
  import opened Wrappers
  import opened JsonValues
  import opened Protocol
  import opened ProtocolProofs
  import opened RateLimiter
  import opened Registry
  import opened SessionMachine
  import opened SessionChains
  import opened SessionClosing
  import opened SessionAccount
  import opened SessionMessages
  import opened SessionTraffic

  // ----- handlers that nobody interrupts

  /** The running handler at its end, if the registry gives this answer whenever it is asked. */
  function AtItsEnd(s: Session, answer: Answer): Session
    decreases Remaining(s.pc)
  {
    if s.pc == Idle then s else
      TurnAdvances(s, answer);
      AtItsEnd(Continue(s, answer), answer)
  }

  /** A handler with nothing left to do but to close or to read on. */
  predicate Ebbing(pc: Pc) {
    pc.RequestClose? || pc.CheckWriter? || pc.FinishClose? || pc.Unregister?
    || pc.RearmTimer? || pc.StartRead? || pc.Idle?
  }

  /** It queues nothing and leaves the account alone, and a close is requested if that is what it set out to do. */
  lemma {:induction false} EbbsQuietly(s: Session, answer: Answer)
    requires Ebbing(s.pc)
    ensures var s' := AtItsEnd(s, answer);
            && s'.pc == Idle && s'.w == s.w && s'.account == s.account
            && s'.closeRequested == (s.closeRequested || s.pc.RequestClose?)
            && (s'.phase == s.phase || s'.phase == Closed)
    decreases Remaining(s.pc)
  {
    if s.pc == Idle {
    } else {
      TurnAdvances(s, answer);
      EbbsQuietly(Continue(s, answer), answer);
    }
  }

  /** What reading on leaves: the wait for the old deadline is cancelled, and a read is outstanding again. */
  lemma ReadsOn(s: Session, answer: Answer)
    requires s.pc == RearmTimer
    ensures AtItsEnd(s, answer)
            == if s.phase != Closed && !s.closeRequested then
                 s.(io := s.io.(pending := 0, aborted := s.io.aborted + s.io.pending, reading := s.io.reading + 1),
                    pc := Idle)
               else s.(pc := Idle)
  {
    var s1 := Continue(s, answer);
    assert AtItsEnd(s, answer) == AtItsEnd(s1, answer);
    if s1.pc == StartRead {
      assert AtItsEnd(s1, answer) == AtItsEnd(Continue(s1, answer), answer);
    }
  }

  /** The deadline that was running is cancelled, to be waited for anew, and a read is outstanding. */
  predicate Extended(before: Session, after: Session) {
    after.io.pending == 0 && after.io.aborted == before.io.aborted + before.io.pending && after.io.reading > 0
  }

  /** The session takes messages from anybody who sends one. */
  predicate TakesMessages(s: Session) {
    s.phase != Closed && !s.closeRequested && |s.w.queue| < 100
  }

  /** The error as the client gets it, with the session's id if there is one. */
  function ErrorOf(s: Session, code: string, text: string): Frame {
    ErrorFrame(ErrorMessage(code, text, if s.account.sid == "" then None else Some(s.account.sid)))
  }

  /** From `before` to `after` the session was refused: told why if it could be, and asked to close. */
  predicate Refusal(before: Session, after: Session, code: string, text: string) {
    && after.pc == Idle && after.closeRequested && after.account == before.account
    && after.w.accepted
       == before.w.accepted + (if TakesMessages(before) then [ErrorOf(before, code, text)] else [])
  }

  lemma FailIsRefusal(s: Session, code: string, text: string, next: Next, answer: Answer)
    ensures Refusal(s, AtItsEnd(s.(pc := Fail(code, text, next)), answer), code, text)
  {
    var s1 := Continue(s.(pc := Fail(code, text, next)), answer);
    EbbsQuietly(s1, answer);
  }

  // ----- the deadline

  /**
   * An expired deadline ends the session: it is told why if it takes messages,
   * and asked to close.
   */
  lemma DeadlineEnds(s: Session, answer: Answer)
    requires Enabled(s, TimerFired) && s.phase != Closed
    ensures Refusal(s, AtItsEnd(Step(s, TimerFired), answer), "SESSION_CLOSED",
                    if s.phase == Unauthenticated then "Handshake timeout" else "Idle timeout")
  {
    var s1 := s.(io := s.io.(expired := s.io.expired - 1));
    var text := if s.phase == Unauthenticated then "Handshake timeout" else "Idle timeout";
    FailIsRefusal(s1, "SESSION_CLOSED", text, Done, answer);
  }

  lemma {:induction false} EndingForGood(s: Session, actions: seq<Action>)
    requires Ending(s)
    ensures Ending(Run(s, actions))
  {
    if actions == [] {
    } else {
      EndingForGood(s, actions[..|actions| - 1]);
      EndingStays(Run(s, actions[..|actions| - 1]), actions[|actions| - 1]);
    }
  }

  /** Whatever other threads do meanwhile, a close is requested once the handler of an expired deadline is over. */
  lemma DeadlineClosesAnyRun(before: seq<Action>, after: seq<Action>)
    requires Enabled(Run(Init(), before), TimerFired) && Run(Init(), before).phase != Closed
    ensures var s := Run(Init(), before + [TimerFired] + after);
            s.pc == Idle ==> s.closeRequested
  {
    RunLast(Init(), before, TimerFired);
    RunConcat(Init(), before + [TimerFired], after);
    EndingForGood(Run(Init(), before + [TimerFired]), after);
  }

  // ----- messages

  /** A message the session reads and that gets past both traffic checks. */
  predicate Heard(c: Connection, e: Event) {
    Delivered(c, e) && Passes(c, e)
  }

  lemma HeardIsJudged(c: Connection, e: Event)
    requires Heard(c, e)
    ensures Happen(c, e).s == HandleMessage(AfterRead(c).s, Judge(c.s, e.input, e.limits.maxGap))
  {
    HappenDelivered(c, e);
    JudgeIgnoresReads(c, e);
    assert Inspect(c, e).0 == Judge(c.s, e.input, e.limits.maxGap);
  }

  lemma RejectIsRefusal(c: Connection, e: Event, code: string, text: string, answer: Answer)
    requires Heard(c, e) && Judge(c.s, e.input, e.limits.maxGap) == Reject(code, text)
    ensures Refusal(c.s, AtItsEnd(Happen(c, e).s, answer), code, text)
  {
    HeardIsJudged(c, e);
    FailIsRefusal(AfterRead(c).s, code, text, Rearm, answer);
  }

  /** A message over the rate limit, or in a burst, ends the session. */
  lemma TrafficEnds(c: Connection, e: Event, answer: Answer)
    requires Delivered(c, e) && !Passes(c, e)
    ensures Refusal(c.s, AtItsEnd(Happen(c, e).s, answer), "SESSION_CLOSED",
                    if Checked(c, e) then "Suspicious activity detected" else "Rate limit exceeded")
  {
    HappenDelivered(c, e);
    JudgeIgnoresReads(c, e);
    FailIsRefusal(AfterRead(c).s, "SESSION_CLOSED",
                  if Checked(c, e) then "Suspicious activity detected" else "Rate limit exceeded", Done, answer);
  }

  predicate Typed(e: Event, messageType: string)
    requires e.Receive?
  {
    e.input.Some? && IsText(e.input.value, "message_type", messageType) && |messageType| <= 32
  }

  predicate FromClient(c: Connection, e: Event) {
    Heard(c, e) && c.s.phase == Authenticated
  }

  lemma UntypedIsRefused(c: Connection, e: Event, answer: Answer)
    requires FromClient(c, e) && forall messageType :: !Typed(e, messageType)
    ensures Refusal(c.s, AtItsEnd(Happen(c, e).s, answer),
                    "MALFORMED_MESSAGE", "Missing or invalid message_type field")
  {
    var messageType := ExtractMessageType(e.input);
    if messageType.Some? {
      MessageTypeExactly(e.input, messageType.value);
      assert Typed(e, messageType.value);
    }
    RejectIsRefusal(c, e, "MALFORMED_MESSAGE", "Missing or invalid message_type field", answer);
  }

  lemma UnknownTypeIsRefused(c: Connection, e: Event, messageType: string, answer: Answer)
    requires FromClient(c, e) && Typed(e, messageType)
    requires messageType !in {"ACTION", "RELOAD_REQUEST", "DISCONNECT"}
    ensures Refusal(c.s, AtItsEnd(Happen(c, e).s, answer),
                    "PROTOCOL_ERROR", "Unknown message type: " + messageType)
  {
    MessageTypeExactly(e.input, messageType);
    RejectIsRefusal(c, e, "PROTOCOL_ERROR", "Unknown message type: " + messageType, answer);
  }

  /** The message is for the session with this id. */
  predicate Addresses(j: Json, sid: string) {
    j.Contains("payload") && IsText(j.o["payload"], "session_id", sid)
  }

  predicate Own(c: Connection, j: Json) {
    Addresses(j, c.s.account.sid)
  }

  lemma OtherId(provided: string, expected: string)
    requires WellFormedId(provided)
    ensures IdError(provided, expected) == if provided == expected then None else Some("Session ID mismatch")
  {
  }

  function OtherSession(j: Json, sid: string): Option<string> {
    if Addresses(j, sid) then None else Some("Session ID mismatch")
  }

  // ----- ACTION

  /** Nothing came of a message but this account, and the session, if still in business, waits for the next one. */
  predicate GoesOn(before: Session, after: Session, account: Account)
    requires before.io.reading > 0
  {
    after == before.(
      account := account,
      io := if before.phase != Closed && !before.closeRequested then
              before.io.(pending := 0, aborted := before.io.aborted + before.io.pending)
            else before.io.(reading := before.io.reading - 1))
  }

  lemma MalformedActionIsRefused(c: Connection, e: Event, answer: Answer)
    requires FromClient(c, e) && Typed(e, "ACTION") && !AcceptableAction(e.input.value)
    ensures Refusal(c.s, AtItsEnd(Happen(c, e).s, answer), "MALFORMED_MESSAGE", "Invalid ACTION message format")
  {
    MessageTypeExactly(e.input, "ACTION");
    ActionAcceptance(e.input.value);
    RejectIsRefusal(c, e, "MALFORMED_MESSAGE", "Invalid ACTION message format", answer);
  }

  lemma ActionUnderstood(j: Json, sid: string)
    ensures var m := ParseAction(j);
            && (m.Ok? <==> AcceptableAction(j))
            && (m.Ok? ==> m.value == ActionAsked(j) && IdError(m.value.sessionId, sid) == OtherSession(j, sid))
  {
    ActionAcceptance(j);
    if AcceptableAction(j) { OtherId(j.o["payload"].o["session_id"].s, sid); }
  }

  lemma ActionIsSequenced(c: Connection, e: Event)
    requires FromClient(c, e) && e.input.Some? && AcceptableAction(e.input.value)
    ensures Judge(c.s, e.input, e.limits.maxGap)
            == if Own(c, e.input.value) then
                 JudgeSequence(c.s.account.lastSeq, ActionAsked(e.input.value).sequenceNumber, e.limits.maxGap)
               else Reject("PROTOCOL_ERROR", "Session ID mismatch")
  {
    var j := e.input.value;
    MessageTypeExactly(e.input, "ACTION");
    ActionUnderstood(j, c.s.account.sid);
  }

  lemma ForeignActionIsRefused(c: Connection, e: Event, answer: Answer)
    requires FromClient(c, e) && e.input.Some? && AcceptableAction(e.input.value) && !Own(c, e.input.value)
    ensures Refusal(c.s, AtItsEnd(Happen(c, e).s, answer), "PROTOCOL_ERROR", "Session ID mismatch")
  {
    ActionIsSequenced(c, e);
    RejectIsRefusal(c, e, "PROTOCOL_ERROR", "Session ID mismatch", answer);
  }

  function Numbered(account: Account, n: int64): Account {
    account.(lastSeq := n, seqs := account.seqs + [n])
  }

  /** A number that follows the last one within the gap is stored, and any other refused. */
  predicate NumberHandled(before: Session, after: Session, n: int64, maxGap: int64) {
    var last := before.account.lastSeq;
    if last < n <= last + maxGap then after == before.(account := Numbered(before.account, n))
    else if n <= last then
      Refusal(before, after, "PROTOCOL_ERROR", "Invalid sequence number - possible replay attack")
    else Refusal(before, after, "PROTOCOL_ERROR", "Sequence number gap too large")
  }

  lemma SequencedGoesOn(s: Session, n: int64, maxGap: int64, answer: Answer)
    requires s.pc == Idle && s.io.reading > 0 && s.phase != Closed
    ensures var s1 := HandleMessage(s.(io := s.io.(reading := s.io.reading - 1)), Sequenced(n, maxGap));
            GoesOn(s, AtItsEnd(s1, answer), s.account.(lastSeq := n, seqs := s.account.seqs + [n]))
  {
    ReadsOn(HandleMessage(s.(io := s.io.(reading := s.io.reading - 1)), Sequenced(n, maxGap)), answer);
  }

  /** The number an acceptable action carries. */
  function NumberOf(j: Json): int
    requires AcceptableAction(j)
  {
    WholeValue(j.o["payload"].o["sequence_number"])
  }

  /** What every run keeps of an account, as AccountsAreSound shows. */
  predicate Sound(account: Account) {
    account.lastSeq >= -1 && 0 <= account.stack <= 1_000_000_000_000_000
  }

  lemma StepKeepsSequence(s: Session, a: Action)
    requires s.account.lastSeq >= -1
    ensures Step(s, a).account.lastSeq >= -1
  {
    SequenceOnlyByMessage(s, a);
  }

  lemma {:induction false} AccountsAreSound(actions: seq<Action>)
    ensures Sound(Run(Init(), actions).account)
  {
    StackHolds(actions);
    if actions == [] {
    } else {
      AccountsAreSound(actions[..|actions| - 1]);
      StepKeepsSequence(Run(Init(), actions[..|actions| - 1]), actions[|actions| - 1]);
    }
  }

  /** An acceptable ACTION of the session's own. */
  predicate OwnAction(c: Connection, e: Event) {
    && FromClient(c, e) && e.input.Some? && AcceptableAction(e.input.value) && Own(c, e.input.value)
    && Sound(c.s.account) && e.limits.maxGap >= 0
  }

  lemma ReplayIsRefused(c: Connection, e: Event, answer: Answer)
    requires OwnAction(c, e) && NumberOf(e.input.value) <= c.s.account.lastSeq
    ensures Happen(c, e).s.account == c.s.account
    ensures Refusal(c.s, AtItsEnd(Happen(c, e).s, answer),
                    "PROTOCOL_ERROR", "Invalid sequence number - possible replay attack")
  {
    HeardIsJudged(c, e);
    ActionIsSequenced(c, e);
    RejectIsRefusal(c, e, "PROTOCOL_ERROR", "Invalid sequence number - possible replay attack", answer);
  }

  lemma JudgedNumber(last: int64, n: int64, maxGap: int64)
    requires -1 <= last < n && maxGap >= 0
    ensures JudgeSequence(last, n, maxGap)
            == if n - last > maxGap then Reject("PROTOCOL_ERROR", "Sequence number gap too large")
               else Sequenced(n, maxGap)
  {
    GapIsDifference(n, last);
    WrapIsIdentity(maxGap);
  }

  lemma GapIsRefused(c: Connection, e: Event, answer: Answer)
    requires OwnAction(c, e) && NumberOf(e.input.value) > c.s.account.lastSeq + e.limits.maxGap
    ensures Happen(c, e).s.account == c.s.account
    ensures Refusal(c.s, AtItsEnd(Happen(c, e).s, answer), "PROTOCOL_ERROR", "Sequence number gap too large")
  {
    HeardIsJudged(c, e);
    ActionIsSequenced(c, e);
    JudgedNumber(c.s.account.lastSeq, ActionAsked(e.input.value).sequenceNumber, e.limits.maxGap);
    RejectIsRefusal(c, e, "PROTOCOL_ERROR", "Sequence number gap too large", answer);
  }

  /** Its number follows the last one within the gap. */
  predicate InSequence(c: Connection, e: Event) {
    OwnAction(c, e)
    && c.s.account.lastSeq < NumberOf(e.input.value) <= c.s.account.lastSeq + e.limits.maxGap
  }

  lemma NextIsJudged(c: Connection, e: Event)
    requires InSequence(c, e)
    ensures NumberOf(e.input.value) < TWO_TO_THE_63
    ensures Judge(c.s, e.input, e.limits.maxGap) == Sequenced(NumberOf(e.input.value), e.limits.maxGap)
  {
    ActionIsSequenced(c, e);
    JudgedNumber(c.s.account.lastSeq, ActionAsked(e.input.value).sequenceNumber, e.limits.maxGap);
  }

  lemma NextIsAccepted(c: Connection, e: Event, answer: Answer)
    requires InSequence(c, e)
    ensures NumberOf(e.input.value) < TWO_TO_THE_63
    ensures Happen(c, e).s.account == Numbered(c.s.account, NumberOf(e.input.value))
    ensures GoesOn(c.s, AtItsEnd(Happen(c, e).s, answer), Numbered(c.s.account, NumberOf(e.input.value)))
  {
    HeardIsJudged(c, e);
    NextIsJudged(c, e);
    SequencedGoesOn(c.s, NumberOf(e.input.value), e.limits.maxGap, answer);
  }

  /**
   * An ACTION of the session's own is accepted exactly when its number follows the
   * last one within the gap: then it is stored, nothing is sent, and the deadline is
   * extended. Any other is refused, as a replay or for its gap.
   */
  lemma ActionAcceptedExactly(c: Connection, e: Event, answer: Answer)
    requires OwnAction(c, e)
    ensures var n, last, s' := NumberOf(e.input.value), c.s.account.lastSeq, AtItsEnd(Happen(c, e).s, answer);
            && (n != last ==> (Happen(c, e).s.account.lastSeq == n <==> last < n <= last + e.limits.maxGap))
            && (if last < n <= last + e.limits.maxGap then GoesOn(c.s, s', Happen(c, e).s.account)
                else Refusal(c.s, s', "PROTOCOL_ERROR",
                             if n <= last then "Invalid sequence number - possible replay attack"
                             else "Sequence number gap too large"))
  {
    var n, last := NumberOf(e.input.value), c.s.account.lastSeq;
    if n <= last {
      ReplayIsRefused(c, e, answer);
    } else if n > last + e.limits.maxGap {
      GapIsRefused(c, e, answer);
    } else {
      NextIsAccepted(c, e, answer);
    }
  }

  /** The text of a client's action, read at these times under these limits. */
  function SentAction(m: ActionMessage, arrived: int, checked: int, limits: Limits): Event {
    Receive(arrived, checked, Some(Reparse(Seal("ACTION", ActionToJson(m)))), limits)
  }

  lemma SentActionIsOwn(j: Json, m: ActionMessage)
    requires ValidAction(m) && j == Reparse(Seal("ACTION", ActionToJson(m)))
    ensures ParseAction(j) == Ok(m) && AcceptableAction(j)
    ensures NumberOf(j) == m.sequenceNumber && Addresses(j, m.sessionId)
  {
    ActionUnderstoodAsSent(m);
    ActionAcceptance(j);
  }

  /** An authenticated session between handlers, with a read outstanding. */
  predicate Listening(s: Session) {
    s.pc == Idle && s.io.reading > 0 && s.phase == Authenticated && Sound(s.account)
  }

  /**
   * A client that keeps to the traffic limits and counts its actions by ones has
   * every valid one of them accepted, under any positive gap.
   */
  lemma CountingByOnesIsAccepted(c: Connection, m: ActionMessage, arrived: int, checked: int, limits: Limits)
    requires Listening(c.s) && Passes(c, SentAction(m, arrived, checked, limits)) && limits.maxGap >= 1
    requires ValidAction(m) && m.sessionId == c.s.account.sid && m.sequenceNumber == c.s.account.lastSeq + 1
    ensures Happen(c, SentAction(m, arrived, checked, limits)).s.account == Numbered(c.s.account, m.sequenceNumber)
  {
    var e := SentAction(m, arrived, checked, limits);
    SentActionIsOwn(e.input.value, m);
    SentActionIsDelivered(c, e, m);
    NextIsAccepted(c, e, NO_ANSWER);
  }

  lemma SentActionIsDelivered(c: Connection, e: Event, m: ActionMessage)
    requires e.Receive? && e.input.Some? && ParseAction(e.input.value) == Ok(m) && AcceptableAction(e.input.value)
    requires Listening(c.s)
    ensures Delivered(c, e)
  {
    MessageTypeExactly(e.input, "ACTION");
  }

  // ----- RELOAD_REQUEST

  lemma MalformedReloadIsRefused(c: Connection, e: Event, answer: Answer)
    requires FromClient(c, e) && Typed(e, "RELOAD_REQUEST") && !AcceptableReload(e.input.value)
    ensures Refusal(c.s, AtItsEnd(Happen(c, e).s, answer), "MALFORMED_MESSAGE", "Invalid RELOAD_REQUEST format")
  {
    MessageTypeExactly(e.input, "RELOAD_REQUEST");
    ReloadAcceptance(e.input.value);
    RejectIsRefusal(c, e, "MALFORMED_MESSAGE", "Invalid RELOAD_REQUEST format", answer);
  }

  /** What parsing and the identity check make of a reload request, in terms of its JSON. */
  lemma ReloadUnderstood(j: Json, sid: string)
    ensures var m := ParseReload(j);
            && (m.Ok? <==> AcceptableReload(j))
            && (m.Ok? ==>
                  && ValidAmount(m.value.requestedAmount)
                  && m.value.requestedAmount == Cents(j.o["payload"].o["requested_amount"])
                  && IdError(m.value.sessionId, sid) == OtherSession(j, sid))
  {
    ReloadAcceptance(j);
    if AcceptableReload(j) {
      AmountAcceptance(j.o["payload"].o["requested_amount"]);
      OtherId(j.o["payload"].o["session_id"].s, sid);
    }
  }

  lemma ReloadIsJudged(c: Connection, e: Event)
    requires FromClient(c, e) && e.input.Some? && AcceptableReload(e.input.value)
    ensures var a := Cents(e.input.value.o["payload"].o["requested_amount"]);
            && 1 <= a <= 1_000_000_000_000_000
            && Judge(c.s, e.input, e.limits.maxGap)
               == if Own(c, e.input.value) then Reload(a) else Reject("PROTOCOL_ERROR", "Session ID mismatch")
  {
    var j := e.input.value;
    MessageTypeExactly(e.input, "RELOAD_REQUEST");
    ReloadUnderstood(j, c.s.account.sid);
  }

  lemma ForeignReloadIsRefused(c: Connection, e: Event, answer: Answer)
    requires FromClient(c, e) && e.input.Some? && AcceptableReload(e.input.value) && !Own(c, e.input.value)
    ensures Refusal(c.s, AtItsEnd(Happen(c, e).s, answer), "PROTOCOL_ERROR", "Session ID mismatch")
  {
    ReloadIsJudged(c, e);
    RejectIsRefusal(c, e, "PROTOCOL_ERROR", "Session ID mismatch", answer);
  }

  function UpToLimit(n: int): int {
    if n < 1_000_000_000_000_000 then n else 1_000_000_000_000_000
  }

  /** The stack rose to this, and that was announced. */
  predicate Credited(before: Session, after: Session, stack: int) {
    && after.pc == Idle && after.phase == before.phase && !after.closeRequested
    && after.account.stack == stack
    && after.account.lastSeq == before.account.lastSeq && after.account.sid == before.account.sid
    && |after.w.accepted| == |before.w.accepted| + 1
    && after.w.accepted[..|before.w.accepted|] == before.w.accepted
    && after.w.accepted[|before.w.accepted|].ReloadFrame?
    && after.w.accepted[|before.w.accepted|].reload.granted
    && after.w.accepted[|before.w.accepted|].reload.newStack == stack
  }

  predicate Granted(before: Session, after: Session, stack: int) {
    Credited(before, after, stack) && Extended(before, after)
  }

  /** Nothing was sent and nothing kept, and a close was requested. */
  predicate GivenUp(before: Session, after: Session) {
    && after.pc == Idle && after.closeRequested
    && after.account == before.account && after.w.accepted == before.w.accepted
  }

  /** Granted if the response can be queued, given up otherwise. */
  predicate CreditHandled(before: Session, after: Session, amount: int) {
    0 <= before.account.stack <= 1_000_000_000_000_000 ==>
      if TakesMessages(before) then Credited(before, after, UpToLimit(before.account.stack + amount))
      else GivenUp(before, after)
  }

  lemma CreditOutcome(s: Session, amount: int64, answer: Answer)
    requires s.pc == Credit(amount) && 0 <= s.account.stack <= 1_000_000_000_000_000
    requires 1 <= amount <= 1_000_000_000_000_000
    ensures if TakesMessages(s) then Granted(s, AtItsEnd(s, answer), UpToLimit(s.account.stack + amount))
            else GivenUp(s, AtItsEnd(s, answer))
  {
    NewStackIsCapped(s.account.stack, amount);
    var s1 := Continue(s, answer);
    assert AtItsEnd(s, answer) == AtItsEnd(s1, answer);
    EbbsQuietly(s1, answer);
    if TakesMessages(s) {
      ReadsOn(s1, answer);
    }
  }

  /**
   * A RELOAD_REQUEST of the session's own is granted exactly when the response can
   * be queued: the stack rises by the amount, capped, and that is announced.
   */
  lemma ReloadGrantedExactly(c: Connection, e: Event, answer: Answer)
    requires FromClient(c, e) && e.input.Some? && AcceptableReload(e.input.value) && Own(c, e.input.value)
    requires Sound(c.s.account)
    ensures var amount := Cents(e.input.value.o["payload"].o["requested_amount"]);
            var s' := AtItsEnd(Happen(c, e).s, answer);
            if TakesMessages(c.s) then Granted(c.s, s', UpToLimit(c.s.account.stack + amount)) else GivenUp(c.s, s')
  {
    var amount := Cents(e.input.value.o["payload"].o["requested_amount"]);
    HeardIsJudged(c, e);
    ReloadIsJudged(c, e);
    CreditOutcome(AfterRead(c).s.(pc := Credit(amount)), amount, answer);
  }

  // ----- DISCONNECT

  lemma MalformedDisconnectIsRefused(c: Connection, e: Event, answer: Answer)
    requires FromClient(c, e) && Typed(e, "DISCONNECT") && !AcceptableDisconnect(e.input.value)
    ensures Refusal(c.s, AtItsEnd(Happen(c, e).s, answer), "MALFORMED_MESSAGE", "Invalid DISCONNECT format")
  {
    MessageTypeExactly(e.input, "DISCONNECT");
    DisconnectAcceptance(e.input.value);
    RejectIsRefusal(c, e, "MALFORMED_MESSAGE", "Invalid DISCONNECT format", answer);
  }

  lemma DisconnectUnderstood(j: Json, sid: string)
    ensures var m := ParseDisconnect(j);
            && (m.Ok? <==> AcceptableDisconnect(j))
            && (m.Ok? ==> IdError(m.value.sessionId, sid) == OtherSession(j, sid))
  {
    DisconnectAcceptance(j);
    if AcceptableDisconnect(j) { OtherId(j.o["payload"].o["session_id"].s, sid); }
  }

  lemma DisconnectIsJudged(c: Connection, e: Event)
    requires FromClient(c, e) && e.input.Some? && AcceptableDisconnect(e.input.value)
    ensures Judge(c.s, e.input, e.limits.maxGap)
            == if Own(c, e.input.value) then Goodbye else Reject("PROTOCOL_ERROR", "Session ID mismatch")
  {
    var j := e.input.value;
    MessageTypeExactly(e.input, "DISCONNECT");
    DisconnectUnderstood(j, c.s.account.sid);
  }

  lemma ForeignDisconnectIsRefused(c: Connection, e: Event, answer: Answer)
    requires FromClient(c, e) && e.input.Some? && AcceptableDisconnect(e.input.value) && !Own(c, e.input.value)
    ensures Refusal(c.s, AtItsEnd(Happen(c, e).s, answer), "PROTOCOL_ERROR", "Session ID mismatch")
  {
    DisconnectIsJudged(c, e);
    RejectIsRefusal(c, e, "PROTOCOL_ERROR", "Session ID mismatch", answer);
  }

  /** A DISCONNECT of the session's own ends it without a word. */
  lemma DisconnectEnds(c: Connection, e: Event, answer: Answer)
    requires FromClient(c, e) && e.input.Some? && AcceptableDisconnect(e.input.value) && Own(c, e.input.value)
    ensures Ending(Happen(c, e).s) && GivenUp(c.s, AtItsEnd(Happen(c, e).s, answer))
  {
    HeardIsJudged(c, e);
    DisconnectIsJudged(c, e);
    EbbsQuietly(AfterRead(c).s.(pc := RequestClose(Rearm)), answer);
  }

  // ----- the three requests as their handlers leave the session, before it reads on

  predicate ActionHandled(before: Session, after: Session, j: Json, maxGap: int64) {
    if !AcceptableAction(j) then Refusal(before, after, "MALFORMED_MESSAGE", "Invalid ACTION message format")
    else if !Addresses(j, before.account.sid) then Refusal(before, after, "PROTOCOL_ERROR", "Session ID mismatch")
    else NumberHandled(before, after, ActionAsked(j).sequenceNumber, maxGap)
  }

  predicate ReloadHandled(before: Session, after: Session, j: Json) {
    if !AcceptableReload(j) then Refusal(before, after, "MALFORMED_MESSAGE", "Invalid RELOAD_REQUEST format")
    else if !Addresses(j, before.account.sid) then Refusal(before, after, "PROTOCOL_ERROR", "Session ID mismatch")
    else CreditHandled(before, after, Cents(j.o["payload"].o["requested_amount"]))
  }

  predicate DisconnectHandled(before: Session, after: Session, j: Json) {
    if !AcceptableDisconnect(j) then Refusal(before, after, "MALFORMED_MESSAGE", "Invalid DISCONNECT format")
    else if !Addresses(j, before.account.sid) then Refusal(before, after, "PROTOCOL_ERROR", "Session ID mismatch")
    else GivenUp(before, after)
  }

  // ----- HANDSHAKE

  /** Not authenticated yet. */
  predicate FromStranger(c: Connection, e: Event) {
    Heard(c, e) && c.s.phase == Unauthenticated
  }

  lemma MalformedHandshakeIsRefused(c: Connection, e: Event, answer: Answer)
    requires FromStranger(c, e) && (e.input.None? || !AcceptableHandshake(e.input.value))
    ensures Refusal(c.s, AtItsEnd(Happen(c, e).s, answer), "MALFORMED_HANDSHAKE", "Expected HANDSHAKE message")
  {
    HandshakeUnderstood(e.input);
    RejectIsRefusal(c, e, "MALFORMED_HANDSHAKE", "Expected HANDSHAKE message", answer);
  }

  lemma HandshakeUnderstood(input: Option<Json>)
    ensures var m := if input.Some? then ParseHandshake(input.value) else Rejected;
            && (m.Ok? <==> input.Some? && AcceptableHandshake(input.value))
            && (m.Ok? ==>
                  (m.value.protocolVersion == PROTOCOL_VERSION <==> IsText(input.value, "protocol_version", "v1.0")))
    ensures "Expected " + PROTOCOL_VERSION == "Expected v1.0"
  {
    if input.Some? { HandshakeAcceptance(input.value); }
  }

  lemma HandshakeIsJudged(c: Connection, e: Event)
    requires FromStranger(c, e) && e.input.Some? && AcceptableHandshake(e.input.value)
    ensures Judge(c.s, e.input, e.limits.maxGap)
            == if IsText(e.input.value, "protocol_version", "v1.0") then Greeting
               else Reject("INCOMPATIBLE_VERSION", "Expected v1.0")
  {
    HandshakeUnderstood(e.input);
  }

  lemma OtherVersionIsRefused(c: Connection, e: Event, answer: Answer)
    requires FromStranger(c, e) && e.input.Some? && AcceptableHandshake(e.input.value)
    requires !IsText(e.input.value, "protocol_version", "v1.0")
    ensures Refusal(c.s, AtItsEnd(Happen(c, e).s, answer), "INCOMPATIBLE_VERSION", "Expected v1.0")
  {
    HandshakeIsJudged(c, e);
    RejectIsRefusal(c, e, "INCOMPATIBLE_VERSION", "Expected v1.0", answer);
  }

  /** The registry has an id for the session. */
  predicate Admits(answer: Answer) {
    0 < |answer.id| <= 128 && answer.result == Success
  }

  /** The session is authenticated under its new id, and was told so with the placeholder seat and stack. */
  predicate Introduced(before: Session, after: Session, id: string) {
    && after.pc == Idle && after.phase == Authenticated && !after.closeRequested
    && after.account == before.account.(sid := id)
    && after.w.accepted == before.w.accepted + [HandshakeFrame(HandshakeResponse(id, -1, 0))]
  }

  predicate Welcomed(before: Session, after: Session, id: string) {
    Introduced(before, after, id) && Extended(before, after)
  }

  /** It has its id but could not be told, and closes without ever having been authenticated. */
  predicate Unanswered(before: Session, after: Session, id: string) {
    && after.pc == Idle && after.closeRequested && after.phase != Authenticated
    && after.account == before.account.(sid := id)
    && after.w.accepted == before.w.accepted
  }

  /** What the session makes of the id the registry has for it. */
  predicate EntryHandled(before: Session, after: Session, id: string) {
    if TakesMessages(before) then Introduced(before, after, id) else Unanswered(before, after, id)
  }

  /** What it makes of the answer of the registry, "" being none. */
  predicate RegistrationHandled(before: Session, after: Session, id: string) {
    if id == "" then Refusal(before, after, "PROTOCOL_ERROR", "Failed to generate unique session ID")
    else EntryHandled(before, after, id)
  }

  predicate HandshakeHandled(before: Session, after: Session, input: Option<Json>, id: string) {
    if input.None? || !AcceptableHandshake(input.value) then
      Refusal(before, after, "MALFORMED_HANDSHAKE", "Expected HANDSHAKE message")
    else if !IsText(input.value, "protocol_version", "v1.0") then
      Refusal(before, after, "INCOMPATIBLE_VERSION", "Expected v1.0")
    else RegistrationHandled(before, after, id)
  }

  lemma RespondOutcome(s: Session, id: string, answer: Answer)
    requires s.pc == Respond(id) && s.phase == Unauthenticated && s.account.sid == id
    ensures if TakesMessages(s) then Welcomed(s, AtItsEnd(s, answer), id) else Unanswered(s, AtItsEnd(s, answer), id)
  {
    var s1 := Continue(s, answer);
    assert AtItsEnd(s, answer) == AtItsEnd(s1, answer);
    if TakesMessages(s) {
      var s2 := Continue(s1, answer);
      assert AtItsEnd(s1, answer) == AtItsEnd(s2, answer);
      ReadsOn(s2, answer);
    } else {
      EbbsQuietly(s1, answer);
    }
  }

  lemma AdmittedOutcome(s: Session, answer: Answer)
    requires s.pc == Draw(0) && s.phase == Unauthenticated && Admits(answer)
    ensures if TakesMessages(s) then Welcomed(s, AtItsEnd(s, answer), answer.id)
            else Unanswered(s, AtItsEnd(s, answer), answer.id)
  {
    var s1 := Continue(s, answer);
    var s2 := Continue(s1, answer);
    var s3 := Continue(s2, answer);
    assert AtItsEnd(s, answer) == AtItsEnd(s1, answer) == AtItsEnd(s2, answer) == AtItsEnd(s3, answer);
    RespondOutcome(s3, answer.id, answer);
  }

  /** One turn of the retry loop without success. */
  lemma UnadmittedTurn(s: Session, answer: Answer)
    requires s.pc.Draw? && !Admits(answer)
    ensures var attempt := s.pc.attempt;
            || AtItsEnd(s, answer) == AtItsEnd(NoId(s), answer)
            || (attempt < 2 && AtItsEnd(s, answer) == AtItsEnd(s.(pc := Draw(attempt + 1)), answer))
  {
    var s1 := Continue(s, answer);
    assert AtItsEnd(s, answer) == AtItsEnd(s1, answer);
    if s1.pc.Emplace? {
      assert AtItsEnd(s1, answer) == AtItsEnd(Continue(s1, answer), answer);
    }
  }

  lemma {:induction false} UnadmittedOutcome(s: Session, answer: Answer)
    requires s.pc.Draw? && !Admits(answer)
    ensures Refusal(s, AtItsEnd(s, answer), "PROTOCOL_ERROR", "Failed to generate unique session ID")
    decreases Remaining(s.pc)
  {
    UnadmittedTurn(s, answer);
    FailIsRefusal(s, "PROTOCOL_ERROR", "Failed to generate unique session ID", Rearm, answer);
    if AtItsEnd(s, answer) != AtItsEnd(NoId(s), answer) {
      UnadmittedOutcome(s.(pc := Draw(s.pc.attempt + 1)), answer);
    }
  }

  /**
   * A proper handshake of the server's version authenticates the session exactly
   * when the registry has an id for it and the response can be queued.
   */
  lemma HandshakeAuthenticatesExactly(c: Connection, e: Event, answer: Answer)
    requires FromStranger(c, e) && e.input.Some? && AcceptableHandshake(e.input.value)
    requires IsText(e.input.value, "protocol_version", "v1.0")
    ensures var s' := AtItsEnd(Happen(c, e).s, answer);
            if !Admits(answer) then Refusal(c.s, s', "PROTOCOL_ERROR", "Failed to generate unique session ID")
            else if TakesMessages(c.s) then Welcomed(c.s, s', answer.id)
            else Unanswered(c.s, s', answer.id)
  {
    HeardIsJudged(c, e);
    HandshakeIsJudged(c, e);
    var s1 := AfterRead(c).s.(pc := Draw(0));
    if Admits(answer) {
      AdmittedOutcome(s1, answer);
    } else {
      UnadmittedOutcome(s1, answer);
    }
  }
}
