/**
 * What a session makes of the messages it reads: the traffic checks, the parse
 * and the identity and sequence checks, in the order on_read performs them. The
 * result is a verdict, and a connection that follows verdicts is a run of
 * SessionMachine, so everything proved about runs holds of real input.
 */
module SessionMessages {
  import opened Wrappers
  import opened JsonValues
  import opened Protocol
  import opened ProtocolProofs
  import opened RateLimiter
  import opened SessionMachine
  import opened SessionChains
  import opened SessionLife
  import opened SessionAccount

  /** The configuration a handler reads; the window is in seconds. */
  datatype Limits = Limits(window: nat, maxMessages: nat, maxGap: int64)

  /** A session with the strand-local state of its traffic checks. */
  datatype Connection = Connection(s: Session, deque: seq<int>, activity: Activity)

  /** A message as text that may fail to be JSON, the clock read twice, or any other action. */
  datatype Event =
    | Receive(arrived: int, checked: int, input: Option<Json>, limits: Limits)
    | Other(a: Action)

  function NewConnection(now: int): Connection {
    Connection(Init(), [], Activity(now, 0))
  }

  // ----- the handlers of messages

  function Reject(code: string, text: string): Verdict {
    Refused(code, text, Rearm)
  }

  function JudgeHandshake(input: Option<Json>): Verdict {
    var m := if input.Some? then ParseHandshake(input.value) else Rejected;
    if !m.Ok? then Reject("MALFORMED_HANDSHAKE", "Expected HANDSHAKE message")
    else if m.value.protocolVersion != PROTOCOL_VERSION then
      Reject("INCOMPATIBLE_VERSION", "Expected " + PROTOCOL_VERSION)
    else Greeting
  }

  /** validate_session_id: the error text, if the id is not the session's own. */
  function IdError(provided: string, expected: string): Option<string> {
    if provided == "" then Some("Session ID is required")
    else if |provided| > MAX_SESSION_ID_LENGTH then Some("Session ID exceeds maximum length")
    else if provided != expected then Some("Session ID mismatch")
    else None
  }

  function JudgeSequence(last: int64, n: int64, maxGap: int64): Verdict {
    if n <= last then Reject("PROTOCOL_ERROR", "Invalid sequence number - possible replay attack")
    else if SequenceGap(n, last) > ToUint64(maxGap) then Reject("PROTOCOL_ERROR", "Sequence number gap too large")
    else Sequenced(n, maxGap)
  }

  function JudgeAction(c: Account, j: Json, maxGap: int64): Verdict {
    var m := ParseAction(j);
    if !m.Ok? then Reject("MALFORMED_MESSAGE", "Invalid ACTION message format") else
      var idError := IdError(m.value.sessionId, c.sid);
      if idError.Some? then Reject("PROTOCOL_ERROR", idError.value)
      else JudgeSequence(c.lastSeq, m.value.sequenceNumber, maxGap)
  }

  function JudgeReload(c: Account, j: Json): Verdict {
    var m := ParseReload(j);
    if !m.Ok? then Reject("MALFORMED_MESSAGE", "Invalid RELOAD_REQUEST format") else
      var idError := IdError(m.value.sessionId, c.sid);
      if idError.Some? then Reject("PROTOCOL_ERROR", idError.value) else Reload(m.value.requestedAmount)
  }

  function JudgeDisconnect(c: Account, j: Json): Verdict {
    var m := ParseDisconnect(j);
    if !m.Ok? then Reject("MALFORMED_MESSAGE", "Invalid DISCONNECT format") else
      var idError := IdError(m.value.sessionId, c.sid);
      if idError.Some? then Reject("PROTOCOL_ERROR", idError.value) else Goodbye
  }

  /** `trunc_field` with its default length. */
  function TruncField(text: string): string {
    if |text| <= 64 then text else text[..64] + "..."
  }

  function JudgeAuthenticated(c: Account, input: Option<Json>, maxGap: int64): Verdict {
    var messageType := ExtractMessageType(input);
    if messageType.None? then Reject("MALFORMED_MESSAGE", "Missing or invalid message_type field")
    else if messageType.value == "ACTION" then JudgeAction(c, input.value, maxGap)
    else if messageType.value == "RELOAD_REQUEST" then JudgeReload(c, input.value)
    else if messageType.value == "DISCONNECT" then JudgeDisconnect(c, input.value)
    else Reject("PROTOCOL_ERROR", "Unknown message type: " + TruncField(messageType.value))
  }

  function Judge(s: Session, input: Option<Json>, maxGap: int64): Verdict {
    if s.phase == Unauthenticated then JudgeHandshake(input) else JudgeAuthenticated(s.account, input, maxGap)
  }

  /** on_read up to its first access to shared state: the verdict and the traffic record it leaves. */
  function Inspect(c: Connection, e: Event): (Verdict, seq<int>, Activity)
    requires e.Receive?
  {
    var (deque, admitted) := Admit(c.deque, e.arrived, Nanos(e.limits.window), e.limits.maxMessages);
    if !admitted then (Refused("SESSION_CLOSED", "Rate limit exceeded", Done), deque, c.activity) else
      var (activity, burst) := Observe(c.activity, e.checked);
      (if burst then Refused("SESSION_CLOSED", "Suspicious activity detected", Done)
       else Judge(c.s, e.input, e.limits.maxGap),
       deque, activity)
  }

  /** The message gets past both traffic checks. */
  predicate Passes(c: Connection, e: Event)
    requires e.Receive?
  {
    && Admit(c.deque, e.arrived, Nanos(e.limits.window), e.limits.maxMessages).1
    && !Observe(c.activity, e.checked).1
  }

  /** The conversions this session performs on the message are all defined in C++. */
  predicate Defined(s: Session, input: Option<Json>) {
    s.phase == Authenticated ==>
      && (ExtractMessageType(input) == Some("ACTION") ==> !ParseAction(input.value).Undefined?)
      && (ExtractMessageType(input) == Some("RELOAD_REQUEST") ==> !ParseReload(input.value).Undefined?)
  }

  // ----- connections as runs of the machine

  /** The read completes with a message that the handler goes on to look at. */
  predicate Delivered(c: Connection, e: Event) {
    && e.Receive? && c.s.pc == Idle && c.s.io.reading > 0 && c.s.phase != Closed
    && (Passes(c, e) ==> Defined(c.s, e.input))
  }

  /** The action of the machine that an event amounts to; disabled if the event cannot happen. */
  function ActionOf(c: Connection, e: Event): Action {
    if Delivered(c, e) then Message(Inspect(c, e).0)
    else if e.Other? && !e.a.Message? then e.a
    else if c.s.pc == Idle && !(e.Receive? && c.s.phase == Closed) then StrandStep(NO_ANSWER)
    else Message(Refused("", "", Done))
  }

  function Happen(c: Connection, e: Event): Connection {
    var s := Step(c.s, ActionOf(c, e));
    if Delivered(c, e) then
      var (_, deque, activity) := Inspect(c, e);
      Connection(s, deque, activity)
    else c.(s := s)
  }

  function History(c: Connection, events: seq<Event>): Connection {
    if events == [] then c else Happen(History(c, events[..|events| - 1]), events[|events| - 1])
  }

  function ActionsOf(c: Connection, events: seq<Event>): seq<Action> {
    if events == [] then [] else
      var init := events[..|events| - 1];
      ActionsOf(c, init) + [ActionOf(History(c, init), events[|events| - 1])]
  }

  /** Every history of a connection is a run of the machine, event by event. */
  lemma {:induction false} HistoryIsRun(c: Connection, events: seq<Event>)
    ensures |ActionsOf(c, events)| == |events|
    ensures History(c, events).s == Run(c.s, ActionsOf(c, events))
  {
    if events == [] {
    } else {
      var init := events[..|events| - 1];
      HistoryIsRun(c, init);
      var actions := ActionsOf(c, events);
      assert actions[..|actions| - 1] == ActionsOf(c, init);
    }
  }

  lemma JudgementFits(s: Session, input: Option<Json>, maxGap: int64)
    requires s.phase != Closed
    ensures Fits(s, Judge(s, input, maxGap))
  {
    if s.phase == Authenticated && ExtractMessageType(input) == Some("RELOAD_REQUEST") {
      ReloadValid(input.value);
    }
  }

  /** A verdict always fits the session it was reached in, so a delivered message is never lost. */
  lemma VerdictFits(c: Connection, e: Event)
    requires Delivered(c, e)
    ensures Fits(c.s, Inspect(c, e).0) && Enabled(c.s, ActionOf(c, e))
  {
    JudgementFits(c.s, e.input, e.limits.maxGap);
  }

  lemma ReloadValid(j: Json)
    ensures ParseReload(j).Ok? ==> ValidAmount(ParseReload(j).value.requestedAmount)
  {
  }

  /** The session once the read that delivered a message is no longer outstanding. */
  function AfterRead(c: Connection): Connection
    requires c.s.io.reading > 0
  {
    c.(s := c.s.(io := c.s.io.(reading := c.s.io.reading - 1)))
  }

  /** A delivered message, split into the verdict and its handler. */
  lemma HappenDelivered(c: Connection, e: Event)
    requires Delivered(c, e)
    ensures var (v, deque, activity) := Inspect(AfterRead(c), e);
            Happen(c, e) == Connection(HandleMessage(AfterRead(c).s, v), deque, activity)
  {
    VerdictFits(c, e);
    JudgeIgnoresReads(c, e);
  }

  lemma JudgeIgnoresReads(c: Connection, e: Event)
    requires e.Receive? && c.s.io.reading > 0
    ensures Inspect(AfterRead(c), e) == Inspect(c, e)
  {
    assert Judge(AfterRead(c).s, e.input, e.limits.maxGap) == Judge(c.s, e.input, e.limits.maxGap);
  }

  /** A message read after the session was closed is dropped. */
  lemma HappenTooLate(c: Connection, e: Event)
    requires e.Receive? && c.s.pc == Idle && c.s.io.reading > 0 && c.s.phase == Closed
    ensures Happen(c, e) == AfterRead(c)
  {
  }

  // ----- what messages can and cannot do

  lemma {:induction false} ActionsOfPrefix(c: Connection, events: seq<Event>, k: nat)
    requires k < |events|
    ensures |ActionsOf(c, events)| == |events|
    ensures ActionsOf(c, events)[..k] == ActionsOf(c, events[..k])
    ensures ActionsOf(c, events)[k] == ActionOf(History(c, events[..k]), events[k])
  {
    var init := events[..|events| - 1];
    HistoryIsRun(c, events);
    HistoryIsRun(c, init);
    if k < |init| {
      ActionsOfPrefix(c, init, k);
      assert init[..k] == events[..k];
      assert ActionsOf(c, events)[..k] == ActionsOf(c, init)[..k];
    } else {
      assert events[..k] == init;
    }
  }

  /** The message in `e` is a handshake of the server's version, in payload and envelope. */
  predicate IsHandshake(e: Event) {
    && e.Receive? && e.input.Some?
    && Addressed(e.input.value, "HANDSHAKE")
    && IsText(e.input.value.o["payload"], "protocol_version", PROTOCOL_VERSION)
  }

  lemma GreetedByHandshake(input: Option<Json>)
    requires JudgeHandshake(input) == Greeting
    ensures input.Some? && ParseHandshake(input.value).Ok?
    ensures ParseHandshake(input.value).value.protocolVersion == PROTOCOL_VERSION
  {
  }

  lemma NoGreetingLater(c: Account, input: Option<Json>, maxGap: int64)
    ensures JudgeAuthenticated(c, input, maxGap) != Greeting
  {
  }

  lemma GreetingIsHandshake(c: Connection, e: Event)
    requires ActionOf(c, e) == Message(Greeting)
    ensures Delivered(c, e) && IsHandshake(e)
  {
    assert Inspect(c, e).0 == Judge(c.s, e.input, e.limits.maxGap);
    NoGreetingLater(c.s.account, e.input, e.limits.maxGap);
    GreetedByHandshake(e.input);
    HandshakeVersions(e.input.value);
  }

  lemma GreetingEvent(c: Connection, events: seq<Event>, j: nat)
    requires j < |events| == |ActionsOf(c, events)| && ActionsOf(c, events)[j] == Message(Greeting)
    ensures Delivered(History(c, events[..j]), events[j]) && IsHandshake(events[j])
  {
    ActionsOfPrefix(c, events, j);
    GreetingIsHandshake(History(c, events[..j]), events[j]);
  }

  lemma EnteringEvent(c: Connection, events: seq<Event>, k: nat, id: string)
    requires k < |events| == |ActionsOf(c, events)|
    requires Enters(Run(c.s, ActionsOf(c, events)[..k]), ActionsOf(c, events)[k], id)
    ensures events[k].Other? && Enters(History(c, events[..k]).s, events[k].a, id)
  {
    ActionsOfPrefix(c, events, k);
    HistoryIsRun(c, events[..k]);
  }

  /**
   * Whatever a client sends, its session is authenticated only after a message
   * delivered to it that was a handshake of the right version, and under an id
   * under which the registry entered it while that handshake was being handled.
   */
  lemma AuthenticatedByHandshakeOnly(now: int, events: seq<Event>)
    requires History(NewConnection(now), events).s.phase == Authenticated
    ensures exists j, k :: 0 <= j < k < |events|
              && Delivered(History(NewConnection(now), events[..j]), events[j]) && IsHandshake(events[j])
              && events[k].Other?
              && Enters(History(NewConnection(now), events[..k]).s, events[k].a,
                        History(NewConnection(now), events).s.account.sid)
  {
    var c := NewConnection(now);
    var actions := ActionsOf(c, events);
    HistoryIsRun(c, events);
    var j, k := HandshakeBefore(actions);
    var sid := Run(Init(), actions).account.sid;
    GreetingEvent(c, events, j);
    EnteringEvent(c, events, k, sid);
  }

  lemma SequencedVerdict(c: Connection, e: Event)
    requires Delivered(c, e) && c.s.phase == Authenticated && Inspect(c, e).0.Sequenced?
    ensures e.input.Some? && ParseAction(e.input.value).Ok?
    ensures ParseAction(e.input.value).value.sessionId == c.s.account.sid
    ensures ParseAction(e.input.value).value.sequenceNumber == Inspect(c, e).0.n
    ensures Inspect(c, e).0.maxGap == e.limits.maxGap
  {
    assert Inspect(c, e).0 == Judge(c.s, e.input, e.limits.maxGap);
    assert Inspect(c, e).0 == JudgeAction(c.s.account, e.input.value, e.limits.maxGap);
  }

  lemma ReloadVerdict(c: Connection, e: Event)
    requires Delivered(c, e) && c.s.phase == Authenticated && Inspect(c, e).0.Reload?
    ensures e.input.Some? && ParseReload(e.input.value).Ok?
    ensures ParseReload(e.input.value).value == ReloadRequest(c.s.account.sid, Inspect(c, e).0.amount)
  {
    assert Inspect(c, e).0 == Judge(c.s, e.input, e.limits.maxGap);
    assert Inspect(c, e).0 == JudgeReload(c.s.account, e.input.value);
  }

  lemma SequenceOnlyByMessage(s: Session, a: Action)
    ensures Step(s, a).account.lastSeq != s.account.lastSeq ==>
              a.Message? && a.verdict.Sequenced? && Enabled(s, a) && Step(s, a).account.lastSeq == a.verdict.n
  {
  }

  /** The sequence number moves only by an ACTION with the session's own id, forward and within the gap. */
  lemma SequenceMovesByAction(c: Connection, e: Event)
    requires c.s.account.lastSeq >= -1
    requires Happen(c, e).s.account.lastSeq != c.s.account.lastSeq
    ensures Delivered(c, e) && c.s.phase == Authenticated && e.input.Some?
    ensures var m := ParseAction(e.input.value);
            && m.Ok? && m.value.sessionId == c.s.account.sid
            && c.s.account.lastSeq < m.value.sequenceNumber == Happen(c, e).s.account.lastSeq
            && (0 <= e.limits.maxGap ==> m.value.sequenceNumber - c.s.account.lastSeq <= e.limits.maxGap)
  {
    SequenceOnlyByMessage(c.s, ActionOf(c, e));
    SequencedVerdict(c, e);
    GapIsDifference(Inspect(c, e).0.n, c.s.account.lastSeq);
  }

  /** A credit is prepared only by a RELOAD_REQUEST with the session's own id, and only a credit moves the stack. */
  lemma StackMovesByReload(c: Connection, e: Event)
    ensures Happen(c, e).s.account.stack != c.s.account.stack ==> c.s.pc.Credit?
    ensures var pc := Happen(c, e).s.pc;
            pc.Credit? && c.s.pc != pc ==>
              && Delivered(c, e) && c.s.phase == Authenticated && e.input.Some?
              && ParseReload(e.input.value).Ok?
              && ParseReload(e.input.value).value == ReloadRequest(c.s.account.sid, pc.amount)
  {
    StackOnlyByCredit(c.s, ActionOf(c, e));
    CreditOnlyByReload(c.s, ActionOf(c, e));
    if Happen(c, e).s.pc.Credit? && c.s.pc != Happen(c, e).s.pc {
      ReloadVerdict(c, e);
    }
  }

  lemma StackOnlyByCredit(s: Session, a: Action)
    ensures Step(s, a).account.stack != s.account.stack ==> s.pc.Credit?
  {
    if Enabled(s, a) {
      if a.StrandStep? {
        if !Queues(s.pc) { QuietStep(s, a.answer); }
        else if !s.pc.Credit? { OtherMessageStep(s, a.answer); }
      } else if !OffStrand(a) {
        HandlersLeaveStack(s, a);
      }
    }
  }

  lemma CreditOnlyByReload(s: Session, a: Action)
    ensures var pc := Step(s, a).pc;
            pc.Credit? && s.pc != pc ==> a == Message(Reload(pc.amount)) && s.phase == Authenticated
  {
    if Enabled(s, a) && a.StrandStep? {
      StrandLeadsNoCredit(s, a.answer);
    }
  }

  lemma StrandLeadsNoCredit(s: Session, answer: Answer)
    ensures s.pc != Idle ==> !Continue(s, answer).pc.Credit?
  {
  }
}
