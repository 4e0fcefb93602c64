/**
 * The session and the registry as the objects they are, with the methods of the
 * source updating their fields in place. Each handler, run without interference,
 * is proved to do what the state machine does when it runs the same handler to
 * its end, so the machine's atomic actions are the handler's own.
 */
module SessionObjects {
  import opened Wrappers
  import opened JsonValues
  import opened Protocol
  import opened RateLimiter
  import opened SessionIds
  import opened Registry
  import opened SessionMachine
  import opened SessionClosing
  import opened ServerSystem
  import opened SessionMessages
  import opened SessionOutcomes
  import opened ProtocolProofs

  // ----- running a handler of the machine to its end

  type Strand = Turn<WebsocketSession>

  predicate Settled(pc: Pc) {
    pc.Idle? || pc.RearmTimer?
  }

  /** The id the next step would draw, if the generator returned these to the attempts of a registration. */
  function Due(pc: Pc, ids: seq<string>): string
    requires |ids| == MAX_SESSION_ID_RETRIES
  {
    if pc.Draw? then ids[pc.attempt] else ""
  }

  /** The handler up to its last guard, on_read's decision to read again. */
  function Settle(n: Strand, self: WebsocketSession, ids: seq<string>): Strand
    requires |ids| == MAX_SESSION_ID_RETRIES
    decreases Remaining(n.s.pc)
  {
    if Settled(n.s.pc) then n else
      TurnAdvances(n.s, AnswerTo(n, Due(n.s.pc, ids)));
      Settle(TakeTurn(n, self, Due(n.s.pc, ids)), self, ids)
  }

  /** The handler up to its end. */
  function Finish(n: Strand, self: WebsocketSession, ids: seq<string>): Strand
    requires |ids| == MAX_SESSION_ID_RETRIES
    decreases Remaining(n.s.pc)
  {
    if n.s.pc.Idle? then n else
      TurnAdvances(n.s, AnswerTo(n, Due(n.s.pc, ids)));
      Finish(TakeTurn(n, self, Due(n.s.pc, ids)), self, ids)
  }

  /** The strand takes up a handler. */
  function Begin(n: Strand, a: Action): Strand
    requires !OffStrand(a) && !a.StrandStep? && Enabled(n.s, a)
  {
    n.(s := StartHandler(n.s, a))
  }

  lemma {:induction false} FinishAfterSettle(n: Strand, self: WebsocketSession, ids: seq<string>)
    requires |ids| == MAX_SESSION_ID_RETRIES
    ensures Finish(n, self, ids) == Finish(Settle(n, self, ids), self, ids)
    decreases Remaining(n.s.pc)
  {
    if !Settled(n.s.pc) {
      TurnAdvances(n.s, AnswerTo(n, Due(n.s.pc, ids)));
      FinishAfterSettle(TakeTurn(n, self, Due(n.s.pc, ids)), self, ids);
    }
  }

  /** What do_close leaves behind, in one piece. */
  lemma SettleFinishClose(n: Strand, self: WebsocketSession, ids: seq<string>)
    requires n.s.pc.FinishClose? && |ids| == MAX_SESSION_ID_RETRIES
    ensures var closes := !n.s.closeInitiated && n.s.phase != Closed;
            Settle(n, self, ids)
            == Turn(n.s.(closeInitiated := true, phase := if n.s.closeInitiated then n.s.phase else Closed,
                         io := if closes then CancelWaits(n.s.io) else n.s.io, pc := After(n.s.pc.next)),
                    if closes && n.s.account.sid != "" then Registry.UnregisterSession(n.d, n.s.account.sid) else n.d)
  {
    var n1 := TakeTurn(n, self, Due(n.s.pc, ids));
    if n1.s.pc.Unregister? {
      var n2 := TakeTurn(n1, self, Due(n1.s.pc, ids));
      assert Settle(n1, self, ids) == Settle(n2, self, ids) == n2;
    }
  }

  /** What close() on the strand leaves behind. */
  lemma SettleRequestClose(n: Strand, self: WebsocketSession, ids: seq<string>)
    requires n.s.pc.RequestClose? && |ids| == MAX_SESSION_ID_RETRIES
    ensures var s := n.s.(closeRequested := true);
            Settle(n, self, ids)
            == if n.s.phase == Closed || n.s.w.writing then n.(s := s.(pc := After(n.s.pc.next)))
               else Settle(n.(s := s.(pc := FinishClose(n.s.pc.next))), self, ids)
  {
    var n1 := TakeTurn(n, self, Due(n.s.pc, ids));
    var n2 := TakeTurn(n1, self, Due(n1.s.pc, ids));
    assert Settle(n, self, ids) == Settle(n1, self, ids) == Settle(n2, self, ids);
  }

  /** After a close that leads nowhere else, the handler is at its end. */
  lemma FinishClosing(n: Strand, self: WebsocketSession, ids: seq<string>)
    requires n.s.pc in {FinishClose(Done), RequestClose(Done)} && |ids| == MAX_SESSION_ID_RETRIES
    ensures Finish(n, self, ids) == Settle(n, self, ids)
  {
    FinishAfterSettle(n, self, ids);
    if n.s.pc.RequestClose? {
      SettleRequestClose(n, self, ids);
      SettleFinishClose(n.(s := n.s.(closeRequested := true, pc := FinishClose(Done))), self, ids);
    } else {
      SettleFinishClose(n, self, ids);
    }
  }

  lemma FinishDropping(n: Strand, self: WebsocketSession, ids: seq<string>)
    requires n.s.pc.DropFrame? && |ids| == MAX_SESSION_ID_RETRIES
    ensures Finish(n, self, ids)
            == Settle(n.(s := n.s.(w := n.s.w.(writing := false), pc := RequestClose(Done))), self, ids)
  {
    FinishClosing(TakeTurn(n, self, Due(n.s.pc, ids)), self, ids);
  }

  /** A reload's credit, up to the close that follows if its response could not be queued. */
  lemma SettleCredit(n: Strand, self: WebsocketSession, ids: seq<string>)
    requires n.s.pc.Credit? && |ids| == MAX_SESSION_ID_RETRIES
    ensures var stack := NewStack(n.s.account.stack, n.s.pc.amount);
            var (s, queued) := Enqueue(n.s, ReloadFrame(ReloadResponse(true, stack)));
            Settle(n, self, ids)
            == if queued then
                 n.(s := s.(account := s.account.(stack := stack, credits := s.account.credits + [n.s.pc.amount]),
                            pc := RearmTimer))
               else Settle(n.(s := s.(pc := RequestClose(Rearm))), self, ids)
  {
    assert Settle(n, self, ids) == Settle(TakeTurn(n, self, Due(n.s.pc, ids)), self, ids);
  }

  lemma CreditSettles(n: Strand, self: WebsocketSession, ids: seq<string>)
    requires n.s.pc.Credit? && |ids| == MAX_SESSION_ID_RETRIES
    ensures ValidAmount(n.s.pc.amount) ==>
              CreditHandled(n.s.(pc := Idle), Settle(n, self, ids).s.(pc := Idle), n.s.pc.amount)
  {
    WrapIsIdentity(n.s.account.stack + n.s.pc.amount);
    SettleCredit(n, self, ids);
    if !TakesMessages(n.s) {
      SettleRequestClose(n.(s := n.s.(pc := RequestClose(Rearm))), self, ids);
      SettleFinishClose(n.(s := n.s.(closeRequested := true, pc := FinishClose(Rearm))), self, ids);
    }
  }

  /** A handshake's response, likewise. */
  lemma SettleRespond(n: Strand, self: WebsocketSession, ids: seq<string>)
    requires n.s.pc.Respond? && |ids| == MAX_SESSION_ID_RETRIES
    ensures var response := HandshakeResponse(n.s.pc.id, PLACEHOLDER_SEAT, PLACEHOLDER_STACK);
            var (s, queued) := Enqueue(n.s, HandshakeFrame(response));
            Settle(n, self, ids)
            == if queued then n.(s := s.(phase := Authenticated, pc := RearmTimer))
               else Settle(n.(s := s.(pc := RequestClose(Rearm))), self, ids)
  {
    var n1 := TakeTurn(n, self, Due(n.s.pc, ids));
    assert Settle(n, self, ids) == Settle(n1, self, ids);
    if n1.s.pc.Authenticate? {
      assert Settle(n1, self, ids) == Settle(TakeTurn(n1, self, Due(n1.s.pc, ids)), self, ids);
    }
  }

  function WithId(s: Session, id: string): Session {
    s.(account := s.account.(sid := id), pc := Respond(id))
  }

  /** The handshake goes on with the id that register_session has returned. */
  function Entering(n: Strand, id: string): Strand {
    n.(s := if id == "" then NoId(n.s) else WithId(n.s, id))
  }

  /** What a registration leaves from its current attempt on, if nobody interferes. */
  function Registered(n: Strand, r: Registration<WebsocketSession>): Strand {
    Entering(n.(d := Directory(r.entries, n.d.counter + r.used)), r.id)
  }

  /** One turn of the retry loop: an id is drawn and, if it will do, entered. */
  function Attempted(n: Strand, self: WebsocketSession, id: string): Strand
    requires n.s.pc.Draw?
  {
    var d := n.d.(counter := n.d.counter + 1);
    if id == "" || |id| > MAX_SESSION_ID_LENGTH || |d.entries| >= MAX_CONNECTIONS then Turn(NoId(n.s), d)
    else if id !in d.entries then Turn(WithId(n.s, id), d.(entries := d.entries[id := self]))
    else if n.s.pc.attempt + 1 < MAX_SESSION_ID_RETRIES then Turn(n.s.(pc := Draw(n.s.pc.attempt + 1)), d)
    else Turn(NoId(n.s), d)
  }

  /** Handlers at these points settle to the same. */
  predicate Alike(n: Strand, m: Strand, self: WebsocketSession, ids: seq<string>)
    requires |ids| == MAX_SESSION_ID_RETRIES
  {
    Settle(n, self, ids) == Settle(m, self, ids)
  }

  lemma AlikeThrough(n: Strand, next: Strand, m: Strand, self: WebsocketSession, ids: seq<string>)
    requires |ids| == MAX_SESSION_ID_RETRIES
    requires Alike(n, next, self, ids) && (next == m || Alike(next, m, self, ids))
    ensures Alike(n, m, self, ids)
  {
  }

  lemma SettleAttempt(n: Strand, self: WebsocketSession, ids: seq<string>)
    requires n.s.pc.Draw? && |ids| == MAX_SESSION_ID_RETRIES
    ensures Alike(n, Attempted(n, self, ids[n.s.pc.attempt]), self, ids)
  {
    var n1 := TakeTurn(n, self, Due(n.s.pc, ids));
    assert Settle(n, self, ids) == Settle(n1, self, ids);
    if n1.s.pc.Emplace? {
      var n2 := TakeTurn(n1, self, "");
      assert Settle(n1, self, ids) == Settle(n2, self, ids);
      if n2.s.pc.SetId? {
        assert Settle(n2, self, ids) == Settle(TakeTurn(n2, self, ""), self, ids);
      }
    }
  }

  lemma AttemptIsRegistration(n: Strand, self: WebsocketSession, ids: seq<string>)
    requires n.s.pc.Draw? && |ids| == MAX_SESSION_ID_RETRIES
    ensures var attempt := n.s.pc.attempt;
            var next := Attempted(n, self, ids[attempt]);
            Registered(n, TryRegister(n.d.entries, self, ids[attempt..]))
            == if next.s.pc.Draw? then Registered(next, TryRegister(n.d.entries, self, ids[attempt + 1..])) else next
  {
    TryNext(n.d.entries, self, ids, n.s.pc.attempt);
    if n.s.pc.attempt + 1 == MAX_SESSION_ID_RETRIES {
      assert ids[n.s.pc.attempt + 1..] == [];
    }
  }

  /** One turn of the loop, and what is left to do after it. */
  lemma NextAttempt(n: Strand, self: WebsocketSession, ids: seq<string>) returns (next: Strand)
    requires n.s.pc.Draw? && |ids| == MAX_SESSION_ID_RETRIES
    ensures Alike(n, next, self, ids)
    ensures next.s.pc.Draw? ==> next.s.pc.attempt == n.s.pc.attempt + 1 && next.d.entries == n.d.entries
    ensures Registered(n, TryRegister(n.d.entries, self, ids[n.s.pc.attempt..]))
            == if next.s.pc.Draw? then Registered(next, TryRegister(n.d.entries, self, ids[n.s.pc.attempt + 1..]))
               else next
  {
    next := Attempted(n, self, ids[n.s.pc.attempt]);
    SettleAttempt(n, self, ids);
    AttemptIsRegistration(n, self, ids);
  }

  lemma {:induction false} SettleRegister(
      n: Strand, self: WebsocketSession, ids: seq<string>, r: Registration<WebsocketSession>)
    requires n.s.pc.Draw? && |ids| == MAX_SESSION_ID_RETRIES
    requires r == TryRegister(n.d.entries, self, ids[n.s.pc.attempt..])
    ensures Alike(n, Registered(n, r), self, ids)
    decreases MAX_SESSION_ID_RETRIES - n.s.pc.attempt
  {
    var next := NextAttempt(n, self, ids);
    if next.s.pc.Draw? {
      SettleRegister(next, self, ids, TryRegister(next.d.entries, self, ids[next.s.pc.attempt..]));
    }
    AlikeThrough(n, next, Registered(n, r), self, ids);
  }

  lemma SettleEntry(n: Strand, self: WebsocketSession, ids: seq<string>)
    requires n.s.pc == Draw(0) && |ids| == MAX_SESSION_ID_RETRIES
    ensures Alike(n, Registered(n, TryRegister(n.d.entries, self, ids)), self, ids)
  {
    SettleRegister(n, self, ids, TryRegister(n.d.entries, self, ids));
  }

  lemma FinishReadFailure(n: Strand, self: WebsocketSession, ids: seq<string>)
    requires n.s.pc == Idle && |ids| == MAX_SESSION_ID_RETRIES
    ensures Finish(n.(s := HandleReadFailure(n.s)), self, ids)
            == if n.s.phase == Closed then n
               else Turn(n.s.(phase := Closed, io := CancelWaits(n.s.io)),
                         if n.s.account.sid != "" then Registry.UnregisterSession(n.d, n.s.account.sid) else n.d)
  {
    var n1 := n.(s := HandleReadFailure(n.s));
    if n1.s.pc.Unregister? {
      assert Finish(n1, self, ids) == Finish(TakeTurn(n1, self, Due(n1.s.pc, ids)), self, ids);
    }
  }

  // ----- the registry

  class ConnectionManager {
    var sessions: map<string, WebsocketSession>
    /** The static counter of generate_session_id. */
    var counter: nat

    constructor ()
      ensures sessions == map[] && counter == 0
    {
      sessions := map[];
      counter := 0;
    }

    ghost function Contents(): Directory<WebsocketSession>
      reads this
    {
      Directory(sessions, counter)
    }

    method NextId(rnd: uint32) returns (id: string)
      modifies this
      ensures id == SessionId(old(counter), rnd)
      ensures counter == old(counter) + 1 && sessions == old(sessions)
    {
      id := GenerateSessionId(counter, rnd);
      counter := counter + 1;
    }

    /** The critical section of a registration. */
    method Emplace(id: string, session: WebsocketSession) returns (result: EmplaceResult)
      modifies this`sessions
      ensures result == Emplacement(old(sessions), id)
      ensures sessions == if result == Success then old(sessions)[id := session] else old(sessions)
    {
      if |sessions| >= MAX_CONNECTIONS {
        return MaxConnections;
      }
      if id in sessions {
        return Collision;
      }
      sessions := sessions[id := session];
      return Success;
    }

    /** One turn of the loop: the id, if it is the session's now, and whether to try another. */
    method Attempt(session: WebsocketSession, rnd: uint32, ghost drawn: string) returns (id: string, again: bool)
      requires drawn == SessionId(counter, rnd)
      modifies this
      ensures counter == old(counter) + 1
      ensures var usable := 1 <= |drawn| <= 128 && |old(sessions)| < 1000;
              && again == (usable && drawn in old(sessions))
              && id == (if usable && drawn !in old(sessions) then drawn else "")
              && sessions == (if usable && drawn !in old(sessions) then old(sessions)[drawn := session]
                              else old(sessions))
    {
      var candidate := NextId(rnd);
      if candidate == "" || |candidate| > MAX_SESSION_ID_LENGTH {
        return "", false;
      }
      var result := Emplace(candidate, session);
      if result == MaxConnections {
        return "", false;
      }
      if result == Success {
        return candidate, false;
      }
      return "", true;
    }

    method RegisterSession(session: WebsocketSession, rnds: seq<uint32>, ghost ids: seq<string>) returns (id: string)
      requires |rnds| == |ids| == MAX_SESSION_ID_RETRIES && ids == Candidates(counter, rnds)
      modifies this
      ensures var r := TryRegister(old(sessions), session, ids);
              id == r.id && Contents() == Directory(r.entries, old(counter) + r.used)
    {
      ghost var start := counter;
      ghost var whole := TryRegister(sessions, session, ids);
      assert ids[0..] == ids;
      var attempt := 0;
      while attempt < MAX_SESSION_ID_RETRIES
        invariant 0 <= attempt <= MAX_SESSION_ID_RETRIES
        invariant sessions == old(sessions) && counter == start + attempt
        invariant var rest := TryRegister(sessions, session, ids[attempt..]);
                  whole == rest.(used := rest.used + attempt)
      {
        CandidateAt(start, rnds, attempt);
        TryNext(sessions, session, ids, attempt);
        var again;
        id, again := Attempt(session, rnds[attempt], ids[attempt]);
        if !again {
          return id;
        }
        attempt := attempt + 1;
      }
      assert ids[attempt..] == [];
      return "";
    }

    method UnregisterSession(id: string)
      modifies this
      ensures Contents() == if id == "" then old(Contents()) else Registry.UnregisterSession(old(Contents()), id)
    {
      if id == "" {
        return;
      }
      sessions := sessions - {id};
    }

    method GetSession(id: string) returns (session: WebsocketSession?)
      ensures if id in sessions then session == sessions[id] else session == null
    {
      if id in sessions {
        session := sessions[id];
      } else {
        session := null;
      }
    }

    /** The sessions of a map, one for every entry. */
    static method InTurn(entries: map<string, WebsocketSession>) returns (order: seq<WebsocketSession>)
      ensures forall id :: id in entries ==> entries[id] in order
      ensures forall session :: session in order ==> session in entries.Values
      ensures forall session :: Times(order, session) == |EntriesOf(entries, entries.Keys, session)|
    {
      order := [];
      var left := entries.Keys;
      ghost var done: set<string> := {};
      while left != {}
        invariant done !! left && done + left == entries.Keys
        invariant forall id :: id in done ==> entries[id] in order
        invariant forall session :: session in order ==> session in entries.Values
        invariant forall session :: Times(order, session) == |EntriesOf(entries, done, session)|
        decreases |left|
      {
        var id :| id in left;
        EntriesGrow(entries, done, id);
        TimesNext(order, entries[id]);
        assert entries[id] in entries.Values;
        order := order + [entries[id]];
        done, left := done + {id}, left - {id};
      }
      assert done == entries.Keys;
    }

    static method CloseAll(order: seq<WebsocketSession>)
      modifies (set session | session in order)`closeRequested, (set session | session in order)`callbacks
      ensures forall session :: session in order ==> session.AskedToClose(Times(order, session))
    {
      for i := 0 to |order|
        invariant forall session :: session in order ==> session.AskedToClose(Times(order[..i], session))
      {
        assert order[..i + 1][..i] == order[..i];
        order[i].CloseFromOutside();
      }
      assert order[..|order|] == order;
    }

    /**
     * Takes the whole map and closes what was in it from the caller's thread, once
     * for every entry: by ServerSystem.RegistryAgrees that is once for every session.
     */
    method StopAll()
      modifies this`sessions, sessions.Values`closeRequested, sessions.Values`callbacks
      ensures sessions == map[]
      ensures forall id :: id in old(sessions) ==>
                old(sessions)[id].AskedToClose(|EntriesOf(old(sessions), old(sessions).Keys, old(sessions)[id])|)
    {
      var taken := sessions;
      sessions := map[];
      var order := InTurn(taken);
      CloseAll(order);
    }
  }

  /** Those of the ids under which a session is entered. */
  function EntriesOf(entries: map<string, WebsocketSession>, ids: set<string>, session: WebsocketSession): set<string> {
    set id | id in ids && id in entries && entries[id] == session
  }

  lemma EntriesGrow(entries: map<string, WebsocketSession>, ids: set<string>, id: string)
    requires id in entries && id !in ids
    ensures |EntriesOf(entries, ids + {id}, entries[id])| == |EntriesOf(entries, ids, entries[id])| + 1
    ensures forall session :: session != entries[id] ==>
              EntriesOf(entries, ids + {id}, session) == EntriesOf(entries, ids, session)
  {
    assert EntriesOf(entries, ids + {id}, entries[id]) == EntriesOf(entries, ids, entries[id]) + {id};
  }

  /** How often a session comes up. */
  function Times(order: seq<WebsocketSession>, session: WebsocketSession): nat {
    if order == [] then 0 else
      Times(order[..|order| - 1], session) + (if order[|order| - 1] == session then 1 else 0)
  }

  lemma TimesNext(order: seq<WebsocketSession>, next: WebsocketSession)
    ensures forall session ::
              Times(order + [next], session) == Times(order, session) + (if next == session then 1 else 0)
  {
    assert (order + [next])[..|order|] == order;
  }

  // ----- the session

  class WebsocketSession {
    const manager: ConnectionManager
    const timestamps: SlidingWindow

    var phase: Phase
    var closeRequested: bool
    var closeInitiated: bool
    var writing: bool
    var writeQueue: seq<Frame>
    var sessionId: string
    var lastSequenceNumber: int64
    var currentStack: int64
    var lastActivity: int
    var messageCount: nat

    /** What Asio and other threads owe the session. */
    var callbacks: nat
    var closers: nat
    var posted: nat
    var inFlight: seq<Frame>
    var io: Chains

    /** What has happened so far. */
    ghost var accepted: seq<Frame>
    ghost var written: seq<Frame>
    ghost var failed: bool
    ghost var lost: bool
    ghost var seqs: seq<int64>
    ghost var credits: seq<int64>

    ghost function State(pc: Pc): Session
      reads this
    {
      Session(phase, closeRequested, closeInitiated, callbacks, closers, pc,
              Writer(writing, writeQueue, posted, inFlight, accepted, written, failed, lost),
              io,
              Account(sessionId, lastSequenceNumber, currentStack, seqs, credits))
    }

    ghost function Now(pc: Pc): Strand
      reads this, manager
    {
      Turn(State(pc), manager.Contents())
    }

    /** Another thread has called close() `times` times, each from start to end. */
    twostate predicate AskedToClose(times: nat)
      reads this
    {
      && closeRequested == (old(closeRequested) || times > 0)
      && callbacks == old(callbacks) + (if old(phase) == Closed then 0 else times)
    }

    /** The ids the generator is going to return, if no other thread calls it. */
    ghost predicate Generated(rnds: seq<uint32>, ids: seq<string>)
      reads manager
    {
      |rnds| == |ids| == MAX_SESSION_ID_RETRIES && ids == Candidates(manager.counter, rnds)
    }

    /** A message handler that has reached a verdict. */
    ghost function Judged(v: Verdict): Strand
      reads this, manager
    {
      Now(Idle).(s := HandleMessage(State(Idle), v))
    }

    ghost function Traffic(): (seq<int>, Activity)
      reads this, timestamps
    {
      (timestamps.timestamps, Activity(lastActivity, messageCount))
    }

    /** The constructor and run(). */
    constructor (manager: ConnectionManager, now: int)
      ensures State(Idle) == Init() && Traffic() == ([], Activity(now, 0))
      ensures this.manager == manager && fresh(timestamps)
    {
      this.manager := manager;
      timestamps := new SlidingWindow();
      phase, closeRequested, closeInitiated := Unauthenticated, false, false;
      writing, writeQueue, sessionId := false, [], "";
      lastSequenceNumber, currentStack := -1, PLACEHOLDER_STACK;
      lastActivity, messageCount := now, 0;
      callbacks, closers, posted, inFlight := 0, 0, 0, [];
      io := Chains(1, 0, 1, 0, 0, 0);
      accepted, written, failed, lost, seqs, credits := [], [], false, false, [], [];
    }

    // ----- writing

    /** The queue's critical section, the one way in for messages. */
    method QueueMessage(f: Frame) returns (queued: bool)
      modifies this`writing, this`writeQueue, this`posted, this`accepted
      ensures forall pc :: (State(pc), queued) == Enqueue(old(State(pc)), f)
      ensures queued <==> old(phase) != Closed && !old(closeRequested) && |old(writeQueue)| < 100
      ensures queued ==> writeQueue == old(writeQueue) + [f] && accepted == old(accepted) + [f] && writing
      ensures queued ==> posted == old(posted) + (if old(writing) then 0 else 1)
      ensures !queued ==> unchanged(this)
    {
      if phase == Closed || closeRequested {
        return false;
      }
      if |writeQueue| >= MAX_WRITE_QUEUE_SIZE {
        return false;
      }
      writeQueue := writeQueue + [f];
      accepted := accepted + [f];
      if !writing {
        writing := true;
        posted := posted + 1;
      }
      return true;
    }

    /** The strand runs a posted do_write. */
    method RunPostedWrite(memory: bool, ghost ids: seq<string>)
      requires posted > 0 && |ids| == MAX_SESSION_ID_RETRIES
      modifies this`posted, this`writing, this`writeQueue, this`inFlight, this`lost
      modifies this`closeRequested, this`phase, this`closeInitiated, this`io, manager
      ensures Now(Idle) == Finish(Begin(old(Now(Idle)), if memory then RunPosted else RunPostedNoMemory), this, ids)
    {
      ghost var n := Begin(Now(Idle), if memory then RunPosted else RunPostedNoMemory);
      posted := posted - 1;
      assert n == Now(Idle).(s := HandlePosted(State(Idle), memory));
      DoWrite(memory, ids);
    }

    /** `memory` tells whether the message's buffer could be allocated. */
    method DoWrite(memory: bool, ghost ids: seq<string>)
      requires |ids| == MAX_SESSION_ID_RETRIES
      modifies this`writing, this`writeQueue, this`inFlight, this`lost
      modifies this`closeRequested, this`phase, this`closeInitiated, this`io, manager
      ensures Now(Idle) == Finish(old(Now(Idle)).(s := HandlePosted(old(State(Idle)), memory)), this, ids)
    {
      if phase == Closed || writeQueue == [] {
        writing := false;
        return;
      }
      if !memory {
        DropMessage(ids);
        return;
      }
      inFlight := inFlight + [writeQueue[0]];
      writeQueue := writeQueue[1..];
    }

    /** The message cannot be sent and is gone; the session gives up. */
    method DropMessage(ghost ids: seq<string>)
      requires phase != Closed && writeQueue != [] && |ids| == MAX_SESSION_ID_RETRIES
      modifies this`writing, this`writeQueue, this`lost
      modifies this`closeRequested, this`phase, this`closeInitiated, this`io, manager
      ensures Now(Idle) == Finish(old(Now(Idle)).(s := HandlePosted(old(State(Idle)), false)), this, ids)
    {
      writeQueue := writeQueue[1..];
      lost := true;
      ghost var n := Now(DropFrame);
      assert n.s == HandlePosted(old(State(Idle)), false);
      writing := false;
      FinishDropping(n, this, ids);
      Close(Done, ids);
    }

    method OnWrite(ok: bool, ghost ids: seq<string>)
      requires inFlight != [] && |ids| == MAX_SESSION_ID_RETRIES
      modifies this, manager
      ensures Now(Idle) == Finish(Begin(old(Now(Idle)), WriteDone(ok)), this, ids)
    {
      var message := inFlight[0];
      inFlight := inFlight[1..];
      if ok {
        AfterWrite(message, ids);
      } else {
        AfterWriteError(ids);
      }
    }

    method AfterWriteError(ghost ids: seq<string>)
      requires |ids| == MAX_SESSION_ID_RETRIES
      modifies this`writing, this`writeQueue, this`failed
      modifies this`closeRequested, this`phase, this`closeInitiated, this`io, manager
      ensures Now(Idle) == Finish(old(Now(Idle)).(s := HandleWriteFailure(old(State(Idle)))), this, ids)
    {
      writing := false;
      closeRequested := true;
      writeQueue := [];
      failed := true;
      assert Now(FinishClose(Done)).s == HandleWriteFailure(old(State(Idle)));
      FinishClosing(Now(FinishClose(Done)), this, ids);
      DoClose(Done, ids);
    }

    method AfterWrite(ghost message: Frame, ghost ids: seq<string>)
      requires |ids| == MAX_SESSION_ID_RETRIES
      modifies this`writing, this`written, this`posted
      modifies this`closeRequested, this`phase, this`closeInitiated, this`io, manager
      ensures Now(Idle) == Finish(old(Now(Idle)).(s := HandleWritten(old(State(Idle)), message)), this, ids)
    {
      written := written + [message];
      writing := false;
      if closeRequested && writeQueue == [] {
        FinishClosing(Now(FinishClose(Done)), this, ids);
        DoClose(Done, ids);
      } else if writeQueue != [] {
        writing := true;
        posted := posted + 1;
      }
    }

    // ----- closing

    method CancelDeadline()
      modifies this`io
      ensures io == CancelWaits(old(io))
    {
      io := CancelWaits(io);
    }

    /** The two guards of do_close, and the timer. */
    method BeginClosing() returns (closes: bool)
      modifies this`phase, this`closeInitiated, this`io
      ensures closes == (!old(closeInitiated) && old(phase) != Closed)
      ensures closeInitiated && phase == if old(closeInitiated) then old(phase) else Closed
      ensures io == if closes then CancelWaits(old(io)) else old(io)
    {
      if closeInitiated {
        return false;
      }
      closeInitiated := true;
      var previous := phase;
      phase := Closed;
      if previous == Closed {
        return false;
      }
      CancelDeadline();
      return true;
    }

    /** The socket operations after the registry are not part of this model. */
    method DoClose(ghost next: Next, ghost ids: seq<string>)
      requires |ids| == MAX_SESSION_ID_RETRIES
      modifies this`phase, this`closeInitiated, this`io, manager
      ensures Now(After(next)) == Settle(old(Now(FinishClose(next))), this, ids)
      ensures phase == old(phase) || phase == Closed
    {
      SettleFinishClose(Now(FinishClose(next)), this, ids);
      var closes := BeginClosing();
      if closes && sessionId != "" {
        manager.UnregisterSession(sessionId);
      }
    }

    /** The callback of close(): a write in flight will see to the closing itself. */
    method CloseCallback(ghost next: Next, ghost ids: seq<string>)
      requires |ids| == MAX_SESSION_ID_RETRIES
      modifies this`phase, this`closeInitiated, this`io, manager
      ensures Now(After(next)) == old(if writing then Now(After(next)) else Settle(Now(FinishClose(next)), this, ids))
      ensures phase == old(phase) || phase == Closed
    {
      var writeInFlight := writing;
      if !writeInFlight {
        DoClose(next, ids);
      }
    }

    /** Dispatching the callback runs it at once on the strand. */
    method Close(ghost next: Next, ghost ids: seq<string>)
      requires |ids| == MAX_SESSION_ID_RETRIES
      modifies this`closeRequested, this`phase, this`closeInitiated, this`io, manager
      ensures Now(After(next)) == Settle(old(Now(RequestClose(next))), this, ids)
      ensures closeRequested && (phase == old(phase) || phase == Closed)
    {
      SettleRequestClose(Now(RequestClose(next)), this, ids);
      closeRequested := true;
      if phase == Closed {
        return;
      }
      CloseCallback(next, ids);
    }

    /** From any other thread it queues it. */
    method CloseFromOutside()
      modifies this`closeRequested, this`callbacks
      ensures forall pc :: State(pc) == DispatchClose(StoreClose(old(State(pc))))
      ensures closeRequested && callbacks == old(callbacks) + (if phase == Closed then 0 else 1)
    {
      closeRequested := true;
      if phase == Closed {
        return;
      }
      callbacks := callbacks + 1;
    }

    method RunCloseCallback(ghost ids: seq<string>)
      requires callbacks > 0 && |ids| == MAX_SESSION_ID_RETRIES
      modifies this`callbacks, this`phase, this`closeInitiated, this`io, manager
      ensures Now(Idle) == Finish(Begin(old(Now(Idle)), RunCallback), this, ids)
    {
      ghost var begun := Begin(Now(Idle), RunCallback);
      callbacks := callbacks - 1;
      ghost var n := Now(FinishClose(Done));
      assert begun == if writing then Now(Idle) else n;
      FinishClosing(n, this, ids);
      CloseCallback(Done, ids);
    }

    // ----- refusing

    method SendProtocolError(code: string, text: string)
      modifies this`writing, this`writeQueue, this`posted, this`accepted
      ensures forall pc :: State(pc)
                == Enqueue(old(State(pc)), ErrorFrame(ErrorMessage(code, text, SidOption(old(sessionId))))).0
      ensures accepted
              == old(accepted + (if TakesMessages(State(Idle)) then [ErrorOf(State(Idle), code, text)] else []))
    {
      var _ := QueueMessage(ErrorFrame(ErrorMessage(code, text, if sessionId == "" then None else Some(sessionId))));
    }

    /** The pair every refusal ends with. */
    method Refuse(code: string, text: string, ghost next: Next, ghost ids: seq<string>)
      requires |ids| == MAX_SESSION_ID_RETRIES
      modifies this`writing, this`writeQueue, this`posted, this`accepted
      modifies this`closeRequested, this`phase, this`closeInitiated, this`io, manager
      ensures Now(After(next)) == Settle(old(Now(Fail(code, text, next))), this, ids)
      ensures Refusal(old(State(Idle)), State(Idle), code, text)
    {
      ghost var n := Now(Fail(code, text, next));
      SendProtocolError(code, text);
      assert TakeTurn(n, this, "") == Now(RequestClose(next));
      Close(next, ids);
    }

    method CheckRateLimitOrClose(now: int, limits: Limits, ghost ids: seq<string>) returns (admitted: bool)
      requires |ids| == MAX_SESSION_ID_RETRIES
      modifies this`writing, this`writeQueue, this`posted, this`accepted
      modifies this`closeRequested, this`phase, this`closeInitiated, this`io, manager, timestamps
      ensures (timestamps.timestamps, admitted)
              == Admit(old(timestamps.timestamps), now, Nanos(limits.window), limits.maxMessages)
      ensures admitted ==> Now(Idle) == old(Now(Idle))
      ensures !admitted ==>
                && Now(Idle) == Settle(old(Now(Fail("SESSION_CLOSED", "Rate limit exceeded", Done))), this, ids)
                && Refusal(old(State(Idle)), State(Idle), "SESSION_CLOSED", "Rate limit exceeded")
    {
      admitted := timestamps.Check(now, Nanos(limits.window), limits.maxMessages);
      if !admitted {
        Refuse("SESSION_CLOSED", "Rate limit exceeded", Done, ids);
      }
    }

    method CheckSuspiciousActivity(now: int) returns (burst: bool)
      modifies this`lastActivity, this`messageCount
      ensures (Traffic().1, burst) == Observe(old(Traffic().1), now)
      ensures burst <==> old(messageCount) >= 100 && -1_000_000_000 < now - old(lastActivity) < 1_000_000_000
    {
      BurstExactly(Traffic().1, now);
      messageCount := messageCount + 1;
      var elapsed := WholeSeconds(now - lastActivity);
      lastActivity := now;
      burst := messageCount > BURST_FREE_MESSAGES && elapsed == 0;
    }

    /** On failure the session has been refused and closed. */
    method ValidateSessionId(provided: string, ghost ids: seq<string>) returns (ok: bool)
      requires |ids| == MAX_SESSION_ID_RETRIES
      modifies this`writing, this`writeQueue, this`posted, this`accepted
      modifies this`closeRequested, this`phase, this`closeInitiated, this`io, manager
      ensures ok <==> IdError(provided, old(sessionId)).None?
      ensures ok ==> Now(Idle) == old(Now(Idle))
      ensures !ok ==>
                var text := IdError(provided, old(sessionId)).value;
                && Now(RearmTimer) == Settle(old(Now(Fail("PROTOCOL_ERROR", text, Rearm))), this, ids)
                && Refusal(old(State(Idle)), State(Idle), "PROTOCOL_ERROR", text)
    {
      if provided == "" {
        Refuse("PROTOCOL_ERROR", "Session ID is required", Rearm, ids);
        return false;
      }
      if |provided| > MAX_SESSION_ID_LENGTH {
        Refuse("PROTOCOL_ERROR", "Session ID exceeds maximum length", Rearm, ids);
        return false;
      }
      if provided != sessionId {
        Refuse("PROTOCOL_ERROR", "Session ID mismatch", Rearm, ids);
        return false;
      }
      return true;
    }

    // ----- messages

    method HandleHandshakeMessage(input: Option<Json>, rnds: seq<uint32>, ghost ids: seq<string>)
      requires phase == Unauthenticated && Generated(rnds, ids)
      modifies this`writing, this`writeQueue, this`posted, this`accepted
      modifies this`closeRequested, this`phase, this`closeInitiated, this`io, manager
      modifies this`sessionId
      ensures Now(RearmTimer) == Settle(old(Judged(JudgeHandshake(input))), this, ids)
      ensures HandshakeHandled(old(State(Idle)), State(Idle), input,
                               TryRegister(old(manager.sessions), this, ids).id)
    {
      HandshakeUnderstood(input);
      var handshake := if input.Some? then ParseHandshake(input.value) else Rejected;
      if !handshake.Ok? {
        Refuse("MALFORMED_HANDSHAKE", "Expected HANDSHAKE message", Rearm, ids);
      } else if handshake.value.protocolVersion != PROTOCOL_VERSION {
        Refuse("INCOMPATIBLE_VERSION", "Expected " + PROTOCOL_VERSION, Rearm, ids);
      } else {
        EnterRegistry(rnds, ids);
      }
    }

    method EnterRegistry(rnds: seq<uint32>, ghost ids: seq<string>)
      requires Generated(rnds, ids)
      modifies this`writing, this`writeQueue, this`posted, this`accepted
      modifies this`closeRequested, this`phase, this`closeInitiated, this`io, manager
      modifies this`sessionId
      ensures Now(RearmTimer) == Settle(old(Now(Draw(0))), this, ids)
      ensures old(phase) == Unauthenticated ==>
                RegistrationHandled(old(State(Idle)), State(Idle), TryRegister(old(manager.sessions), this, ids).id)
    {
      ghost var n := Now(Draw(0));
      SettleEntry(n, this, ids);
      var newId := JoinRegistry(rnds, ids);
      assert Entering(Now(Idle), newId) == Registered(n, TryRegister(n.d.entries, this, ids));
      TakeId(newId, ids);
    }

    method JoinRegistry(rnds: seq<uint32>, ghost ids: seq<string>) returns (newId: string)
      requires Generated(rnds, ids)
      modifies manager
      ensures var r := TryRegister(old(manager.sessions), this, ids);
              newId == r.id && manager.Contents() == Directory(r.entries, old(manager.counter) + r.used)
    {
      newId := manager.RegisterSession(this, rnds, ids);
    }

    /** What the handshake makes of the id that register_session returned. */
    method TakeId(newId: string, ghost ids: seq<string>)
      requires |ids| == MAX_SESSION_ID_RETRIES
      modifies this`writing, this`writeQueue, this`posted, this`accepted
      modifies this`closeRequested, this`phase, this`closeInitiated, this`io, manager
      modifies this`sessionId
      ensures Now(RearmTimer) == Settle(old(Entering(Now(Idle), newId)), this, ids)
      ensures old(phase) == Unauthenticated ==> RegistrationHandled(old(State(Idle)), State(Idle), newId)
    {
      if newId == "" {
        Refuse("PROTOCOL_ERROR", "Failed to generate unique session ID", Rearm, ids);
      } else {
        sessionId := newId;
        AnswerHandshake(newId, ids);
      }
    }

    method AnswerHandshake(id: string, ghost ids: seq<string>)
      requires |ids| == MAX_SESSION_ID_RETRIES
      modifies this`writing, this`writeQueue, this`posted, this`accepted
      modifies this`closeRequested, this`phase, this`closeInitiated, this`io, manager
      ensures Now(RearmTimer) == Settle(old(Now(Respond(id))), this, ids)
      ensures old(sessionId) == id && old(phase) == Unauthenticated ==>
                EntryHandled(old(State(Idle)), State(Idle), id)
    {
      SettleRespond(Now(Respond(id)), this, ids);
      var queued := QueueMessage(HandshakeFrame(HandshakeResponse(id, PLACEHOLDER_SEAT, PLACEHOLDER_STACK)));
      if !queued {
        Close(Rearm, ids);
      } else {
        phase := Authenticated;
      }
    }

    method HandleAction(j: Json, maxGap: int64, ghost ids: seq<string>)
      requires phase == Authenticated && |ids| == MAX_SESSION_ID_RETRIES
      modifies this`writing, this`writeQueue, this`posted, this`accepted
      modifies this`closeRequested, this`phase, this`closeInitiated, this`io, manager
      modifies this`lastSequenceNumber, this`seqs
      ensures Now(RearmTimer) == Settle(old(Judged(JudgeAction(State(Idle).account, j, maxGap))), this, ids)
      ensures old(lastSequenceNumber) < -1 || maxGap < 0 || ActionHandled(old(State(Idle)), State(Idle), j, maxGap)
    {
      ActionUnderstood(j, sessionId);
      var action := ParseAction(j);
      if !action.Ok? {
        Refuse("MALFORMED_MESSAGE", "Invalid ACTION message format", Rearm, ids);
        return;
      }
      var valid := ValidateSessionId(action.value.sessionId, ids);
      if valid {
        CheckSequence(action.value.sequenceNumber, maxGap, ids);
      }
    }

    method CheckSequence(n: int64, maxGap: int64, ghost ids: seq<string>)
      requires phase == Authenticated && |ids| == MAX_SESSION_ID_RETRIES
      modifies this`writing, this`writeQueue, this`posted, this`accepted
      modifies this`closeRequested, this`phase, this`closeInitiated, this`io, manager
      modifies this`lastSequenceNumber, this`seqs
      ensures Now(RearmTimer) == Settle(old(Judged(JudgeSequence(lastSequenceNumber, n, maxGap))), this, ids)
      ensures old(lastSequenceNumber) < -1 || maxGap < 0 || NumberHandled(old(State(Idle)), State(Idle), n, maxGap)
    {
      if -1 <= lastSequenceNumber < n && maxGap >= 0 { JudgedNumber(lastSequenceNumber, n, maxGap); }
      if n <= lastSequenceNumber {
        Refuse("PROTOCOL_ERROR", "Invalid sequence number - possible replay attack", Rearm, ids);
        return;
      }
      var gap := ToUint64(ToUint64(n) - ToUint64(lastSequenceNumber));
      if gap > ToUint64(maxGap) {
        Refuse("PROTOCOL_ERROR", "Sequence number gap too large", Rearm, ids);
        return;
      }
      lastSequenceNumber := n;
      seqs := seqs + [n];
    }

    method HandleReload(j: Json, ghost ids: seq<string>)
      requires phase == Authenticated && |ids| == MAX_SESSION_ID_RETRIES
      modifies this`writing, this`writeQueue, this`posted, this`accepted
      modifies this`closeRequested, this`phase, this`closeInitiated, this`io, manager
      modifies this`currentStack, this`credits
      ensures Now(RearmTimer) == Settle(old(Judged(JudgeReload(State(Idle).account, j))), this, ids)
      ensures ReloadHandled(old(State(Idle)), State(Idle), j)
    {
      ReloadUnderstood(j, sessionId);
      var reload := ParseReload(j);
      if !reload.Ok? {
        Refuse("MALFORMED_MESSAGE", "Invalid RELOAD_REQUEST format", Rearm, ids);
        return;
      }
      GrantToOwner(reload.value, ids);
    }

    method GrantToOwner(m: ReloadRequest, ghost ids: seq<string>)
      requires |ids| == MAX_SESSION_ID_RETRIES && ValidAmount(m.requestedAmount)
      modifies this`writing, this`writeQueue, this`posted, this`accepted
      modifies this`closeRequested, this`phase, this`closeInitiated, this`io, manager
      modifies this`currentStack, this`credits
      ensures var idError := IdError(m.sessionId, old(sessionId));
              if idError.Some? then
                && Refusal(old(State(Idle)), State(Idle), "PROTOCOL_ERROR", idError.value)
                && Now(RearmTimer) == Settle(old(Now(Fail("PROTOCOL_ERROR", idError.value, Rearm))), this, ids)
              else
                && CreditHandled(old(State(Idle)), State(Idle), m.requestedAmount)
                && Now(RearmTimer) == Settle(old(Now(Credit(m.requestedAmount))), this, ids)
    {
      var valid := ValidateSessionId(m.sessionId, ids);
      if valid {
        GrantReload(m.requestedAmount, ids);
      }
    }

    /** The stack is committed only once the response is queued. */
    method GrantReload(amount: int64, ghost ids: seq<string>)
      requires |ids| == MAX_SESSION_ID_RETRIES
      modifies this`writing, this`writeQueue, this`posted, this`accepted, this`currentStack, this`credits
      modifies this`closeRequested, this`phase, this`closeInitiated, this`io, manager
      ensures Now(RearmTimer) == Settle(old(Now(Credit(amount))), this, ids)
      ensures 1 <= amount <= 1_000_000_000_000_000 ==> CreditHandled(old(State(Idle)), State(Idle), amount)
    {
      CreditSettles(Now(Credit(amount)), this, ids);
      SettleCredit(Now(Credit(amount)), this, ids);
      var sum := ToInt64(currentStack + amount);
      var newStack := if sum < MAX_AMOUNT then sum else MAX_AMOUNT;
      var queued := QueueMessage(ReloadFrame(ReloadResponse(true, newStack)));
      if !queued {
        Close(Rearm, ids);
      } else {
        currentStack := newStack;
        credits := credits + [amount];
      }
    }

    method HandleDisconnect(j: Json, ghost ids: seq<string>)
      requires phase == Authenticated && |ids| == MAX_SESSION_ID_RETRIES
      modifies this`writing, this`writeQueue, this`posted, this`accepted
      modifies this`closeRequested, this`phase, this`closeInitiated, this`io, manager
      ensures Now(RearmTimer) == Settle(old(Judged(JudgeDisconnect(State(Idle).account, j))), this, ids)
      ensures DisconnectHandled(old(State(Idle)), State(Idle), j)
    {
      DisconnectUnderstood(j, sessionId);
      var disconnect := ParseDisconnect(j);
      if !disconnect.Ok? {
        Refuse("MALFORMED_MESSAGE", "Invalid DISCONNECT format", Rearm, ids);
        return;
      }
      CloseForOwner(disconnect.value.sessionId, ids);
    }

    method CloseForOwner(provided: string, ghost ids: seq<string>)
      requires |ids| == MAX_SESSION_ID_RETRIES
      modifies this`writing, this`writeQueue, this`posted, this`accepted
      modifies this`closeRequested, this`phase, this`closeInitiated, this`io, manager
      ensures var idError := IdError(provided, old(sessionId));
              if idError.Some? then
                && Refusal(old(State(Idle)), State(Idle), "PROTOCOL_ERROR", idError.value)
                && Now(RearmTimer) == Settle(old(Now(Fail("PROTOCOL_ERROR", idError.value, Rearm))), this, ids)
              else
                && GivenUp(old(State(Idle)), State(Idle))
                && Now(RearmTimer) == Settle(old(Now(RequestClose(Rearm))), this, ids)
    {
      var valid := ValidateSessionId(provided, ids);
      if valid {
        Close(Rearm, ids);
      }
    }

    method HandleAuthenticatedMessage(input: Option<Json>, maxGap: int64, ghost ids: seq<string>)
      requires phase == Authenticated && |ids| == MAX_SESSION_ID_RETRIES
      modifies this`writing, this`writeQueue, this`posted, this`accepted
      modifies this`closeRequested, this`phase, this`closeInitiated, this`io, manager
      modifies this`lastSequenceNumber, this`currentStack, this`seqs, this`credits
      ensures Now(RearmTimer) == Settle(old(Judged(JudgeAuthenticated(State(Idle).account, input, maxGap))), this, ids)
    {
      var messageType := ExtractMessageType(input);
      if messageType.None? {
        Refuse("MALFORMED_MESSAGE", "Missing or invalid message_type field", Rearm, ids);
      } else if messageType.value == "ACTION" {
        HandleAction(input.value, maxGap, ids);
      } else if messageType.value == "RELOAD_REQUEST" {
        HandleReload(input.value, ids);
      } else if messageType.value == "DISCONNECT" {
        HandleDisconnect(input.value, ids);
      } else {
        Refuse("PROTOCOL_ERROR", "Unknown message type: " + TruncField(messageType.value), Rearm, ids);
      }
    }

    // ----- reading

    method DoRead(ghost ids: seq<string>)
      requires |ids| == MAX_SESSION_ID_RETRIES
      modifies this`io
      ensures Now(Idle) == Finish(old(Now(StartRead)), this, ids)
    {
      if phase == Closed || closeRequested {
        return;
      }
      io := io.(reading := io.reading + 1);
    }

    /** on_read's last guard: extend the deadline and read on, if the session is still in business. */
    method ReadOn(ghost ids: seq<string>)
      requires |ids| == MAX_SESSION_ID_RETRIES
      modifies this`io
      ensures Now(Idle) == Finish(old(Now(RearmTimer)), this, ids)
    {
      ghost var n := Now(RearmTimer);
      if phase != Closed && !closeRequested {
        CancelDeadline();
        assert TakeTurn(n, this, "") == Now(StartRead);
        DoRead(ids);
      }
    }

    ghost function ToConnection(): Connection
      reads this, timestamps
    {
      Connection(State(Idle), timestamps.timestamps, Activity(lastActivity, messageCount))
    }

    /** By the phase, to the handshake or to the game. */
    method Route(input: Option<Json>, maxGap: int64, rnds: seq<uint32>, ghost ids: seq<string>)
      requires phase != Closed && Generated(rnds, ids)
      modifies this`writing, this`writeQueue, this`posted, this`accepted
      modifies this`closeRequested, this`phase, this`closeInitiated, this`io, manager
      modifies this`sessionId, this`lastSequenceNumber, this`currentStack, this`seqs, this`credits
      ensures Now(Idle) == Finish(old(Judged(Judge(State(Idle), input, maxGap))), this, ids)
    {
      FinishAfterSettle(Judged(Judge(State(Idle), input, maxGap)), this, ids);
      if phase == Unauthenticated {
        HandleHandshakeMessage(input, rnds, ids);
      } else {
        HandleAuthenticatedMessage(input, maxGap, ids);
      }
      ReadOn(ids);
    }

    method RefuseBurst(ghost ids: seq<string>)
      requires phase != Closed && |ids| == MAX_SESSION_ID_RETRIES
      modifies this`writing, this`writeQueue, this`posted, this`accepted
      modifies this`closeRequested, this`phase, this`closeInitiated, this`io, manager
      ensures Now(Idle)
              == Finish(old(Judged(Refused("SESSION_CLOSED", "Suspicious activity detected", Done))), this, ids)
    {
      FinishAfterSettle(Now(Fail("SESSION_CLOSED", "Suspicious activity detected", Done)), this, ids);
      Refuse("SESSION_CLOSED", "Suspicious activity detected", Done, ids);
    }

    /** What on_read does with a message within the rate limit. */
    method HandleAdmitted(checked: int, input: Option<Json>, maxGap: int64, rnds: seq<uint32>, ghost ids: seq<string>)
      requires phase != Closed && Generated(rnds, ids)
      modifies this`lastActivity, this`messageCount
      modifies this`writing, this`writeQueue, this`posted, this`accepted
      modifies this`closeRequested, this`phase, this`closeInitiated, this`io, manager
      modifies this`sessionId, this`lastSequenceNumber, this`currentStack, this`seqs, this`credits
      ensures var (activity, burst) := Observe(old(Traffic().1), checked);
              && Traffic().1 == activity
              && Now(Idle) == Finish(old(Judged(
                   if burst then Refused("SESSION_CLOSED", "Suspicious activity detected", Done)
                   else Judge(State(Idle), input, maxGap))), this, ids)
    {
      var burst := CheckSuspiciousActivity(checked);
      if burst {
        RefuseBurst(ids);
        return;
      }
      Route(input, maxGap, rnds, ids);
    }

    /** What on_read does with a message, from the traffic checks on. */
    method HandleMessageText(arrived: int, checked: int, input: Option<Json>, limits: Limits,
            rnds: seq<uint32>, ghost ids: seq<string>)
      requires phase != Closed && Generated(rnds, ids)
      modifies this, manager, timestamps
      ensures var (v, deque, activity) := Inspect(old(ToConnection()), Receive(arrived, checked, input, limits));
              Now(Idle) == Finish(old(Judged(v)), this, ids) && Traffic() == (deque, activity)
    {
      FinishAfterSettle(Now(Fail("SESSION_CLOSED", "Rate limit exceeded", Done)), this, ids);
      var admitted := CheckRateLimitOrClose(arrived, limits, ids);
      if admitted {
        HandleAdmitted(checked, input, limits.maxGap, rnds, ids);
      }
    }

    /** on_read with a message: the session does what its connection's history says. */
    method OnRead(arrived: int, checked: int, input: Option<Json>, limits: Limits,
            rnds: seq<uint32>, ghost ids: seq<string>)
      requires io.reading > 0 && Generated(rnds, ids)
      requires phase != Closed && Passes(ToConnection(), Receive(arrived, checked, input, limits)) ==>
                 Defined(State(Idle), input)
      modifies this, manager, timestamps
      ensures var c := Happen(old(ToConnection()), Receive(arrived, checked, input, limits));
              Now(Idle) == Finish(Turn(c.s, old(manager.Contents())), this, ids)
              && Traffic() == (c.deque, c.activity)
    {
      ghost var c, e := ToConnection(), Receive(arrived, checked, input, limits);
      io := io.(reading := io.reading - 1);
      if phase == Closed {
        HappenTooLate(c, e);
        return;
      }
      HappenDelivered(c, e);
      HandleMessageText(arrived, checked, input, limits, rnds, ids);
    }

    /** on_read after the peer closed or the read failed. */
    method OnReadFailure(ghost ids: seq<string>)
      requires io.reading > 0 && |ids| == MAX_SESSION_ID_RETRIES
      modifies this`phase, this`io, manager
      ensures Now(Idle) == Finish(Begin(old(Now(Idle)), ReadFailed), this, ids)
    {
      io := io.(reading := io.reading - 1);
      FinishReadFailure(Now(Idle), this, ids);
      LoseConnection();
    }

    method LoseConnection()
      modifies this`phase, this`io, manager
      ensures Now(Idle) == old(if phase == Closed then Now(Idle) else
                Turn(State(Idle).(phase := Closed, io := CancelWaits(State(Idle).io)),
                     if sessionId != "" then Registry.UnregisterSession(manager.Contents(), sessionId)
                     else manager.Contents()))
    {
      var previous := phase;
      phase := Closed;
      if previous == Closed {
        return;
      }
      CancelDeadline();
      if sessionId != "" {
        manager.UnregisterSession(sessionId);
      }
    }

    method OnAccept(ok: bool, ghost ids: seq<string>)
      requires io.accepting > 0 && |ids| == MAX_SESSION_ID_RETRIES
      modifies this`phase, this`io
      ensures Now(Idle) == Finish(Begin(old(Now(Idle)), AcceptDone(ok)), this, ids)
    {
      io := io.(accepting := io.accepting - 1);
      if ok {
        StartReading(ids);
      } else {
        AcceptFailed();
      }
    }

    method StartReading(ghost ids: seq<string>)
      requires |ids| == MAX_SESSION_ID_RETRIES
      modifies this`io
      ensures Now(Idle) == Finish(old(Now(Idle)).(s := HandleAccept(old(State(Idle)), true)), this, ids)
    {
      if phase != Closed && !closeRequested {
        DoRead(ids);
      }
    }

    method AcceptFailed()
      modifies this`phase, this`io
      ensures State(Idle) == HandleAccept(old(State(Idle)), false)
    {
      if phase != Closed {
        CancelDeadline();
        phase := Closed;
      }
    }

    // ----- the deadline

    method OnDeadline(ghost ids: seq<string>)
      requires io.expired > 0 && |ids| == MAX_SESSION_ID_RETRIES
      modifies this, manager
      ensures Now(Idle) == Finish(Begin(old(Now(Idle)), TimerFired), this, ids)
      ensures old(phase) != Closed ==>
                Refusal(old(State(Idle)), State(Idle), "SESSION_CLOSED",
                        if old(phase) == Unauthenticated then "Handshake timeout" else "Idle timeout")
    {
      io := io.(expired := io.expired - 1);
      if phase == Closed {
        return;
      }
      ghost var n := Begin(old(Now(Idle)), TimerFired);
      FinishAfterSettle(n, this, ids);
      if phase == Unauthenticated {
        Refuse("SESSION_CLOSED", "Handshake timeout", Done, ids);
      } else {
        Refuse("SESSION_CLOSED", "Idle timeout", Done, ids);
      }
    }

    /** A wait that was cancelled, or one that failed: the chain goes on while the session does business. */
    method OnDeadlineError(cancelled: bool, ghost ids: seq<string>)
      requires |ids| == MAX_SESSION_ID_RETRIES && (if cancelled then io.aborted > 0 else io.faulted > 0)
      modifies this`io
      ensures Now(Idle) == Finish(Begin(old(Now(Idle)), if cancelled then TimerAborted else TimerFaulted), this, ids)
    {
      if cancelled {
        io := io.(aborted := io.aborted - 1);
      } else {
        io := io.(faulted := io.faulted - 1);
      }
      if phase != Closed && !closeRequested {
        io := io.(pending := io.pending + 1);
      }
    }
  }
}
