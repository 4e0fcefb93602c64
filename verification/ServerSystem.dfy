/**
 * The whole server as a transition system: any number of sessions, the registry
 * they share, and the threads that stop them all. Drawing an id and entering it
 * are separate steps, so that other sessions draw and enter ids in between.
 */
module ServerSystem {
  import opened JsonValues
  import opened Protocol
  import opened SessionIds
  import opened Registry
  import opened SessionMachine
  import opened SessionChains
  import opened SessionLife

  /**
   * `doomed` holds the sessions that a stop_all has taken from the registry and
   * has yet to close, `taken` all that any stop_all has ever taken.
   */
  datatype System =
    System(sessions: map<nat, Session>, directory: Directory<nat>, doomed: set<nat>, taken: set<nat>)

  datatype SystemAction =
    | Spawn(i: nat)
    | SessionActs(i: nat, a: Action, rnd: uint32)
    | StopSwap
    | StopClose(i: nat)

  const EMPTY := System(map[], Directory(map[], 0), {}, {})

  predicate Possible(y: System, b: SystemAction) {
    match b
    case Spawn(i) => i !in y.sessions
    case SessionActs(i, a, rnd) => i in y.sessions && Enabled(y.sessions[i], a)
    case StopSwap => true
    case StopClose(i) => i in y.doomed && i in y.sessions
  }

  /** A session beside the registry its handlers work on. */
  datatype Turn<V> = Turn(s: Session, d: Directory<V>)

  /** What the registry says to the next step of a handler, if `drawn` is the id it would draw. */
  function AnswerTo<V>(n: Turn<V>, drawn: string): Answer {
    match n.s.pc
    case Draw(_) => Answer(drawn, MaxConnections)
    case Emplace(_, id) => Answer("", Emplacement(n.d.entries, id))
    case _ => NO_ANSWER
  }

  /** What the step leaves in the registry. */
  function Touched<V>(n: Turn<V>, self: V): Directory<V> {
    match n.s.pc
    case Draw(_) => n.d.(counter := n.d.counter + 1)
    case Emplace(_, id) =>
      if Emplacement(n.d.entries, id) == Success then n.d.(entries := n.d.entries[id := self]) else n.d
    case Unregister(_) => UnregisterSession(n.d, n.s.account.sid)
    case _ => n.d
  }

  /** The next atomic action of a running handler. */
  function TakeTurn<V>(n: Turn<V>, self: V, drawn: string): Turn<V> {
    Turn(Continue(n.s, AnswerTo(n, drawn)), Touched(n, self))
  }

  function SessionAction(y: System, i: nat, a: Action, rnd: uint32): System
    requires i in y.sessions
  {
    if a.StrandStep? then
      var n := TakeTurn(Turn(y.sessions[i], y.directory), i, SessionId(y.directory.counter, rnd));
      y.(sessions := y.sessions[i := n.s], directory := n.d)
    else y.(sessions := y.sessions[i := Step(y.sessions[i], a)])
  }

  function SystemStep(y: System, b: SystemAction): System {
    if !Possible(y, b) then y else
      match b
      case Spawn(i) => y.(sessions := y.sessions[i := Init()])
      case SessionActs(i, a, rnd) => SessionAction(y, i, a, rnd)
      case StopSwap =>
        y.(directory := y.directory.(entries := map[]), doomed := y.doomed + y.directory.entries.Values,
           taken := y.taken + y.directory.entries.Values)
      case StopClose(i) =>
        y.(sessions := y.sessions[i := StoreClose(y.sessions[i])], doomed := y.doomed - {i})
  }

  function SystemRun(actions: seq<SystemAction>): System {
    if actions == [] then EMPTY else SystemStep(SystemRun(actions[..|actions| - 1]), actions[|actions| - 1])
  }

  // ----- invariants

  predicate SessionsInv(y: System) {
    forall i :: i in y.sessions ==> ChainsInv(y.sessions[i]) && LifeInv(y.sessions[i])
  }

  /** An entry belongs to a session that holds its id and is not closed, or is just about to remove it. */
  predicate EntryInv(y: System) {
    && |y.directory.entries| <= MAX_CONNECTIONS
    && forall id :: id in y.directory.entries ==>
         var i := y.directory.entries[id];
         && id != "" && i in y.sessions && Holds(y.sessions[i]) == id
         && (y.sessions[i].phase == Closed ==> y.sessions[i].pc.Unregister?)
  }

  /** What a stop_all has taken it is going to close, or has closed. */
  predicate TakenInv(y: System) {
    && y.doomed <= y.taken
    && forall i :: i in y.taken ==> i in y.sessions && (i in y.doomed || y.sessions[i].closeRequested)
  }

  /** The id a session holds, or has drawn and not entered yet. */
  function Claim(s: Session): string {
    if s.pc.Emplace? then s.pc.id else Holds(s)
  }

  /** Claims are made from distinct counter values, and nobody needs a second attempt. */
  predicate UniqueInv(y: System) {
    && (forall i :: i in y.sessions && Claim(y.sessions[i]) != "" ==>
          CounterOf(Claim(y.sessions[i])) < y.directory.counter)
    && (forall i, j :: i in y.sessions && j in y.sessions && i != j && Claim(y.sessions[i]) != "" ==>
          Claim(y.sessions[i]) != Claim(y.sessions[j]))
    && (forall i :: i in y.sessions && Registering(y.sessions[i].pc) ==> y.sessions[i].pc.attempt == 0)
  }

  predicate Entered(y: System, i: nat)
    requires i in y.sessions
  {
    Holds(y.sessions[i]) in y.directory.entries && y.directory.entries[Holds(y.sessions[i])] == i
  }

  /** A session with an id that is not closed is in the map unless a stop_all took it. */
  predicate CoveredInv(y: System) {
    forall i :: i in y.sessions && Holds(y.sessions[i]) != "" && y.sessions[i].phase != Closed ==>
      Entered(y, i) || i in y.taken
  }

  /** `after` stands no worse with the registry than `before`. */
  predicate SameStanding(before: Session, after: Session) {
    && Holds(after) == Holds(before) && Claim(after) == Claim(before)
    && (Registering(after.pc) ==>
          after.pc.attempt == 0 || (Registering(before.pc) && after.pc.attempt == before.pc.attempt))
    && (before.closeRequested ==> after.closeRequested)
    && (before.phase == Closed ==> after.phase == Closed)
    && (Holds(before) != "" && before.phase != Closed && after.phase == Closed ==> after.pc.Unregister?)
    && (before.pc.Unregister? ==> after.pc.Unregister?)
  }

  lemma HandlerKeepsStanding(s: Session, a: Action)
    requires ChainsInv(s) && LifeInv(s) && Enabled(s, a) && !OffStrand(a) && !a.StrandStep?
    ensures SameStanding(s, StartHandler(s, a))
  {
  }

  lemma OthersKeepStanding(s: Session, a: Action)
    requires Enabled(s, a) && OffStrand(a)
    ensures SameStanding(s, ActOffStrand(s, a))
  {
  }

  lemma StrandKeepsStanding(s: Session, answer: Answer)
    requires ChainsInv(s) && LifeInv(s) && s.pc != Idle
    requires !Registering(s.pc) && !s.pc.Unregister?
    ensures SameStanding(s, Continue(s, answer))
  {
  }

  lemma ReplaceKeeps(y: System, i: nat, s: Session)
    requires i in y.sessions && SameStanding(y.sessions[i], s)
    ensures var y' := y.(sessions := y.sessions[i := s]);
            && (EntryInv(y) ==> EntryInv(y'))
            && (TakenInv(y) ==> TakenInv(y'))
            && (UniqueInv(y) ==> UniqueInv(y'))
            && (CoveredInv(y) ==> CoveredInv(y'))
  {
  }

  // ----- registrations

  lemma IdIsUsable(counter: nat, rnd: uint32)
    ensures 0 < |SessionId(counter, rnd)| <= MAX_SESSION_ID_LENGTH
    ensures counter < TWO_TO_THE_32 ==> CounterOf(SessionId(counter, rnd)) == counter
  {
    IdIsValidAndDecodes(counter, rnd);
  }

  /** What drawing an id makes of the system. */
  function Drawn(y: System, i: nat, attempt: Attempt, id: string): System
    requires i in y.sessions
  {
    y.(sessions := y.sessions[i := y.sessions[i].(pc := Emplace(attempt, id))],
       directory := y.directory.(counter := y.directory.counter + 1))
  }

  lemma DrawIsDrawn(y: System, i: nat, rnd: uint32)
    requires i in y.sessions && y.sessions[i].pc.Draw?
    ensures var attempt := y.sessions[i].pc.attempt;
            SessionAction(y, i, StrandStep(NO_ANSWER), rnd)
              == Drawn(y, i, attempt, SessionId(y.directory.counter, rnd))
  {
    IdIsUsable(y.directory.counter, rnd);
  }

  lemma EmplaceOutcome(s: Session, answer: Answer)
    requires ChainsInv(s) && LifeInv(s) && s.pc.Emplace?
    ensures var s' := Continue(s, answer);
            && Holds(s) == "" && Claim(s) == s.pc.id != ""
            && s'.phase == s.phase == Unauthenticated && s'.closeRequested == s.closeRequested
            && (answer.result == Success ==> Holds(s') == Claim(s') == s.pc.id && !Registering(s'.pc))
            && (answer.result != Success ==> Holds(s') == Claim(s') == "")
            && (answer.result == MaxConnections ==> !Registering(s'.pc))
  {
  }

  lemma DrawKeepsClaims(y: System, i: nat, attempt: Attempt, id: string)
    requires i in y.sessions && y.sessions[i].pc == Draw(attempt) && y.sessions[i].account.sid == ""
    requires CounterOf(id) == y.directory.counter
    ensures UniqueInv(y) ==> UniqueInv(Drawn(y, i, attempt, id))
    ensures CoveredInv(y) ==> CoveredInv(Drawn(y, i, attempt, id))
  {
  }

  lemma DrawKeepsEntries(y: System, i: nat, attempt: Attempt, id: string)
    requires i in y.sessions && y.sessions[i].pc == Draw(attempt) && y.sessions[i].account.sid == ""
    ensures EntryInv(y) ==> EntryInv(Drawn(y, i, attempt, id))
    ensures TakenInv(y) ==> TakenInv(Drawn(y, i, attempt, id))
  {
  }

  /** No entry has the id that session `i` has drawn. */
  lemma DrawnIdIsFree(y: System, i: nat)
    requires SessionsInv(y) && EntryInv(y) && UniqueInv(y) && i in y.sessions && y.sessions[i].pc.Emplace?
    ensures y.sessions[i].pc.id !in y.directory.entries
  {
    assert LifeInv(y.sessions[i]) && Holds(y.sessions[i]) == "";
    forall id | id in y.directory.entries ensures id != y.sessions[i].pc.id {
      var j := y.directory.entries[id];
      assert LifeInv(y.sessions[j]) && Holds(y.sessions[j]) == id != "";
      assert Claim(y.sessions[j]) == id;
    }
  }

  /** A registration that ends without an id leaves the registry alone. */
  lemma FailureKeeps(y: System, i: nat, s: Session)
    requires i in y.sessions && Holds(y.sessions[i]) == Holds(s) == Claim(s) == ""
    requires s.closeRequested == y.sessions[i].closeRequested && s.phase != Closed && y.sessions[i].phase != Closed
    ensures var y' := y.(sessions := y.sessions[i := s]);
            && (EntryInv(y) ==> EntryInv(y'))
            && (TakenInv(y) ==> TakenInv(y'))
            && (UniqueInv(y) && !Registering(s.pc) ==> UniqueInv(y'))
            && (CoveredInv(y) ==> CoveredInv(y'))
  {
  }

  /** Session `i` is entered under the id it has drawn. */
  lemma EntryKeeps(y: System, i: nat, s: Session)
    requires EntryInv(y) && TakenInv(y) && i in y.sessions && Holds(y.sessions[i]) == ""
    requires Claim(y.sessions[i]) == Claim(s) == Holds(s) != "" && Holds(s) !in y.directory.entries
    requires |y.directory.entries| < MAX_CONNECTIONS
    requires s.closeRequested == y.sessions[i].closeRequested && s.phase != Closed && !Registering(s.pc)
    ensures var d := y.directory.(entries := y.directory.entries[Holds(s) := i]);
            var y' := y.(sessions := y.sessions[i := s], directory := d);
            && EntryInv(y') && TakenInv(y')
            && (UniqueInv(y) ==> UniqueInv(y'))
            && (CoveredInv(y) ==> CoveredInv(y'))
  {
  }

  /** Session `i` has removed its id from the registry. */
  function Unregistered(y: System, i: nat, s: Session): System
    requires i in y.sessions
  {
    y.(sessions := y.sessions[i := s], directory := UnregisterSession(y.directory, y.sessions[i].account.sid))
  }

  predicate Leaves(before: Session, after: Session) {
    && before.phase == after.phase == Closed
    && Holds(after) == Holds(before) == Claim(after) == Claim(before) == before.account.sid
    && after.closeRequested == before.closeRequested
    && !Registering(after.pc)
  }

  lemma UnregisterKeepsEntries(y: System, i: nat, s: Session)
    requires i in y.sessions && Leaves(y.sessions[i], s) && EntryInv(y)
    ensures EntryInv(Unregistered(y, i, s))
  {
    var entries := y.directory.entries;
    var left := entries - {y.sessions[i].account.sid};
    assert left.Keys == entries.Keys - {y.sessions[i].account.sid};
    assert |left.Keys| <= |entries.Keys|;
  }

  lemma UnregisterKeepsOthers(y: System, i: nat, s: Session)
    requires i in y.sessions && Leaves(y.sessions[i], s)
    ensures TakenInv(y) ==> TakenInv(Unregistered(y, i, s))
    ensures UniqueInv(y) ==> UniqueInv(Unregistered(y, i, s))
  {
  }

  lemma UnregisterKeepsCovered(y: System, i: nat, s: Session)
    requires i in y.sessions && Leaves(y.sessions[i], s) && UniqueInv(y) && CoveredInv(y) && SessionsInv(y)
    ensures CoveredInv(Unregistered(y, i, s))
  {
    var y' := Unregistered(y, i, s);
    forall j | j in y'.sessions && Holds(y'.sessions[j]) != "" && y'.sessions[j].phase != Closed
      ensures Entered(y', j) || j in y'.taken
    {
      assert j != i && y'.sessions[j] == y.sessions[j] && LifeInv(y.sessions[j]);
      assert Holds(y.sessions[j]) == Claim(y.sessions[j]) != Claim(y.sessions[i]);
    }
  }

  lemma UnregisterOutcome(s: Session, answer: Answer)
    requires LifeInv(s) && s.pc.Unregister?
    ensures Leaves(s, Continue(s, answer))
  {
  }

  // ----- the other threads

  lemma SwapKeeps(y: System)
    requires EntryInv(y)
    ensures EntryInv(SystemStep(y, StopSwap))
    ensures UniqueInv(y) ==> UniqueInv(SystemStep(y, StopSwap))
    ensures CoveredInv(y) ==> CoveredInv(SystemStep(y, StopSwap))
    ensures TakenInv(y) ==> TakenInv(SystemStep(y, StopSwap))
  {
  }

  lemma SpawnKeeps(y: System, i: nat)
    requires i !in y.sessions
    ensures EntryInv(y) ==> EntryInv(SystemStep(y, Spawn(i)))
    ensures TakenInv(y) ==> TakenInv(SystemStep(y, Spawn(i)))
    ensures UniqueInv(y) ==> UniqueInv(SystemStep(y, Spawn(i)))
    ensures EntryInv(y) && CoveredInv(y) ==> CoveredInv(SystemStep(y, Spawn(i)))
  {
  }

  lemma StopCloseKeeps(y: System, i: nat)
    requires i in y.sessions && i in y.doomed
    ensures EntryInv(y) ==> EntryInv(SystemStep(y, StopClose(i)))
    ensures TakenInv(y) ==> TakenInv(SystemStep(y, StopClose(i)))
    ensures UniqueInv(y) ==> UniqueInv(SystemStep(y, StopClose(i)))
    ensures CoveredInv(y) ==> CoveredInv(SystemStep(y, StopClose(i)))
  {
    var y' := y.(sessions := y.sessions[i := StoreClose(y.sessions[i])]);
    ReplaceKeeps(y, i, StoreClose(y.sessions[i]));
    assert SystemStep(y, StopClose(i)) == y'.(doomed := y.doomed - {i});
  }

  // ----- all of it together

  /** Uniqueness needs the counter to stay below 2^32; everything else holds without it. */
  predicate RegistryInv(y: System) {
    && EntryInv(y)
    && TakenInv(y)
    && (y.directory.counter <= TWO_TO_THE_32 ==> UniqueInv(y) && CoveredInv(y))
  }

  predicate SystemInv(y: System) {
    SessionsInv(y) && RegistryInv(y)
  }

  /** The machine's own name for what the system lets session `i` do. */
  function MachineAction(y: System, i: nat, a: Action, rnd: uint32): Action
    requires i in y.sessions
  {
    if !a.StrandStep? then a
    else StrandStep(AnswerTo(Turn(y.sessions[i], y.directory), SessionId(y.directory.counter, rnd)))
  }

  lemma ActionIsStep(y: System, i: nat, a: Action, rnd: uint32)
    requires Possible(y, SessionActs(i, a, rnd))
    ensures SessionAction(y, i, a, rnd).sessions
            == y.sessions[i := Step(y.sessions[i], MachineAction(y, i, a, rnd))]
  {
    ContinueIsStep(y.sessions[i], MachineAction(y, i, a, rnd));
  }

  lemma ContinueIsStep(s: Session, a: Action)
    ensures a.StrandStep? && s.pc != Idle ==> Step(s, a) == Continue(s, a.answer)
  {
  }

  lemma StepKeepsSession(s: Session, a: Action)
    requires ChainsInv(s) && LifeInv(s)
    ensures ChainsInv(Step(s, a)) && LifeInv(Step(s, a))
  {
    StepKeepsChains(s, a);
    StepKeepsLife(s, a);
  }

  lemma InitIsFine()
    ensures ChainsInv(Init()) && LifeInv(Init())
  {
  }

  lemma SessionsKept(y: System, b: SystemAction)
    requires SessionsInv(y)
    ensures SessionsInv(SystemStep(y, b))
  {
    if Possible(y, b) {
      match b
      case SessionActs(i, a, rnd) =>
        StepKeepsSession(y.sessions[i], MachineAction(y, i, a, rnd));
        ActionIsStep(y, i, a, rnd);
      case Spawn(i) => InitIsFine();
      case StopClose(i) =>
        StepKeepsSession(y.sessions[i], CloseStore);
        assert Step(y.sessions[i], CloseStore) == StoreClose(y.sessions[i]);
      case StopSwap =>
    }
  }

  lemma DrawnKeepsRegistry(y: System, i: nat, attempt: Attempt, id: string)
    requires RegistryInv(y) && i in y.sessions && y.sessions[i].pc == Draw(attempt) && y.sessions[i].account.sid == ""
    requires y.directory.counter < TWO_TO_THE_32 ==> CounterOf(id) == y.directory.counter
    ensures RegistryInv(Drawn(y, i, attempt, id))
  {
    DrawKeepsEntries(y, i, attempt, id);
    if y.directory.counter < TWO_TO_THE_32 {
      DrawKeepsClaims(y, i, attempt, id);
    }
  }

  lemma DrawKeepsSystem(y: System, i: nat, rnd: uint32)
    requires SystemInv(y) && i in y.sessions && y.sessions[i].pc.Draw?
    ensures RegistryInv(SessionAction(y, i, StrandStep(NO_ANSWER), rnd))
  {
    var attempt := y.sessions[i].pc.attempt;
    IdIsUsable(y.directory.counter, rnd);
    assert LifeInv(y.sessions[i]);
    DrawnKeepsRegistry(y, i, attempt, SessionId(y.directory.counter, rnd));
    DrawIsDrawn(y, i, rnd);
  }

  lemma EmplaceKeepsSystem(y: System, i: nat, rnd: uint32)
    requires SystemInv(y) && i in y.sessions && y.sessions[i].pc.Emplace?
    ensures RegistryInv(SessionAction(y, i, StrandStep(NO_ANSWER), rnd))
  {
    var s := y.sessions[i];
    var answer := AnswerTo(Turn(s, y.directory), "");
    EmplaceOutcome(s, answer);
    if answer.result == Success {
      EntryKeeps(y, i, Continue(s, answer));
    } else {
      if y.directory.counter <= TWO_TO_THE_32 {
        DrawnIdIsFree(y, i);
      }
      FailureKeeps(y, i, Continue(s, answer));
    }
  }

  lemma StrandKeepsSystem(y: System, i: nat, rnd: uint32)
    requires SystemInv(y) && i in y.sessions && y.sessions[i].pc != Idle
    ensures RegistryInv(SessionAction(y, i, StrandStep(NO_ANSWER), rnd))
  {
    var s := y.sessions[i];
    if s.pc.Draw? {
      DrawKeepsSystem(y, i, rnd);
    } else if s.pc.Emplace? {
      EmplaceKeepsSystem(y, i, rnd);
    } else if s.pc.Unregister? {
      UnregisterOutcome(s, NO_ANSWER);
      UnregisterKeepsEntries(y, i, Continue(s, NO_ANSWER));
      UnregisterKeepsOthers(y, i, Continue(s, NO_ANSWER));
      if y.directory.counter <= TWO_TO_THE_32 {
        UnregisterKeepsCovered(y, i, Continue(s, NO_ANSWER));
      }
    } else {
      StrandKeepsStanding(s, NO_ANSWER);
      ReplaceKeeps(y, i, Continue(s, NO_ANSWER));
    }
  }

  lemma ActionKeepsSystem(y: System, i: nat, a: Action, rnd: uint32)
    requires SystemInv(y) && Possible(y, SessionActs(i, a, rnd))
    ensures RegistryInv(SessionAction(y, i, a, rnd))
  {
    var s := y.sessions[i];
    if a.StrandStep? {
      StrandKeepsSystem(y, i, rnd);
    } else {
      if OffStrand(a) {
        OthersKeepStanding(s, a);
      } else {
        HandlerKeepsStanding(s, a);
      }
      ReplaceKeeps(y, i, Step(s, a));
    }
  }

  lemma {:induction false} SystemHolds(actions: seq<SystemAction>)
    ensures SystemInv(SystemRun(actions))
  {
    if actions == [] {
    } else {
      var y, b := SystemRun(actions[..|actions| - 1]), actions[|actions| - 1];
      SystemHolds(actions[..|actions| - 1]);
      SessionsKept(y, b);
      if Possible(y, b) {
        match b
        case Spawn(i) => SpawnKeeps(y, i);
        case SessionActs(i, a, rnd) => ActionKeepsSystem(y, i, a, rnd);
        case StopSwap => SwapKeeps(y);
        case StopClose(i) => StopCloseKeeps(y, i);
      }
    }
  }

  // ----- what this means for whole runs

  /**
   * The registry agrees with the sessions. Every entry is of a session that has
   * its id and is not closed; no session has two, and one that is still
   * registering has none.
   */
  lemma RegistryAgrees(actions: seq<SystemAction>)
    ensures var y := SystemRun(actions);
            && |y.directory.entries| <= 1000
            && (forall id1, id2 | id1 in y.directory.entries && id2 in y.directory.entries ::
                  y.directory.entries[id1] == y.directory.entries[id2] ==> id1 == id2)
            && (forall id :: id in y.directory.entries ==>
                  var i := y.directory.entries[id];
                  i in y.sessions && !Registering(y.sessions[i].pc)
                  && (y.sessions[i].pc == Idle ==> y.sessions[i].account.sid == id && y.sessions[i].phase != Closed))
  {
    SystemHolds(actions);
    var y := SystemRun(actions);
    forall id | id in y.directory.entries ensures !Registering(y.sessions[y.directory.entries[id]].pc) {
      assert LifeInv(y.sessions[y.directory.entries[id]]);
    }
  }

  /**
   * Conversely, while fewer than 2^32 ids have been drawn, a session with an id
   * that is not closed is in the map unless a stop_all took it; in that case its
   * close is requested, or it is still on that stop_all's list.
   */
  lemma MissingOnlyIfTaken(actions: seq<SystemAction>)
    requires SystemRun(actions).directory.counter <= TWO_TO_THE_32
    ensures var y := SystemRun(actions);
            forall i | i in y.sessions && Holds(y.sessions[i]) != "" && y.sessions[i].phase != Closed ::
              || (Holds(y.sessions[i]) in y.directory.entries && y.directory.entries[Holds(y.sessions[i])] == i)
              || (i in y.taken && (i in y.doomed || y.sessions[i].closeRequested))
  {
    SystemHolds(actions);
  }

  /** What counts as taken: the sessions in the map whenever a stop_all emptied it. */
  lemma {:induction false} TakenBySwaps(actions: seq<SystemAction>, i: nat)
    ensures i in SystemRun(actions).taken <==>
              exists k :: 0 <= k < |actions| && actions[k] == StopSwap
                          && i in SystemRun(actions[..k]).directory.entries.Values
  {
    if actions == [] {
    } else {
      var init, b := actions[..|actions| - 1], actions[|actions| - 1];
      TakenBySwaps(init, i);
      assert forall k :: 0 <= k < |init| ==> init[..k] == actions[..k];
      assert actions[..|init|] == init;
    }
  }

  /**
   * No registration needs a second attempt while fewer than 2^32 ids have been
   * drawn, however registrations, removals and stops run into each other: an id
   * that has been drawn is in nobody's entry, so it is refused only for lack of room.
   */
  lemma NoRetryNeeded(actions: seq<SystemAction>, i: nat)
    requires SystemRun(actions).directory.counter <= TWO_TO_THE_32 && i in SystemRun(actions).sessions
    ensures var y := SystemRun(actions);
            var pc := y.sessions[i].pc;
            && (Registering(pc) ==> pc.attempt == 0)
            && (pc.Emplace? ==>
                  && pc.id !in y.directory.entries
                  && (Emplacement(y.directory.entries, pc.id) == Success <==> |y.directory.entries| < 1000))
  {
    SystemHolds(actions);
    if SystemRun(actions).sessions[i].pc.Emplace? {
      DrawnIdIsFree(SystemRun(actions), i);
    }
  }

  ghost predicate IsRun(s: Session) {
    exists actions :: s == Run(Init(), actions)
  }

  lemma RunIsRun(actions: seq<Action>)
    ensures IsRun(Run(Init(), actions))
  {
  }

  lemma RunOf(s: Session) returns (actions: seq<Action>)
    requires IsRun(s)
    ensures Run(Init(), actions) == s
  {
    actions :| s == Run(Init(), actions);
  }

  lemma RunGoesOn(s: Session, a: Action)
    requires IsRun(s)
    ensures IsRun(Step(s, a))
  {
    var actions := RunOf(s);
    RunLast(Init(), actions, a);
    RunIsRun(actions + [a]);
  }

  /** Each session of the system goes through a run of its own machine, so its theorems hold here too. */
  lemma {:induction false} SessionsAreRuns(actions: seq<SystemAction>)
    ensures forall i :: i in SystemRun(actions).sessions ==> IsRun(SystemRun(actions).sessions[i])
  {
    if actions == [] {
    } else {
      var y, b := SystemRun(actions[..|actions| - 1]), actions[|actions| - 1];
      SessionsAreRuns(actions[..|actions| - 1]);
      assert Init() == Run(Init(), []);
      if b.SessionActs? && Possible(y, b) {
        RunGoesOn(y.sessions[b.i], MachineAction(y, b.i, b.a, b.rnd));
        ActionIsStep(y, b.i, b.a, b.rnd);
      } else if b.StopClose? && Possible(y, b) {
        RunGoesOn(y.sessions[b.i], CloseStore);
        assert Step(y.sessions[b.i], CloseStore) == StoreClose(y.sessions[b.i]);
      }
    }
  }

  /** A stop_all has session `i` on its list, or has already requested its close. */
  predicate Stopped(y: System, i: nat) {
    i in y.sessions && (i in y.doomed || y.sessions[i].closeRequested)
  }

  lemma TakenStays(y: System, b: SystemAction, i: nat)
    requires i in y.taken
    ensures i in SystemStep(y, b).taken
  {
  }

  lemma {:induction false} TakenForGood(before: seq<SystemAction>, after: seq<SystemAction>, i: nat)
    requires i in SystemRun(before).taken
    ensures i in SystemRun(before + after).taken
  {
    if after == [] {
      assert before + after == before;
    } else {
      var init := after[..|after| - 1];
      TakenForGood(before, init, i);
      assert (before + after)[..|before + after| - 1] == before + init;
      TakenStays(SystemRun(before + init), after[|after| - 1], i);
    }
  }

  /** A stop_all reaches every session that was registered when it took the map, whatever runs beside it. */
  lemma StopReachesEveryEntry(before: seq<SystemAction>, after: seq<SystemAction>, id: string)
    requires id in SystemRun(before).directory.entries
    ensures Stopped(SystemRun(before + [StopSwap] + after), SystemRun(before).directory.entries[id])
  {
    var i := SystemRun(before).directory.entries[id];
    assert (before + [StopSwap])[..|before|] == before;
    assert i in SystemRun(before + [StopSwap]).taken;
    TakenForGood(before + [StopSwap], after, i);
    SystemHolds(before + [StopSwap] + after);
  }
}
