/**
 * The life of a session: how it becomes authenticated, and what happens to its
 * sequence number and its stack while it is.
 */
module SessionLife {
  import opened Wrappers
  import opened JsonValues
  import opened Protocol
  import opened SessionMachine
  import opened SessionChains

  // ----- identity

  predicate LifeInv(s: Session) {
    && (Registering(s.pc) || s.pc.SetId? ==> s.account.sid == "")
    && (s.pc.Emplace? || s.pc.SetId? ==> s.pc.id != "")
    && (s.pc.Respond? ==> s.account.sid == s.pc.id)
    && (s.pc.Respond? || s.pc.Authenticate? || s.phase == Authenticated ==> s.account.sid != "")
    && (s.pc.Credit? ==> s.phase == Authenticated && ValidAmount(s.pc.amount))
    && (s.pc.Unregister? ==> s.phase == Closed)
    && (s.io.accepting > 0 ==> s.account.sid == "")
    && (s.phase == Unauthenticated && s.account.sid != "" ==>
          s.io.reading == 0 && (s.pc.RearmTimer? || s.pc.StartRead? ==> s.closeRequested))
  }

  lemma ReadKeepsLife(s: Session, a: Action)
    requires ChainsInv(s) && LifeInv(s) && Enabled(s, a) && ReadHandler(a)
    ensures LifeInv(StartHandler(s, a))
  {
  }

  lemma WriteKeepsLife(s: Session, a: Action)
    requires ChainsInv(s) && LifeInv(s) && Enabled(s, a) && WriteHandler(a)
    ensures LifeInv(StartHandler(s, a))
  {
  }

  lemma TimerKeepsLife(s: Session, a: Action)
    requires ChainsInv(s) && LifeInv(s) && Enabled(s, a) && TimerHandler(a)
    ensures LifeInv(StartHandler(s, a))
  {
  }

  lemma QueueingKeepsLife(s: Session, answer: Answer)
    requires ChainsInv(s) && LifeInv(s) && Queues(s.pc)
    ensures LifeInv(Continue(s, answer))
  {
  }

  lemma ClosingKeepsLife(s: Session, answer: Answer)
    requires ChainsInv(s) && LifeInv(s) && Closes(s.pc)
    ensures LifeInv(Continue(s, answer))
  {
  }

  lemma OtherStepsKeepLife(s: Session, answer: Answer)
    requires ChainsInv(s) && LifeInv(s) && !Queues(s.pc) && !Closes(s.pc)
    ensures LifeInv(Continue(s, answer))
  {
  }

  lemma StepKeepsLife(s: Session, a: Action)
    requires ChainsInv(s) && LifeInv(s)
    ensures LifeInv(Step(s, a))
  {
    if Enabled(s, a) && !OffStrand(a) {
      if ReadHandler(a) { ReadKeepsLife(s, a); }
      else if WriteHandler(a) { WriteKeepsLife(s, a); }
      else if TimerHandler(a) { TimerKeepsLife(s, a); }
      else if Queues(s.pc) { QueueingKeepsLife(s, a.answer); }
      else if Closes(s.pc) { ClosingKeepsLife(s, a.answer); }
      else { OtherStepsKeepLife(s, a.answer); }
    }
  }

  lemma {:induction false} LifeHolds(actions: seq<Action>)
    ensures LifeInv(Run(Init(), actions))
  {
    if actions == [] {
    } else {
      LifeHolds(actions[..|actions| - 1]);
      ChainsHold(actions[..|actions| - 1]);
      StepKeepsLife(Run(Init(), actions[..|actions| - 1]), actions[|actions| - 1]);
    }
  }

  /** The session took up a handshake of the right version. */
  predicate Greeted(actions: seq<Action>) {
    actions != [] &&
    var init, a := actions[..|actions| - 1], actions[|actions| - 1];
    Greeted(init) || (a == Message(Greeting) && Enabled(Run(Init(), init), a))
  }

  /** With this step the session is entered in the registry, and register_session is going to return `id`. */
  predicate Enters(s: Session, a: Action, id: string) {
    s.pc.Emplace? && s.pc.id == id && a.StrandStep? && a.answer.result.Success?
  }

  /** register_session returned `id` to this session. */
  predicate Registered(actions: seq<Action>, id: string) {
    actions != [] &&
    var init, a := actions[..|actions| - 1], actions[|actions| - 1];
    Registered(init, id) || Enters(Run(Init(), init), a, id)
  }

  lemma {:induction false} WhenGreeted(actions: seq<Action>) returns (j: nat)
    requires Greeted(actions)
    ensures j < |actions| && actions[j] == Message(Greeting) && Enabled(Run(Init(), actions[..j]), actions[j])
  {
    j := |actions| - 1;
    if Greeted(actions[..|actions| - 1]) {
      j := WhenGreeted(actions[..|actions| - 1]);
      assert actions[..|actions| - 1][..j] == actions[..j];
    }
  }

  lemma {:induction false} WhenRegistered(actions: seq<Action>, id: string) returns (k: nat)
    requires Registered(actions, id)
    ensures k < |actions| && Enters(Run(Init(), actions[..k]), actions[k], id)
  {
    var init := actions[..|actions| - 1];
    if Registered(init, id) {
      k := WhenRegistered(init, id);
      assert init[..k] == actions[..k] && init[k] == actions[k];
    } else {
      k := |actions| - 1;
      assert Enters(Run(Init(), init), actions[k], id);
    }
  }

  lemma OneStepToRegister(s: Session, a: Action)
    ensures Registering(Step(s, a).pc) && !Registering(s.pc) ==> Enabled(s, a) && a == Message(Greeting)
  {
  }

  lemma OneStepToId(s: Session, a: Action)
    ensures Step(s, a).account.sid != s.account.sid ==> s.pc == SetId(Step(s, a).account.sid)
  {
  }

  lemma {:induction false} RegisterAfterGreeting(actions: seq<Action>)
    ensures Registering(Run(Init(), actions).pc) ==> Greeted(actions)
  {
    if actions == [] {
    } else {
      RegisterAfterGreeting(actions[..|actions| - 1]);
      OneStepToRegister(Run(Init(), actions[..|actions| - 1]), actions[|actions| - 1]);
    }
  }

  lemma GreetedBefore(actions: seq<Action>, k: nat) returns (j: nat)
    requires k < |actions| && Registering(Run(Init(), actions[..k]).pc)
    ensures j < k && actions[j] == Message(Greeting) && Enabled(Run(Init(), actions[..j]), actions[j])
  {
    RegisterAfterGreeting(actions[..k]);
    j := WhenGreeted(actions[..k]);
    assert actions[..k][..j] == actions[..j];
  }

  /** The id a session has, or is about to store. */
  function Holds(s: Session): string {
    if s.pc.SetId? then s.pc.id else s.account.sid
  }

  lemma HoldsStep(s: Session, a: Action)
    ensures Holds(Step(s, a)) == Holds(s) || Enters(s, a, Holds(Step(s, a)))
  {
  }

  lemma {:induction false} IdAfterRegister(actions: seq<Action>)
    ensures var id := Holds(Run(Init(), actions)); id != "" ==> Registered(actions, id)
  {
    if actions == [] {
    } else {
      IdAfterRegister(actions[..|actions| - 1]);
      HoldsStep(Run(Init(), actions[..|actions| - 1]), actions[|actions| - 1]);
    }
  }

  /** Where in a run that authenticated the session its handshake and its entry are. */
  lemma HandshakeBefore(actions: seq<Action>) returns (j: nat, k: nat)
    requires Run(Init(), actions).phase == Authenticated
    ensures j < k < |actions|
    ensures actions[j] == Message(Greeting) && Enabled(Run(Init(), actions[..j]), actions[j])
    ensures Enters(Run(Init(), actions[..k]), actions[k], Run(Init(), actions).account.sid)
  {
    var sid := Run(Init(), actions).account.sid;
    assert Registered(actions, sid) by {
      LifeHolds(actions);
      IdAfterRegister(actions);
    }
    k := WhenRegistered(actions, sid);
    j := GreetedBefore(actions, k);
  }

  /**
   * A session is authenticated only after a proper handshake, and under an id
   * under which it was entered in the registry after that handshake.
   */
  lemma AuthenticatedAfterHandshake(actions: seq<Action>)
    requires Run(Init(), actions).phase == Authenticated
    ensures exists j, k :: 0 <= j < k < |actions|
              && actions[j] == Message(Greeting) && Enabled(Run(Init(), actions[..j]), actions[j])
              && Enters(Run(Init(), actions[..k]), actions[k], Run(Init(), actions).account.sid)
  {
    var j, k := HandshakeBefore(actions);
  }

  /** A phase is never left backwards, an id once given never changes, and only an authenticated session counts. */
  lemma StepMovesForward(actions: seq<Action>, a: Action)
    ensures var s, s' := Run(Init(), actions), Step(Run(Init(), actions), a);
            && (s.phase == Authenticated ==> s'.phase != Unauthenticated)
            && (s.phase == Closed ==> s'.phase == Closed)
            && (s.account.sid != "" ==> s'.account.sid == s.account.sid)
            && (s.phase != Authenticated ==>
                  s'.account.lastSeq == s.account.lastSeq && s'.account.stack == s.account.stack)
  {
    LifeHolds(actions);
    ChainsHold(actions);
    OneStepToId(Run(Init(), actions), a);
    StepMoves(Run(Init(), actions), a);
  }

  lemma StepMoves(s: Session, a: Action)
    requires LifeInv(s) && ChainsInv(s)
    ensures s.phase == Authenticated ==> Step(s, a).phase != Unauthenticated
    ensures s.phase == Closed ==> Step(s, a).phase == Closed
    ensures s.phase != Authenticated ==>
              Step(s, a).account.lastSeq == s.account.lastSeq && Step(s, a).account.stack == s.account.stack
  {
  }
}
