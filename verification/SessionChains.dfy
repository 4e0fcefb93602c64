/**
 * The self-rearming chains of a session: the reader and the deadline timer
 * neither fork nor die, and a close request stops them both.
 */
module SessionChains {
  import opened Wrappers
  import opened SessionMachine

  /** A handler that may still start the next read. */
  predicate MayRead(pc: Pc) {
    match pc
    case Idle => false
    case Fail(_, _, next) => next.Rearm?
    case RequestClose(next) => next.Rearm?
    case CheckWriter(next) => next.Rearm?
    case FinishClose(next) => next.Rearm?
    case Unregister(next) => next.Rearm?
    case DropFrame => false
    case _ => true
  }

  /** A handler that will request a close before it does anything else. */
  predicate AboutToClose(pc: Pc) {
    pc.Fail? || pc.RequestClose? || pc.DropFrame?
  }

  function Waits(io: Chains): nat {
    io.pending + io.expired + io.aborted + io.faulted
  }

  predicate ReaderInv(s: Session) {
    && (Handshaking(s.pc) ==> s.phase == Unauthenticated)
    && s.io.accepting + s.io.reading <= 1
    && (MayRead(s.pc) ==> s.io.accepting + s.io.reading == 0)
    && (Open(s) && !AboutToClose(s.pc) && !MayRead(s.pc) ==> s.io.accepting + s.io.reading == 1)
    && (s.pc.CheckWriter? || s.pc.FinishClose? ==> s.closeRequested)
    && (s.callbacks > 0 || s.closers > 0 ==> s.closeRequested)
  }

  predicate DeadlineInv(s: Session) {
    && Waits(s.io) <= 1
    && (Open(s) && !AboutToClose(s.pc) ==> Waits(s.io) == 1)
    && (s.phase == Closed ==> s.io.pending == 0)
  }

  predicate ChainsInv(s: Session) {
    ReaderInv(s) && DeadlineInv(s)
  }

  lemma QueueingKeepsChains(s: Session, answer: Answer)
    requires ChainsInv(s) && Queues(s.pc)
    ensures ChainsInv(Continue(s, answer))
  {
  }

  lemma ClosingKeepsChains(s: Session, answer: Answer)
    requires ChainsInv(s) && Closes(s.pc)
    ensures ChainsInv(Continue(s, answer))
  {
  }

  lemma OtherStepsKeepChains(s: Session, answer: Answer)
    requires ChainsInv(s) && !Queues(s.pc) && !Closes(s.pc) && s.pc != Idle
    ensures ChainsInv(Continue(s, answer))
  {
  }

  lemma ReadKeepsChains(s: Session, a: Action)
    requires ChainsInv(s) && Enabled(s, a) && ReadHandler(a)
    ensures ChainsInv(StartHandler(s, a))
  {
  }

  lemma WriteKeepsChains(s: Session, a: Action)
    requires ChainsInv(s) && Enabled(s, a) && WriteHandler(a)
    ensures ChainsInv(StartHandler(s, a))
  {
  }

  lemma TimerKeepsChains(s: Session, a: Action)
    requires ChainsInv(s) && Enabled(s, a) && TimerHandler(a)
    ensures ChainsInv(StartHandler(s, a))
  {
  }

  lemma OthersKeepChains(s: Session, a: Action)
    requires ChainsInv(s) && Enabled(s, a) && OffStrand(a)
    ensures ChainsInv(ActOffStrand(s, a))
  {
  }

  lemma StepKeepsChains(s: Session, a: Action)
    requires ChainsInv(s)
    ensures ChainsInv(Step(s, a))
  {
    if Enabled(s, a) {
      if OffStrand(a) { OthersKeepChains(s, a); }
      else if ReadHandler(a) { ReadKeepsChains(s, a); }
      else if WriteHandler(a) { WriteKeepsChains(s, a); }
      else if TimerHandler(a) { TimerKeepsChains(s, a); }
      else if Queues(s.pc) { QueueingKeepsChains(s, a.answer); }
      else if Closes(s.pc) { ClosingKeepsChains(s, a.answer); }
      else { OtherStepsKeepChains(s, a.answer); }
    }
  }

  /** In every run at most one read and at most one timer wait are outstanding. */
  lemma {:induction false} ChainsHold(actions: seq<Action>)
    ensures ChainsInv(Run(Init(), actions))
  {
    if actions == [] {
    } else {
      ChainsHold(actions[..|actions| - 1]);
      StepKeepsChains(Run(Init(), actions[..|actions| - 1]), actions[|actions| - 1]);
    }
  }

  /**
   * The chains neither fork nor die: at most one read and at most one wait are ever
   * outstanding, between handlers a session in business has exactly one of each,
   * its accept counting as its first read, and a closed one waits for no deadline.
   */
  lemma OneReadOneWait(actions: seq<Action>)
    ensures var s := Run(Init(), actions);
            && s.io.accepting + s.io.reading <= 1
            && s.io.pending + s.io.expired + s.io.aborted + s.io.faulted <= 1
            && (s.pc == Idle && s.phase != Closed && !s.closeRequested ==>
                  && s.io.accepting + s.io.reading == 1
                  && s.io.pending + s.io.expired + s.io.aborted + s.io.faulted == 1)
            && (s.phase == Closed ==> s.io.pending == 0)
  {
    ChainsHold(actions);
  }

  /** How many inbound messages `actions` makes a session starting in `s` handle. */
  function Handled(s: Session, actions: seq<Action>): nat {
    if actions == [] then 0 else
      var init, a := actions[..|actions| - 1], actions[|actions| - 1];
      Handled(s, init) + (if a.Message? && Enabled(Run(s, init), a) then 1 else 0)
  }

  lemma CloseStopsReads(s: Session, a: Action)
    requires s.closeRequested
    ensures Step(s, a).closeRequested
    ensures Step(s, a).io.reading + (if a.Message? && Enabled(s, a) then 1 else 0) <= s.io.reading
  {
  }

  lemma {:induction false} HandledAfterClose(s: Session, actions: seq<Action>)
    requires s.closeRequested
    ensures Run(s, actions).closeRequested
    ensures Handled(s, actions) + Run(s, actions).io.reading <= s.io.reading
  {
    if actions == [] {
    } else {
      HandledAfterClose(s, actions[..|actions| - 1]);
      CloseStopsReads(Run(s, actions[..|actions| - 1]), actions[|actions| - 1]);
    }
  }

  /** Once a close has been requested, at most one more inbound message is handled, ever. */
  lemma AtMostOneLateMessage(before: seq<Action>, after: seq<Action>)
    requires Run(Init(), before).closeRequested
    ensures Handled(Run(Init(), before), after) <= 1
  {
    ChainsHold(before);
    HandledAfterClose(Run(Init(), before), after);
  }
}
