/**
 * Closing: a requested close is never lost, and it completes within a number of
 * actions that is known when it is requested.
 */
module SessionClosing {
  import opened Wrappers
  import opened SessionMachine
  import opened WritePipeline
  import opened SessionChains

  // ----- a requested close is always somebody's job

  /** Somebody will still run do_close(). */
  predicate ClosePending(s: Session) {
    || s.closers > 0
    || s.callbacks > 0
    || Writers(s.w) > 0
    || s.pc.DropFrame? || s.pc.RequestClose? || s.pc.CheckWriter? || s.pc.FinishClose?
  }

  predicate CloseInv(s: Session) {
    && WriterInv(s)
    && (s.closeInitiated ==> s.phase == Closed)
    && (s.closeRequested && s.phase != Closed ==> ClosePending(s))
  }

  lemma HandlerKeepsClose(s: Session, a: Action)
    requires CloseInv(s) && Enabled(s, a) && !OffStrand(a) && !a.StrandStep?
    ensures var s' := StartHandler(s, a);
            && (s'.closeInitiated ==> s'.phase == Closed)
            && (s'.closeRequested && s'.phase != Closed ==> ClosePending(s'))
  {
  }

  lemma StrandKeepsClose(s: Session, answer: Answer)
    requires CloseInv(s) && Enabled(s, StrandStep(answer))
    ensures var s' := Continue(s, answer);
            && (s'.closeInitiated ==> s'.phase == Closed)
            && (s'.closeRequested && s'.phase != Closed ==> ClosePending(s'))
  {
    if Queues(s.pc) {
      EnqueueKeepsWriter(s, Outgoing(s));
    }
  }

  lemma StepKeepsClose(s: Session, a: Action)
    requires CloseInv(s)
    ensures CloseInv(Step(s, a))
  {
    StepKeepsWriter(s, a);
    if Enabled(s, a) && a.StrandStep? { StrandKeepsClose(s, a.answer); }
    else if Enabled(s, a) && !OffStrand(a) { HandlerKeepsClose(s, a); }
  }

  lemma {:induction false} CloseHolds(actions: seq<Action>)
    ensures CloseInv(Run(Init(), actions))
  {
    if actions == [] {
    } else {
      CloseHolds(actions[..|actions| - 1]);
      StepKeepsClose(Run(Init(), actions[..|actions| - 1]), actions[|actions| - 1]);
    }
  }

  /** Whenever a close has been requested and has not happened, it is still going to. */
  lemma NoLostClose(actions: seq<Action>)
    ensures var s := Run(Init(), actions);
            s.closeRequested && s.phase != Closed ==> ClosePending(s)
  {
    CloseHolds(actions);
  }

  /** `closed` is absorbing; in particular a handshake's last store never overwrites it. */
  lemma ClosedIsFinal(before: seq<Action>, after: seq<Action>)
    requires Run(Init(), before).phase == Closed
    ensures Run(Init(), before + after).phase == Closed
  {
    CloseHolds(before);
    StaysClosed(Run(Init(), before), after);
    RunConcat(Init(), before, after);
  }

  lemma {:induction false} StaysClosed(s: Session, actions: seq<Action>)
    requires CloseInv(s) && s.phase == Closed
    ensures CloseInv(Run(s, actions)) && Run(s, actions).phase == Closed
  {
    if actions == [] {
    } else {
      StaysClosed(s, actions[..|actions| - 1]);
      StepKeepsClose(Run(s, actions[..|actions| - 1]), actions[|actions| - 1]);
      StepKeepsClosed(Run(s, actions[..|actions| - 1]), actions[|actions| - 1]);
    }
  }

  lemma StepKeepsClosed(s: Session, a: Action)
    requires CloseInv(s) && s.phase == Closed
    ensures Step(s, a).phase == Closed
  {
  }

  // ----- how long a close can take

  /** How far the running handler is from its end, once a close has been requested. */
  function Remaining(pc: Pc): nat {
    match pc
    case Idle => 0
    case StartRead => 1
    case RearmTimer => 2
    case Unregister(_) => 3
    case Authenticate => 3
    case FinishClose(_) => 4
    case CheckWriter(_) => 5
    case RequestClose(_) => 6
    case Fail(_, _, _) => 7
    case Respond(_) => 7
    case Credit(_) => 7
    case DropFrame => 7
    case SetId(_) => 8
    case Emplace(attempt, _) => 15 - 3 * attempt
    case Draw(attempt) => 16 - 3 * attempt
  }

  /** Every step brings a handler nearer to its end. */
  lemma TurnAdvances(s: Session, answer: Answer)
    requires s.pc != Idle
    ensures Remaining(Continue(s, answer).pc) < Remaining(s.pc)
  {
  }

  /** A bound on the work left before the session is closed. */
  function Budget(s: Session): nat {
    Remaining(s.pc)
    + 10 * (s.io.accepting + s.io.expired + s.io.aborted + s.io.faulted + s.callbacks)
    + 20 * (s.io.reading + s.io.pending + s.closers)
    + 20 * |s.w.queue| + 10 * |s.w.inFlight|
  }

  /** Everything but new demands from other threads. */
  predicate IsWork(a: Action) {
    !a.Send? && !a.CloseStore?
  }

  lemma ReadSpendsBudget(s: Session, a: Action)
    requires CloseInv(s) && s.closeRequested && s.phase != Closed && Enabled(s, a) && ReadHandler(a)
    ensures StartHandler(s, a).closeRequested
    ensures StartHandler(s, a).phase == Closed || Budget(StartHandler(s, a)) < Budget(s)
  {
  }

  lemma WriteSpendsBudget(s: Session, a: Action)
    requires CloseInv(s) && s.closeRequested && s.phase != Closed && Enabled(s, a) && WriteHandler(a)
    ensures StartHandler(s, a).closeRequested
    ensures StartHandler(s, a).phase == Closed || Budget(StartHandler(s, a)) < Budget(s)
  {
  }

  lemma TimerSpendsBudget(s: Session, a: Action)
    requires CloseInv(s) && s.closeRequested && s.phase != Closed && Enabled(s, a) && TimerHandler(a)
    ensures StartHandler(s, a).closeRequested
    ensures StartHandler(s, a).phase == Closed || Budget(StartHandler(s, a)) < Budget(s)
  {
  }

  lemma StrandSpendsBudget(s: Session, answer: Answer)
    requires CloseInv(s) && s.closeRequested && s.phase != Closed && s.pc != Idle
    ensures Continue(s, answer).closeRequested
    ensures Continue(s, answer).phase == Closed || Budget(Continue(s, answer)) < Budget(s)
  {
  }

  /** Work brings the close nearer, sends change nothing, and a further close() costs twenty. */
  lemma StepSpendsBudget(s: Session, a: Action)
    requires CloseInv(s) && s.closeRequested && s.phase != Closed
    ensures Step(s, a).closeRequested
    ensures IsWork(a) && Enabled(s, a) ==> Step(s, a).phase == Closed || Budget(Step(s, a)) < Budget(s)
    ensures !(IsWork(a) && Enabled(s, a)) ==> Budget(Step(s, a)) <= Budget(s) + (if a.CloseStore? then 20 else 0)
  {
    if Enabled(s, a) {
      if a.StrandStep? { StrandSpendsBudget(s, a.answer); }
      else if ReadHandler(a) { ReadSpendsBudget(s, a); }
      else if WriteHandler(a) { WriteSpendsBudget(s, a); }
      else if TimerHandler(a) { TimerSpendsBudget(s, a); }
    }
  }

  /** The actions of a run that were work and took effect. */
  function WorkDone(s: Session, actions: seq<Action>): nat {
    if actions == [] then 0 else
      var init, a := actions[..|actions| - 1], actions[|actions| - 1];
      WorkDone(s, init) + (if IsWork(a) && Enabled(Run(s, init), a) then 1 else 0)
  }

  function CloseCalls(actions: seq<Action>): nat {
    if actions == [] then 0 else
      CloseCalls(actions[..|actions| - 1]) + (if actions[|actions| - 1].CloseStore? then 1 else 0)
  }

  lemma {:induction false} WorkIsPaidFor(s: Session, actions: seq<Action>)
    requires CloseInv(s) && s.closeRequested && Run(s, actions).phase != Closed
    ensures CloseInv(Run(s, actions)) && Run(s, actions).closeRequested
    ensures WorkDone(s, actions) + Budget(Run(s, actions)) <= Budget(s) + 20 * CloseCalls(actions)
  {
    if actions == [] {
    } else {
      var init, a := actions[..|actions| - 1], actions[|actions| - 1];
      if Run(s, init).phase == Closed {
        StaysClosedFrom(s, init);
        StepKeepsClosed(Run(s, init), a);
      }
      WorkIsPaidFor(s, init);
      StepKeepsClose(Run(s, init), a);
      StepSpendsBudget(Run(s, init), a);
    }
  }

  lemma {:induction false} StaysClosedFrom(s: Session, actions: seq<Action>)
    requires CloseInv(s)
    ensures CloseInv(Run(s, actions))
  {
    if actions == [] {
    } else {
      StaysClosedFrom(s, actions[..|actions| - 1]);
      StepKeepsClose(Run(s, actions[..|actions| - 1]), actions[|actions| - 1]);
    }
  }

  /**
   * From the moment a close has been requested, a session that is still not
   * closed has done a bounded amount of work, whatever the other threads send
   * and in whatever order the strand runs its handlers.
   */
  lemma CloseIsBounded(before: seq<Action>, after: seq<Action>)
    requires Run(Init(), before).closeRequested
    ensures var s := Run(Init(), before);
            Run(s, after).phase == Closed
            || WorkDone(s, after) <= 2070 + 10 * s.callbacks + 20 * (s.closers + CloseCalls(after))
  {
    CloseHolds(before);
    ChainsHold(before);
    var s := Run(Init(), before);
    if Run(s, after).phase != Closed {
      WorkIsPaidFor(s, after);
    }
  }

  /** The next thing to do for a session that has to close: it is always enabled. */
  function NextTask(s: Session): Action {
    if s.pc != Idle then StrandStep(NO_ANSWER)
    else if s.w.posted > 0 then RunPosted
    else if s.w.inFlight != [] then WriteDone(true)
    else if s.callbacks > 0 then RunCallback
    else CloseDispatch
  }

  lemma NeverStuck(s: Session)
    requires CloseInv(s) && s.closeRequested && s.phase != Closed
    ensures IsWork(NextTask(s)) && Enabled(s, NextTask(s))
  {
  }

  /** Carrying out the next task over and over closes the session. */
  lemma {:induction false} CloseCompletes(s: Session) returns (tasks: seq<Action>)
    requires CloseInv(s) && s.closeRequested
    ensures Run(s, tasks).phase == Closed && |tasks| <= Budget(s)
    ensures forall k :: 0 <= k < |tasks| ==> IsWork(tasks[k])
    decreases Budget(s)
  {
    if s.phase == Closed {
      tasks := [];
    } else {
      var a := NextTask(s);
      NeverStuck(s);
      StepSpendsBudget(s, a);
      StepKeepsClose(s, a);
      RunSingle(s, a);
      if Step(s, a).phase == Closed {
        tasks := [a];
      } else {
        var rest := CloseCompletes(Step(s, a));
        RunConcat(s, [a], rest);
        tasks := [a] + rest;
      }
    }
  }
}
