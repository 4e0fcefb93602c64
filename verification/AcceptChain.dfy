/**
 * The server's accept chain: one outstanding accept that renews itself, an
 * exponential backoff after failures, and a stop that may come at any moment
 * from another thread.
 *
 * The handlers of the chain run one at a time, on the thread that runs the
 * `io_context`. stop() and the running handler each advance from one access to
 * shared state to the next, so that a stop also comes in the middle of a handler.
 */
module AcceptChain {
  import opened Powers
  import opened Wrappers

  const MAX_BACKOFF := 30

  /** How an asynchronous accept completes; `Fatal` errors end the chain. */
  datatype Outcome = Accepted | Aborted | Fatal | Failed

  /** The next access to shared state of the handler that is running. */
  datatype Pc =
    | Idle
    | BackOff           // on_accept after a failure: replace the timer and wait
    | Raise(next: int)  // ... and store the next delay
    | DropTimer         // on_accept after a success: release the timer
    | CheckStopped      // ... the guard reads stopped_
    | CheckAlive        // ... and then alive_
    | Create            // ... and the session is created and run
    | Retry(t: nat)     // the end of a backoff wait: is the timer still the current one?
    | Renew             // do_accept()

  /**
   * The delay and the current timer, and what Asio owes them: waits by timer,
   * waits that are over, cancelled waits.
   */
  datatype Backoff = Backoff(
    delay: int,
    timer: Option<nat>,
    timers: nat,
    waits: set<nat>,
    expired: set<nat>,
    cancelled: nat)

  /** What has happened so far: sessions created, the delays since the last success, calls of stop_all. */
  datatype Log = Log(ended: bool, created: nat, streak: seq<int>, stopAlls: nat)

  /** `stage` is how far stop() has got. */
  datatype Server = Server(
    alive: bool,
    stopped: bool,
    open: bool,
    b: Backoff,
    pc: Pc,
    accepts: nat,
    stage: nat,
    log: Log)

  datatype Action =
    | AcceptDone(outcome: Outcome)
    | WaitExpires(t: nat)
    | BackoffOver(t: nat)
    | BackoffAborted
    | Proceed
    | StopBegins
    | StopContinues

  const STOP_STAGES := 5

  /** After the constructor and a single `run()`. */
  const STARTED := Server(true, false, true, Backoff(1, None, 0, {}, {}, 0), Idle, 1, 0, Log(false, 0, [], 0))

  /** Cancelling a timer aborts its wait if that is not over yet. */
  function CancelTimer(b: Backoff): Backoff {
    if b.timer.Some? && b.timer.value in b.waits then
      b.(waits := b.waits - {b.timer.value}, cancelled := b.cancelled + 1)
    else b
  }

  function NextBackoff(backoff: int): int {
    if backoff * 2 < MAX_BACKOFF then backoff * 2 else MAX_BACKOFF
  }

  /** The handler is at its end, and so is the chain. */
  function End(v: Server): Server {
    v.(log := v.log.(ended := true), pc := Idle)
  }

  function OnAccept(v: Server, outcome: Outcome): Server {
    match outcome
    case Aborted => End(v)
    case Fatal => End(v)
    case Failed => if v.open then v.(pc := BackOff) else End(v)
    case Accepted => v.(b := v.b.(delay := 1), log := v.log.(streak := []), pc := DropTimer)
  }

  function OnBackoffOver(v: Server, t: nat): Server {
    if v.alive then v.(pc := Retry(t)) else End(v)
  }

  /** The critical section that replaces the timer. */
  function NewWait(b: Backoff): Backoff {
    var b' := CancelTimer(b);
    b'.(timer := Some(b.timers), timers := b.timers + 1, waits := b'.waits + {b.timers})
  }

  function Continue(v: Server): Server {
    match v.pc
    case Idle => v
    case BackOff =>
      v.(b := NewWait(v.b), log := v.log.(streak := v.log.streak + [v.b.delay]), pc := Raise(NextBackoff(v.b.delay)))
    case Raise(next) => v.(b := v.b.(delay := next), pc := Idle)
    case DropTimer => v.(b := v.b.(timer := None), pc := CheckStopped)
    case CheckStopped => if v.stopped then End(v) else v.(pc := CheckAlive)
    case CheckAlive => if v.alive then v.(pc := Create) else End(v)
    case Create => v.(log := v.log.(created := v.log.created + 1), pc := Renew)
    case Retry(t) => if v.open && v.b.timer == Some(t) then v.(pc := Renew) else End(v)
    case Renew => v.(accepts := v.accepts + 1, pc := Idle)
  }

  /** The five effects of stop(), in order; other handlers run in between. */
  function StopStage(v: Server): Server {
    var v' := v.(stage := v.stage + 1);
    match v.stage
    case 0 => v'.(stopped := true)
    case 1 => v'.(alive := false)
    case 2 => v'.(b := CancelTimer(v.b).(timer := None))
    case 3 => v'.(open := false)
    case _ => v'.(log := v.log.(stopAlls := v.log.stopAlls + 1))
  }

  predicate Enabled(v: Server, a: Action) {
    match a
    case AcceptDone(_) => v.pc == Idle && v.accepts > 0
    case WaitExpires(t) => t in v.b.waits
    case BackoffOver(t) => v.pc == Idle && t in v.b.expired
    case BackoffAborted => v.pc == Idle && v.b.cancelled > 0
    case Proceed => v.pc != Idle
    case StopBegins => !v.stopped
    case StopContinues => 0 < v.stage < STOP_STAGES
  }

  function Act(v: Server, a: Action): Server
    requires Enabled(v, a)
  {
    match a
    case AcceptDone(outcome) => OnAccept(v.(accepts := v.accepts - 1), outcome)
    case WaitExpires(t) => v.(b := v.b.(waits := v.b.waits - {t}, expired := v.b.expired + {t}))
    case BackoffOver(t) => OnBackoffOver(v.(b := v.b.(expired := v.b.expired - {t})), t)
    case BackoffAborted => v.(b := v.b.(cancelled := v.b.cancelled - 1))
    case Proceed => Continue(v)
    case StopBegins => StopStage(v)
    case StopContinues => StopStage(v)
  }

  function Step(v: Server, a: Action): Server {
    if Enabled(v, a) then Act(v, a) else v
  }

  function Run(v: Server, actions: seq<Action>): Server {
    if actions == [] then v else Step(Run(v, actions[..|actions| - 1]), actions[|actions| - 1])
  }

  lemma {:induction false} RunConcat(v: Server, before: seq<Action>, after: seq<Action>)
    ensures Run(v, before + after) == Run(Run(v, before), after)
  {
    if after == [] {
      assert before + after == before;
    } else {
      var init := after[..|after| - 1];
      RunConcat(v, before, init);
      assert (before + after)[..|before + after| - 1] == before + init;
    }
  }

  // ----- backoff

  /** The delay after `k` earlier consecutive failures. */
  function Delay(k: nat): int {
    if Pow2(k) < MAX_BACKOFF then Pow2(k) else MAX_BACKOFF
  }

  lemma DelayDoubles(k: nat)
    ensures Delay(k + 1) == NextBackoff(Delay(k))
  {
  }

  predicate Exponential(streak: seq<int>) {
    forall k :: 0 <= k < |streak| ==> streak[k] == Delay(k)
  }

  /** The delay the next failure will use, once the running handler has stored it. */
  function Coming(v: Server): int {
    if v.pc.Raise? then v.pc.next else v.b.delay
  }

  predicate BackoffInv(v: Server) {
    && Coming(v) == Delay(|v.log.streak|)
    && Exponential(v.log.streak)
  }

  lemma ProceedKeepsBackoff(v: Server)
    requires BackoffInv(v)
    ensures BackoffInv(Continue(v))
  {
    if v.pc == BackOff {
      DelayDoubles(|v.log.streak|);
    }
  }

  lemma StopLeavesBackoff(v: Server)
    ensures StopStage(v).b.delay == v.b.delay && StopStage(v).log.streak == v.log.streak && StopStage(v).pc == v.pc
  {
  }

  lemma AsioKeepsBackoff(v: Server, a: Action)
    requires BackoffInv(v) && Enabled(v, a) && (a.AcceptDone? || a.WaitExpires? || a.BackoffOver? || a.BackoffAborted?)
    ensures BackoffInv(Act(v, a))
  {
  }

  lemma StepKeepsBackoff(v: Server, a: Action)
    requires BackoffInv(v)
    ensures BackoffInv(Step(v, a))
  {
    if Enabled(v, a) {
      match a
      case Proceed => ProceedKeepsBackoff(v);
      case StopBegins => StopLeavesBackoff(v);
      case StopContinues => StopLeavesBackoff(v);
      case _ => AsioKeepsBackoff(v, a);
    }
  }

  lemma {:induction false} BackoffHolds(actions: seq<Action>)
    ensures BackoffInv(Run(STARTED, actions))
  {
    if actions == [] {
    } else {
      BackoffHolds(actions[..|actions| - 1]);
      StepKeepsBackoff(Run(STARTED, actions[..|actions| - 1]), actions[|actions| - 1]);
    }
  }

  /** The k-th consecutive failure since the last success waits min(2^k, 30) seconds; a success starts over. */
  lemma BackoffIsExponential(actions: seq<Action>)
    ensures var v := Run(STARTED, actions);
            && (forall k :: 0 <= k < |v.log.streak| ==> v.log.streak[k] == (if Pow2(k) < 30 then Pow2(k) else 30))
            && (v.pc == BackOff ==> v.b.delay == Delay(|v.log.streak|)
                                    && Step(v, Proceed).log.streak == v.log.streak + [v.b.delay])
            && (Enabled(v, AcceptDone(Accepted)) ==> Step(v, AcceptDone(Accepted)).log.streak == [])
  {
    BackoffHolds(actions);
  }

  // ----- the chain

  /** The running handler holds what will become the next accept or wait. */
  predicate Holding(pc: Pc) {
    !pc.Idle? && !pc.Raise?
  }

  /** Accepts, live waits and the handler between them: the places the chain can be. */
  function Places(v: Server): nat {
    v.accepts + |v.b.waits| + |v.b.expired| + (if Holding(v.pc) then 1 else 0)
  }

  predicate StopInv(v: Server) {
    && v.stage <= STOP_STAGES
    && (v.stopped <==> v.stage >= 1)
    && (v.alive <==> v.stage < 2)
    && (v.open <==> v.stage < 4)
    && v.log.stopAlls == (if v.stage == STOP_STAGES then 1 else 0)
  }

  predicate TimerInv(v: Server) {
    && (forall t :: t in v.b.waits ==> t < v.b.timers)
    && (forall t :: t in v.b.expired ==> t < v.b.timers)
    && (v.stage < 3 ==> (forall t :: t in v.b.waits + v.b.expired ==> v.b.timer == Some(t)))
    && (v.stage < 3 && v.pc.Retry? ==> v.b.timer == Some(v.pc.t))
  }

  predicate ChainInv(v: Server) {
    && StopInv(v)
    && TimerInv(v)
    && Places(v) <= 1
    && (!v.stopped && !v.log.ended ==> Places(v) == 1)
  }

  lemma CancelledTimer(b: Backoff)
    ensures CancelTimer(b).waits <= b.waits && |CancelTimer(b).waits| <= |b.waits|
  {
  }

  lemma NewWaitKeepsChain(v: Server)
    requires ChainInv(v) && v.pc == BackOff
    ensures ChainInv(Continue(v))
  {
    assert v.b.waits == {} && v.b.expired == {};
    assert NewWait(v.b).waits == {v.b.timers};
  }

  lemma ProceedKeepsChain(v: Server)
    requires ChainInv(v) && v.pc != Idle && v.pc != BackOff
    ensures ChainInv(Continue(v))
  {
  }

  lemma Removed(s: set<nat>, t: nat)
    requires t in s
    ensures |s - {t}| == |s| - 1
  {
  }

  lemma Added(s: set<nat>, t: nat)
    ensures |s + {t}| <= |s| + 1
    ensures t !in s ==> |s + {t}| == |s| + 1
  {
    if t in s {
      assert s + {t} == s;
    }
  }

  lemma ExpiryKeepsChain(v: Server, t: nat)
    requires ChainInv(v) && t in v.b.waits
    ensures ChainInv(Act(v, WaitExpires(t)))
  {
    Removed(v.b.waits, t);
    assert |v.b.waits| == 1 && v.b.expired == {};
    Added(v.b.expired, t);
  }

  lemma BackoffKeepsChain(v: Server, t: nat)
    requires ChainInv(v) && v.pc == Idle && t in v.b.expired
    ensures ChainInv(Act(v, BackoffOver(t)))
  {
    Removed(v.b.expired, t);
  }

  lemma AcceptKeepsChain(v: Server, outcome: Outcome)
    requires ChainInv(v) && v.pc == Idle && v.accepts > 0
    ensures ChainInv(Act(v, AcceptDone(outcome)))
  {
  }

  lemma StopKeepsChain(v: Server)
    requires ChainInv(v) && v.stage < STOP_STAGES
    ensures ChainInv(StopStage(v))
  {
    CancelledTimer(v.b);
  }

  lemma StepKeepsChain(v: Server, a: Action)
    requires ChainInv(v)
    ensures ChainInv(Step(v, a))
  {
    if Enabled(v, a) {
      match a
      case Proceed => if v.pc == BackOff { NewWaitKeepsChain(v); } else { ProceedKeepsChain(v); }
      case WaitExpires(t) => ExpiryKeepsChain(v, t);
      case BackoffOver(t) => BackoffKeepsChain(v, t);
      case AcceptDone(outcome) => AcceptKeepsChain(v, outcome);
      case StopBegins => StopKeepsChain(v);
      case StopContinues => StopKeepsChain(v);
      case BackoffAborted =>
    }
  }

  lemma {:induction false} ChainHolds(actions: seq<Action>)
    ensures ChainInv(Run(STARTED, actions))
  {
    if actions == [] {
    } else {
      ChainHolds(actions[..|actions| - 1]);
      StepKeepsChain(Run(STARTED, actions[..|actions| - 1]), actions[|actions| - 1]);
    }
  }

  /** No accept completes with an error that ends the chain for good. */
  predicate NoneEnding(actions: seq<Action>) {
    forall k :: 0 <= k < |actions| ==> actions[k] != AcceptDone(Fatal) && actions[k] != AcceptDone(Aborted)
  }

  lemma EndedStep(v: Server, a: Action)
    requires ChainInv(v) && (v.log.ended ==> v.stopped) && a != AcceptDone(Fatal) && a != AcceptDone(Aborted)
    ensures Step(v, a).log.ended ==> Step(v, a).stopped
  {
  }

  lemma {:induction false} EndedOnlyByStop(actions: seq<Action>)
    requires NoneEnding(actions)
    ensures Run(STARTED, actions).log.ended ==> Run(STARTED, actions).stopped
  {
    if actions == [] {
    } else {
      EndedOnlyByStop(actions[..|actions| - 1]);
      ChainHolds(actions[..|actions| - 1]);
      EndedStep(Run(STARTED, actions[..|actions| - 1]), actions[|actions| - 1]);
    }
  }

  /**
   * At most one accept or live backoff wait is ever outstanding; between handlers
   * there is exactly one before a stop, unless an accept failed for good.
   */
  lemma OneAcceptAtATime(actions: seq<Action>)
    ensures var v := Run(STARTED, actions);
            && v.accepts + |v.b.waits| + |v.b.expired| <= 1
            && (NoneEnding(actions) && !v.stopped && v.pc == Idle ==> v.accepts + |v.b.waits| + |v.b.expired| == 1)
  {
    ChainHolds(actions);
    if NoneEnding(actions) {
      EndedOnlyByStop(actions);
    }
  }

  /** No accept, no wait, and no handler that could start one. */
  predicate Dead(v: Server) {
    v.accepts == 0 && v.b.waits == {} && v.b.expired == {} && !Holding(v.pc)
  }

  lemma DeadStep(v: Server, a: Action)
    requires Dead(v)
    ensures Dead(Step(v, a)) && Step(v, a).log.created == v.log.created
  {
    CancelledTimer(v.b);
  }

  lemma {:induction false} DeadForGood(v: Server, actions: seq<Action>)
    requires Dead(v)
    ensures Dead(Run(v, actions)) && Run(v, actions).log.created == v.log.created
  {
    if actions == [] {
    } else {
      DeadForGood(v, actions[..|actions| - 1]);
      DeadStep(Run(v, actions[..|actions| - 1]), actions[|actions| - 1]);
    }
  }

  lemma FatalKills(v: Server, outcome: Outcome)
    requires ChainInv(v) && Enabled(v, AcceptDone(outcome)) && (outcome == Aborted || outcome == Fatal)
    ensures Dead(Step(v, AcceptDone(outcome))) && Step(v, AcceptDone(outcome)).log.created == v.log.created
  {
    assert v.b.waits == {} && v.b.expired == {};
  }

  /** An accept that was aborted or failed for good ends the chain: nothing is accepted or created ever after. */
  lemma FatalEndsChain(before: seq<Action>, outcome: Outcome, after: seq<Action>)
    requires Enabled(Run(STARTED, before), AcceptDone(outcome)) && (outcome == Aborted || outcome == Fatal)
    ensures var v, v' := Run(STARTED, before), Run(STARTED, before + ([AcceptDone(outcome)] + after));
            v'.accepts == 0 && v'.b.waits == {} && v'.b.expired == {} && v'.log.created == v.log.created
  {
    var v := Run(STARTED, before);
    ChainHolds(before);
    FatalKills(v, outcome);
    RunConcat(STARTED, before, [AcceptDone(outcome)] + after);
    RunConcat(v, [AcceptDone(outcome)], after);
    RunTwo(v, AcceptDone(outcome), AcceptDone(outcome));
    DeadForGood(Step(v, AcceptDone(outcome)), after);
  }

  // ----- sessions created after a stop

  /** The handler has passed the guard, or the part of it a stop has not reached yet. */
  predicate PastGuard(v: Server) {
    v.pc == Create || (v.pc == CheckAlive && v.alive)
  }

  /** The sessions there are, with one that is past the guard counted already. */
  function Counted(v: Server): nat {
    v.log.created + (if PastGuard(v) then 1 else 0)
  }

  lemma StoppedHandler(v: Server)
    requires v.stopped
    ensures Continue(v).stopped && v.log.created <= Continue(v).log.created && Counted(Continue(v)) <= Counted(v)
  {
  }

  lemma StoppedOthers(v: Server, a: Action)
    requires v.stopped && Enabled(v, a) && a != Proceed
    ensures Act(v, a).stopped && v.log.created == Act(v, a).log.created && Counted(Act(v, a)) <= Counted(v)
  {
  }

  lemma StoppedStep(v: Server, a: Action)
    requires v.stopped
    ensures var v' := Step(v, a);
            v'.stopped && v.log.created <= v'.log.created && Counted(v') <= Counted(v)
  {
    if Enabled(v, a) {
      if a == Proceed {
        StoppedHandler(v);
      } else {
        StoppedOthers(v, a);
      }
    }
  }

  lemma {:induction false} StoppedRun(v: Server, actions: seq<Action>)
    requires v.stopped
    ensures var v' := Run(v, actions);
            v'.stopped && v.log.created <= v'.log.created && Counted(v') <= Counted(v)
  {
    if actions == [] {
    } else {
      StoppedRun(v, actions[..|actions| - 1]);
      StoppedStep(Run(v, actions[..|actions| - 1]), actions[|actions| - 1]);
    }
  }

  /**
   * Once a stop has begun at most one more session is created, and none unless
   * the running handler was past its guard. An accept that completes after the
   * stop has begun therefore creates none.
   */
  lemma NothingCreatedAfterStop(before: seq<Action>, after: seq<Action>)
    requires Run(STARTED, before).stopped
    ensures var v, v' := Run(STARTED, before), Run(STARTED, before + after);
            && v'.stopped && v'.log.stopAlls <= 1
            && v.log.created <= v'.log.created <= v.log.created + 1
            && (!PastGuard(v) ==> v'.log.created == v.log.created)
  {
    ChainHolds(before + after);
    RunConcat(STARTED, before, after);
    StoppedRun(Run(STARTED, before), after);
  }

  ghost predicate CreatesMore(v: Server) {
    exists actions :: Run(v, actions).log.created > v.log.created
  }

  lemma RunTwo(v: Server, a: Action, b: Action)
    ensures Run(v, [a]) == Step(v, a)
    ensures Run(v, [a, b]) == Step(Step(v, a), b)
  {
    assert [a][..0] == [] && [a, b][..1] == [a];
    assert Run(v, []) == v;
  }

  /** It can happen exactly then. */
  lemma LateSessionExactly(v: Server)
    requires v.stopped
    ensures CreatesMore(v) <==> PastGuard(v)
  {
    if PastGuard(v) {
      RunTwo(v, Proceed, Proceed);
      if v.pc == Create {
        assert Run(v, [Proceed]).log.created > v.log.created;
      } else {
        assert Run(v, [Proceed, Proceed]).log.created > v.log.created;
      }
    } else if CreatesMore(v) {
      var actions :| Run(v, actions).log.created > v.log.created;
      StoppedRun(v, actions);
    }
  }

  const PASS_GUARD := [AcceptDone(Accepted), Proceed] + [Proceed, Proceed]
  const STOP := [StopBegins, StopContinues] + ([StopContinues, StopContinues] + [StopContinues])

  lemma RunFour(v: Server, a: Action, b: Action, c: Action, d: Action)
    ensures Run(v, [a, b] + [c, d]) == Step(Step(Step(Step(v, a), b), c), d)
  {
    RunConcat(v, [a, b], [c, d]);
    RunTwo(v, a, b);
    RunTwo(Step(Step(v, a), b), c, d);
  }

  lemma StageSteps(v: Server)
    requires v.stopped <==> v.stage > 0
    ensures v.stage == 0 ==> Step(v, StopBegins) == StopStage(v)
    ensures 0 < v.stage < STOP_STAGES ==> Step(v, StopContinues) == StopStage(v)
    ensures StopStage(v).stage == v.stage + 1 && (v.stage < 1 || v.stopped ==> StopStage(v).stopped)
  {
  }

  lemma StopStages(v: Server)
    requires v.stage == 0 && !v.stopped
    ensures Run(v, STOP) == StopStage(StopStage(StopStage(StopStage(StopStage(v)))))
  {
    var v1 := StopStage(v);
    var v2 := StopStage(v1);
    var v3 := StopStage(v2);
    var v4 := StopStage(v3);
    StageSteps(v);
    StageSteps(v1);
    StageSteps(v2);
    StageSteps(v3);
    StageSteps(v4);
    RunConcat(v, [StopBegins, StopContinues], [StopContinues, StopContinues] + [StopContinues]);
    RunTwo(v, StopBegins, StopContinues);
    RunConcat(v2, [StopContinues, StopContinues], [StopContinues]);
    RunTwo(v2, StopContinues, StopContinues);
    RunTwo(v4, StopContinues, StopContinues);
  }

  lemma GuardPassed()
    ensures var v := Run(STARTED, PASS_GUARD);
            v.pc == Create && v.stage == 0 && !v.stopped && v.log.created == 0 && v.log.stopAlls == 0
  {
    RunFour(STARTED, AcceptDone(Accepted), Proceed, Proceed, Proceed);
  }

  lemma StoppedAtCreation(v: Server)
    requires v.pc == Create && v.stage == 0 && !v.stopped
    ensures var v' := Run(v, STOP);
            v'.pc == Create && v'.stage == STOP_STAGES && v'.log == v.log.(stopAlls := v.log.stopAlls + 1)
  {
    StopStages(v);
  }

  /** It does happen: the whole of stop() runs between the guard and the creation, which stop_all then has missed. */
  lemma LateSession()
    ensures var v, v' := Run(STARTED, PASS_GUARD + STOP), Run(STARTED, PASS_GUARD + STOP + [Proceed]);
            v.stage == STOP_STAGES && v.log.stopAlls == 1 && v.log.created == 0 && v'.log.created == 1
  {
    GuardPassed();
    RunConcat(STARTED, PASS_GUARD, STOP);
    StoppedAtCreation(Run(STARTED, PASS_GUARD));
    RunConcat(STARTED, PASS_GUARD + STOP, [Proceed]);
    RunTwo(Run(STARTED, PASS_GUARD + STOP), Proceed, Proceed);
  }

  // ----- the server itself

  /** How far the running handler is from its end. */
  function Remaining(pc: Pc): nat {
    match pc
    case Idle => 0
    case Renew => 1
    case Create => 2
    case CheckAlive => 3
    case CheckStopped => 4
    case DropTimer => 5
    case Retry(_) => 2
    case Raise(_) => 1
    case BackOff => 2
  }

  /** The running handler up to its end. */
  function Finish(v: Server): Server
    decreases Remaining(v.pc)
  {
    if v.pc == Idle then v else Finish(Continue(v))
  }

  /** stop() without anything in between. */
  function StopAtOnce(v: Server): Server {
    v.(stopped := true, alive := false, b := CancelTimer(v.b).(timer := None), open := false,
       stage := STOP_STAGES, log := v.log.(stopAlls := v.log.stopAlls + 1))
  }

  /** Uninterrupted, the five stages are stop(). */
  lemma StagesAreStop(v: Server)
    requires v.stage == 0 && !v.stopped
    ensures Run(v, STOP) == StopAtOnce(v)
  {
    StopStages(v);
  }

  lemma FinishSuccess(v: Server)
    requires v.pc == DropTimer
    ensures var b := v.b.(timer := None);
            Finish(v) == if v.stopped || !v.alive then End(v.(b := b))
                         else v.(b := b, log := v.log.(created := v.log.created + 1),
                                 accepts := v.accepts + 1, pc := Idle)
  {
    var v1 := Continue(v);
    var v2 := Continue(v1);
    assert Finish(v) == Finish(v1) == Finish(v2);
    if v2.pc == CheckAlive {
      var v3 := Continue(v2);
      assert Finish(v2) == Finish(v3);
      if v3.pc == Create {
        assert Finish(v3) == Finish(Continue(v3)) == Finish(Continue(Continue(v3)));
      }
    }
  }

  lemma FinishFailure(v: Server)
    requires v.pc == BackOff
    ensures Finish(v) == v.(b := NewWait(v.b).(delay := NextBackoff(v.b.delay)),
                            log := v.log.(streak := v.log.streak + [v.b.delay]), pc := Idle)
  {
    assert Finish(v) == Finish(Continue(v)) == Finish(Continue(Continue(v)));
  }

  lemma FinishRetry(v: Server)
    requires v.pc.Retry?
    ensures Finish(v) == if v.open && v.b.timer == Some(v.pc.t) then v.(accepts := v.accepts + 1, pc := Idle)
                         else End(v)
  {
    var v1 := Continue(v);
    if v1.pc == Renew {
      assert Finish(v) == Finish(v1) == Finish(Continue(v1));
    }
  }

  class WebsocketServer {
    var alive: bool
    var stopped: bool
    var open: bool
    var backoffSeconds: int
    var backoffTimer: Option<nat>
    /** What Asio owes the server. */
    var timers: nat
    var accepts: nat
    var waits: set<nat>
    var expired: set<nat>
    var cancelled: nat
    /** What has happened so far. */
    ghost var stage: nat
    ghost var ended: bool
    ghost var created: nat
    ghost var streak: seq<int>
    ghost var stopAlls: nat

    ghost function Timer(): Backoff
      reads this
    {
      Backoff(backoffSeconds, backoffTimer, timers, waits, expired, cancelled)
    }

    ghost function State(): Server
      reads this
    {
      Server(alive, stopped, open, Timer(), Idle, accepts, stage, Log(ended, created, streak, stopAlls))
    }

    /** The constructor and the one call of run(). */
    constructor ()
      ensures State() == STARTED
    {
      alive, stopped, open, backoffSeconds, backoffTimer := true, false, true, 1, None;
      timers, accepts, waits, expired, cancelled := 0, 1, {}, {}, 0;
      stage, ended, created, streak, stopAlls := 0, false, 0, [], 0;
    }

    method StartAccept()
      modifies this`accepts
      ensures accepts == old(accepts) + 1
    {
      accepts := accepts + 1;
    }

    method CancelBackoff()
      modifies this`waits, this`cancelled
      ensures Timer() == CancelTimer(old(Timer()))
    {
      if backoffTimer.Some? && backoffTimer.value in waits {
        waits := waits - {backoffTimer.value};
        cancelled := cancelled + 1;
      }
    }

    method ReplaceTimer()
      modifies this`backoffTimer, this`timers, this`waits, this`cancelled
      ensures Timer() == NewWait(old(Timer()))
    {
      CancelBackoff();
      backoffTimer := Some(timers);
      waits := waits + {timers};
      timers := timers + 1;
    }

    method StartBackoff()
      modifies this
      ensures State() == Finish(old(State()).(pc := BackOff))
    {
      FinishFailure(State().(pc := BackOff));
      var backoff := backoffSeconds;
      ReplaceTimer();
      streak := streak + [backoff];
      backoffSeconds := NextBackoff(backoff);
    }

    method CreateSession()
      modifies this
      ensures State() == Finish(OnAccept(old(State()), Accepted))
    {
      FinishSuccess(OnAccept(State(), Accepted));
      backoffSeconds := 1;
      streak := [];
      backoffTimer := None;
      if stopped || !alive {
        ended := true;
        return;
      }
      created := created + 1;
      StartAccept();
    }

    /** on_accept without a stop in between. */
    method HandleAccept(outcome: Outcome)
      requires accepts > 0
      modifies this
      ensures State() == Finish(Act(old(State()), AcceptDone(outcome)))
    {
      accepts := accepts - 1;
      if outcome == Accepted {
        CreateSession();
      } else if outcome == Aborted || outcome == Fatal || !open {
        ended := true;
      } else {
        StartBackoff();
      }
    }

    /** The handler of the backoff wait that was started with timer `t`. */
    method HandleBackoff(t: nat)
      requires t in expired
      modifies this
      ensures State() == Finish(Act(old(State()), BackoffOver(t)))
    {
      expired := expired - {t};
      FinishRetry(State().(pc := Retry(t)));
      if alive && open && backoffTimer == Some(t) {
        StartAccept();
      } else {
        ended := true;
      }
    }

    /** A second call does nothing. */
    method Stop()
      modifies this
      ensures State() == if old(stopped) then old(State()) else StopAtOnce(old(State()))
    {
      if stopped {
        return;
      }
      stopped := true;
      alive := false;
      CancelBackoff();
      backoffTimer := None;
      open := false;
      stopAlls := stopAlls + 1;
      stage := STOP_STAGES;
    }
  }
}
