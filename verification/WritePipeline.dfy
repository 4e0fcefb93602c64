/**
 * The write pipeline of a session: in every run it is a FIFO with one writer,
 * and a close lets it drain first.
 */
module WritePipeline {
  import opened Wrappers
  import opened JsonValues
  import opened SessionMachine

  // ----- subsequences

  /** `xs` is `ys` with some elements left out. */
  predicate Subsequence<T(==)>(xs: seq<T>, ys: seq<T>) {
    if xs == [] then true
    else if ys == [] then false
    else if xs[|xs| - 1] == ys[|ys| - 1] && Subsequence(xs[..|xs| - 1], ys[..|ys| - 1]) then true
    else Subsequence(xs, ys[..|ys| - 1])
  }

  lemma SubsequenceAppend<T>(xs: seq<T>, ys: seq<T>, x: T)
    requires Subsequence(xs, ys)
    ensures Subsequence(xs + [x], ys + [x])
  {
    assert (xs + [x])[..|xs|] == xs;
    assert (ys + [x])[..|ys|] == ys;
  }

  lemma {:induction false} SubsequenceTake<T>(xs: seq<T>, ys: seq<T>, n: nat)
    requires Subsequence(xs, ys) && n <= |xs|
    ensures Subsequence(xs[..n], ys)
  {
    if n == |xs| {
      assert xs[..n] == xs;
    } else if n > 0 {
      var xs', ys' := xs[..|xs| - 1], ys[..|ys| - 1];
      if xs[|xs| - 1] == ys[|ys| - 1] && Subsequence(xs', ys') {
        SubsequenceTake(xs', ys', n);
        assert xs'[..n] == xs[..n];
      } else {
        SubsequenceTake(xs, ys', n);
      }
    }
  }

  lemma Deleted<T>(xs: seq<T>, k: nat)
    requires k < |xs|
    ensures k == |xs| - 1 ==> xs[..k] + xs[k + 1..] == xs[..k]
    ensures k < |xs| - 1 ==>
              var xs' := xs[..|xs| - 1];
              xs'[..k] + xs'[k + 1..] + [xs[|xs| - 1]] == xs[..k] + xs[k + 1..]
  {
  }

  lemma {:induction false} SubsequenceDelete<T>(xs: seq<T>, ys: seq<T>, k: nat)
    requires Subsequence(xs, ys) && k < |xs|
    ensures Subsequence(xs[..k] + xs[k + 1..], ys)
  {
    var xs', ys' := xs[..|xs| - 1], ys[..|ys| - 1];
    Deleted(xs, k);
    if k == |xs| - 1 {
      SubsequenceTake(xs, ys, k);
    } else if xs[|xs| - 1] == ys[|ys| - 1] && Subsequence(xs', ys') {
      SubsequenceDelete(xs', ys', k);
      SubsequenceAppend(xs'[..k] + xs'[k + 1..], ys', xs[|xs| - 1]);
      assert ys' + [ys[|ys| - 1]] == ys;
    } else {
      SubsequenceDelete(xs, ys', k);
      SubsequenceLonger(xs[..k] + xs[k + 1..], ys);
    }
  }

  lemma SubsequenceLonger<T>(xs: seq<T>, ys: seq<T>)
    requires ys != [] && Subsequence(xs, ys[..|ys| - 1])
    ensures Subsequence(xs, ys)
  {
  }

  lemma SubsequenceDrop<T>(xs: seq<T>, rest: seq<T>, ys: seq<T>)
    requires Subsequence(xs + rest, ys) && rest != []
    ensures Subsequence(xs + rest[1..], ys)
  {
    SubsequenceDelete(xs + rest, ys, |xs|);
    assert (xs + rest)[..|xs|] + (xs + rest)[|xs| + 1..] == xs + rest[1..];
  }

  // ----- the invariant

  /** Writers under way: posted `do_write` handlers and `async_write` operations. */
  function Writers(w: Writer): nat {
    w.posted + |w.inFlight|
  }

  /** Everything accepted and not dropped, in the order it was accepted. */
  function Stream(w: Writer): seq<Frame> {
    w.written + w.inFlight + w.queue
  }

  predicate OneWriter(s: Session) {
    && Writers(s.w) == (if s.w.writing && !s.pc.DropFrame? then 1 else 0)
    && (s.pc.DropFrame? ==> s.w.writing && s.w.lost)
    && |s.w.queue| <= MAX_WRITE_QUEUE_SIZE
    && (s.w.posted > 0 ==> s.w.queue != [])
  }

  predicate Fifo(s: Session) {
    && Subsequence(Stream(s.w), s.w.accepted)
    && (!s.w.lost ==> Stream(s.w) <= s.w.accepted)
    && (!s.w.lost && !s.w.failed ==> Stream(s.w) == s.w.accepted)
    && (s.w.failed ==> s.closeRequested && s.w.queue == [] && Writers(s.w) == 0)
  }

  /** A close waits for the writer, so it finds nothing queued. */
  predicate ClosesDrained(s: Session) {
    && (s.pc.CheckWriter? || s.pc.FinishClose? ==> s.closeRequested)
    && (s.pc.FinishClose? ==> !s.w.writing)
    && (s.callbacks > 0 || s.closers > 0 ==> s.closeRequested)
    && (!s.w.writing && !s.w.lost && s.phase != Closed ==> s.w.queue == [])
  }

  predicate WriterInv(s: Session) {
    OneWriter(s) && ClosesDrained(s) && (Handshaking(s.pc) ==> s.phase == Unauthenticated)
  }

  predicate PipelineInv(s: Session) {
    WriterInv(s) && Fifo(s)
  }

  lemma EnqueueKeepsWriter(s: Session, f: Frame)
    requires WriterInv(s)
    ensures WriterInv(Enqueue(s, f).0)
    ensures Enqueue(s, f).0 == s.(w := Enqueue(s, f).0.w)
  {
  }

  lemma QueueingKeepsWriter(s: Session, answer: Answer)
    requires WriterInv(s) && Queues(s.pc)
    ensures WriterInv(Continue(s, answer))
  {
    EnqueueKeepsWriter(s, Outgoing(s));
  }

  lemma ClosingKeepsWriter(s: Session, answer: Answer)
    requires WriterInv(s) && Closes(s.pc)
    ensures WriterInv(Continue(s, answer))
  {
  }

  lemma OtherStepsKeepWriter(s: Session, answer: Answer)
    requires WriterInv(s) && !Queues(s.pc) && !Closes(s.pc)
    ensures WriterInv(Continue(s, answer))
  {
  }

  lemma StrandKeepsWriter(s: Session, answer: Answer)
    requires WriterInv(s)
    ensures WriterInv(Continue(s, answer))
  {
    if Queues(s.pc) { QueueingKeepsWriter(s, answer); }
    else if Closes(s.pc) { ClosingKeepsWriter(s, answer); }
    else { OtherStepsKeepWriter(s, answer); }
  }

  lemma ReadKeepsWriter(s: Session, a: Action)
    requires WriterInv(s) && Enabled(s, a) && ReadHandler(a)
    ensures WriterInv(StartHandler(s, a))
  {
  }

  lemma TimerKeepsWriter(s: Session, a: Action)
    requires WriterInv(s) && Enabled(s, a) && TimerHandler(a)
    ensures WriterInv(StartHandler(s, a))
  {
  }

  lemma PostedKeepsWriter(s: Session, memory: bool)
    requires WriterInv(s) && Enabled(s, RunPosted)
    ensures WriterInv(StartHandler(s, if memory then RunPosted else RunPostedNoMemory))
  {
  }

  lemma WrittenKeepsWriter(s: Session, ok: bool)
    requires WriterInv(s) && Enabled(s, WriteDone(ok))
    ensures WriterInv(StartHandler(s, WriteDone(ok)))
  {
  }

  lemma CallbackKeepsWriter(s: Session)
    requires WriterInv(s) && Enabled(s, RunCallback)
    ensures WriterInv(StartHandler(s, RunCallback))
  {
  }

  lemma OthersKeepWriter(s: Session, a: Action)
    requires WriterInv(s) && Enabled(s, a) && OffStrand(a)
    ensures WriterInv(ActOffStrand(s, a))
  {
  }

  lemma StepKeepsWriter(s: Session, a: Action)
    requires WriterInv(s)
    ensures WriterInv(Step(s, a))
  {
    if Enabled(s, a) {
      match a
      case RunPosted => PostedKeepsWriter(s, true);
      case RunPostedNoMemory => PostedKeepsWriter(s, false);
      case WriteDone(ok) => WrittenKeepsWriter(s, ok);
      case RunCallback => CallbackKeepsWriter(s);
      case StrandStep(answer) => StrandKeepsWriter(s, answer);
      case _ =>
        if OffStrand(a) { OthersKeepWriter(s, a); }
        else if ReadHandler(a) { ReadKeepsWriter(s, a); }
        else { TimerKeepsWriter(s, a); }
    }
  }

  /** The FIFO facts mention nothing but the stream. */
  lemma SameStreamKeepsFifo(s: Session, s': Session)
    requires Fifo(s) && Stream(s'.w) == Stream(s.w) && s'.w.accepted == s.w.accepted
    requires s'.w.lost == s.w.lost && s'.w.failed == s.w.failed && (s.closeRequested ==> s'.closeRequested)
    requires s.w.failed ==> s'.w.queue == [] && Writers(s'.w) == 0
    ensures Fifo(s')
  {
  }

  lemma EnqueueKeepsFifo(s: Session, f: Frame)
    requires Fifo(s)
    ensures Fifo(Enqueue(s, f).0)
  {
    SubsequenceAppend(Stream(s.w), s.w.accepted, f);
    assert Stream(Enqueue(s, f).0.w) == if Enqueue(s, f).1 then Stream(s.w) + [f] else Stream(s.w);
  }

  lemma PostedKeepsFifo(s: Session)
    requires WriterInv(s) && Fifo(s) && Enabled(s, RunPosted)
    ensures Fifo(Act(s, RunPosted))
  {
    SameStreamKeepsFifo(s, Act(s, RunPosted));
  }

  lemma DroppedKeepsFifo(s: Session)
    requires WriterInv(s) && Fifo(s) && Enabled(s, RunPostedNoMemory)
    ensures Fifo(Act(s, RunPostedNoMemory))
  {
    var s' := Act(s, RunPostedNoMemory);
    if s.phase == Closed {
      SameStreamKeepsFifo(s, s');
    } else {
      assert Stream(s.w) == s.w.written + s.w.queue && Stream(s'.w) == s.w.written + s.w.queue[1..];
      SubsequenceDrop(s.w.written, s.w.queue, s.w.accepted);
    }
  }

  lemma FrontWritten(w: Writer)
    requires |w.inFlight| == 1
    ensures w.written + [w.inFlight[0]] + w.inFlight[1..] + w.queue == Stream(w)
  {
  }

  lemma WrittenKeepsFifo(s: Session)
    requires OneWriter(s) && Fifo(s) && Enabled(s, WriteDone(true))
    ensures Fifo(Act(s, WriteDone(true)))
  {
    assert |s.w.inFlight| == 1;
    FrontWritten(s.w);
    SameStreamKeepsFifo(s, Act(s, WriteDone(true)));
  }

  lemma FailedWriteKeepsFifo(s: Session)
    requires OneWriter(s) && Fifo(s) && Enabled(s, WriteDone(false))
    ensures Fifo(Act(s, WriteDone(false)))
  {
    var s' := Act(s, WriteDone(false));
    assert |s.w.inFlight| == 1;
    SubsequenceTake(Stream(s.w), s.w.accepted, |s.w.written|);
    assert Stream(s'.w) == s.w.written == Stream(s.w)[..|s.w.written|];
  }

  lemma StrandKeepsFifo(s: Session, answer: Answer)
    requires Fifo(s) && Enabled(s, StrandStep(answer))
    ensures Fifo(Continue(s, answer))
  {
    if Queues(s.pc) {
      EnqueueKeepsFifo(s, Outgoing(s));
      SameStreamKeepsFifo(Enqueue(s, Outgoing(s)).0, Continue(s, answer));
    } else {
      SameStreamKeepsFifo(s, Proceed(s, answer));
    }
  }

  lemma QuietKeepsFifo(s: Session, a: Action)
    requires Fifo(s) && Enabled(s, a) && !a.Send? && !a.StrandStep? && (!WriteHandler(a) || a.RunCallback?)
    ensures Fifo(Act(s, a))
  {
    QuietLeavesWriter(s, a);
    SameStreamKeepsFifo(s, Act(s, a));
  }

  lemma QuietLeavesWriter(s: Session, a: Action)
    requires Enabled(s, a) && !a.Send? && !a.StrandStep? && (!WriteHandler(a) || a.RunCallback?)
    ensures Act(s, a).w == s.w && (s.closeRequested ==> Act(s, a).closeRequested)
  {
  }

  lemma StepKeepsFifo(s: Session, a: Action)
    requires WriterInv(s) && Fifo(s)
    ensures Fifo(Step(s, a))
  {
    if Enabled(s, a) {
      match a
      case Send(text) => EnqueueKeepsFifo(s, TextFrame(text));
      case RunPosted => PostedKeepsFifo(s);
      case RunPostedNoMemory => DroppedKeepsFifo(s);
      case WriteDone(ok) => if ok { WrittenKeepsFifo(s); } else { FailedWriteKeepsFifo(s); }
      case StrandStep(answer) => StrandKeepsFifo(s, answer);
      case _ => QuietKeepsFifo(s, a);
    }
  }

  lemma StepKeepsPipeline(s: Session, a: Action)
    requires PipelineInv(s)
    ensures PipelineInv(Step(s, a))
  {
    StepKeepsWriter(s, a);
    StepKeepsFifo(s, a);
  }

  lemma {:induction false} PipelineHolds(actions: seq<Action>)
    ensures PipelineInv(Run(Init(), actions))
  {
    if actions == [] {
    } else {
      var s := Run(Init(), actions[..|actions| - 1]);
      PipelineHolds(actions[..|actions| - 1]);
      StepKeepsPipeline(s, actions[|actions| - 1]);
    }
  }

  // ----- what this means for whole runs

  predicate NoAllocationFails(actions: seq<Action>) {
    forall k :: 0 <= k < |actions| ==> !actions[k].RunPostedNoMemory?
  }

  predicate NoWriteFails(actions: seq<Action>) {
    forall k :: 0 <= k < |actions| ==> actions[k] != WriteDone(false)
  }

  lemma LostStep(s: Session, a: Action)
    ensures Step(s, a).w.lost ==> s.w.lost || a.RunPostedNoMemory?
  {
  }

  lemma FailedStep(s: Session, a: Action)
    ensures Step(s, a).w.failed ==> s.w.failed || a == WriteDone(false)
  {
  }

  lemma {:induction false} FlagsTellFaults(actions: seq<Action>)
    ensures NoAllocationFails(actions) ==> !Run(Init(), actions).w.lost
    ensures NoWriteFails(actions) ==> !Run(Init(), actions).w.failed
  {
    if actions == [] {
    } else {
      FlagsTellFaults(actions[..|actions| - 1]);
      LostStep(Run(Init(), actions[..|actions| - 1]), actions[|actions| - 1]);
      FailedStep(Run(Init(), actions[..|actions| - 1]), actions[|actions| - 1]);
    }
  }

  /**
   * The pipeline is a FIFO. Whatever happens, what was written is what was
   * accepted, in order, with nothing twice; nothing is skipped unless an
   * allocation failed; and without faults what is missing is still under way.
   */
  lemma WrittenInOrder(actions: seq<Action>)
    ensures var w := Run(Init(), actions).w;
            && Subsequence(w.written, w.accepted)
            && (NoAllocationFails(actions) ==> w.written <= w.accepted)
            && (NoAllocationFails(actions) && NoWriteFails(actions) ==>
                  w.accepted == w.written + w.inFlight + w.queue)
  {
    PipelineHolds(actions);
    FlagsTellFaults(actions);
    var w := Run(Init(), actions).w;
    SubsequenceTake(Stream(w), w.accepted, |w.written|);
    assert Stream(w)[..|w.written|] == w.written;
    assert w.written <= Stream(w);
  }

  /** Two writes never overlap, `writing_` tells whether there is one, and `do_write` always finds a message. */
  lemma OneWriteAtATime(actions: seq<Action>)
    ensures var s := Run(Init(), actions);
            && s.w.posted + |s.w.inFlight| <= 1
            && (s.w.writing <==> s.w.posted + |s.w.inFlight| == 1 || s.pc == DropFrame)
            && |s.w.queue| <= 100
            && (s.w.posted > 0 ==> s.w.queue != [])
  {
    PipelineHolds(actions);
  }

  /** No fault and no disconnection by the peer: the session ends by closing itself. */
  predicate Calm(a: Action) {
    a != WriteDone(false) && !a.RunPostedNoMemory? && !a.ReadFailed? && a != AcceptDone(false)
  }

  predicate AllCalm(actions: seq<Action>) {
    forall k :: 0 <= k < |actions| ==> Calm(actions[k])
  }

  predicate Drained(s: Session) {
    s.phase == Closed ==> s.w.queue == [] && Writers(s.w) == 0
  }

  lemma CalmStepKeepsDrained(s: Session, a: Action)
    requires PipelineInv(s) && Drained(s) && Calm(a) && !s.w.lost
    ensures Drained(Step(s, a))
  {
  }

  lemma {:induction false} DrainedHolds(actions: seq<Action>)
    requires AllCalm(actions)
    ensures Drained(Run(Init(), actions)) && !Run(Init(), actions).w.lost && !Run(Init(), actions).w.failed
  {
    FlagsTellFaults(actions);
    if actions == [] {
    } else {
      var init := actions[..|actions| - 1];
      DrainedHolds(init);
      PipelineHolds(init);
      CalmStepKeepsDrained(Run(Init(), init), actions[|actions| - 1]);
    }
  }

  /** A session that closes itself has by then written every message it ever accepted. */
  lemma GracefulDrain(actions: seq<Action>)
    requires AllCalm(actions)
    ensures Run(Init(), actions).phase == Closed ==>
              Run(Init(), actions).w.written == Run(Init(), actions).w.accepted
  {
    DrainedHolds(actions);
    PipelineHolds(actions);
  }

  /** do_close() never runs while a write is posted or in flight. */
  lemma CloseNeverInterruptsWrite(actions: seq<Action>)
    ensures var s := Run(Init(), actions);
            s.pc.FinishClose? ==> s.w.posted == 0 && s.w.inFlight == [] && !s.w.writing
  {
    PipelineHolds(actions);
  }

  // ----- when a message is accepted

  /** Accepted exactly while the session does business and fewer than 100 wait; a refusal leaves no trace. */
  lemma SendAcceptedExactly(s: Session, text: string)
    ensures var s' := Step(s, Send(text));
            && (s'.w.accepted == s.w.accepted + [TextFrame(text)]
                <==> s.phase != Closed && !s.closeRequested && |s.w.queue| < 100)
            && (s'.w.accepted != s.w.accepted ==> s'.w.queue == s.w.queue + [TextFrame(text)])
            && (s'.w.accepted == s.w.accepted ==> s' == s)
  {
    assert s.w.accepted + [TextFrame(text)] != s.w.accepted;
  }

  function Sends(texts: seq<string>): seq<Action> {
    seq(|texts|, k requires 0 <= k < |texts| => Send(texts[k]))
  }

  function Frames(texts: seq<string>): seq<Frame> {
    seq(|texts|, k requires 0 <= k < |texts| => TextFrame(texts[k]))
  }

  /** How many of `n` messages still find room behind `waiting` others. */
  function Room(waiting: nat, n: nat): nat {
    if waiting >= 100 then 0 else if waiting + n <= 100 then n else 100 - waiting
  }

  lemma FramesGrow(texts: seq<string>, n: nat)
    requires texts != [] && n <= |texts|
    ensures n < |texts| ==> texts[..n] == texts[..|texts| - 1][..n]
    ensures n == |texts| ==>
              Frames(texts[..n]) == Frames(texts[..|texts| - 1][..n - 1]) + [TextFrame(texts[|texts| - 1])]
    ensures |Frames(texts[..n])| == n
  {
  }

  /** What one more message adds to a queue filled so far. */
  lemma OneMoreSend(s: Session, waiting: seq<Frame>, accepted: seq<Frame>, texts: seq<string>)
    requires s.phase != Closed && !s.closeRequested && texts != []
    requires var m := Room(|waiting|, |texts| - 1);
             && s.w.queue == waiting + Frames(texts[..|texts| - 1][..m])
             && s.w.accepted == accepted + Frames(texts[..|texts| - 1][..m])
    ensures var s', n := Step(s, Send(texts[|texts| - 1])), Room(|waiting|, |texts|);
            && s'.w.queue == waiting + Frames(texts[..n])
            && s'.w.accepted == accepted + Frames(texts[..n])
            && s'.phase == s.phase && !s'.closeRequested
  {
    FramesGrow(texts, Room(|waiting|, |texts|));
    FramesGrow(texts, Room(|waiting|, |texts| - 1));
  }

  /** Messages sent in a row to a session in business are accepted in order until 100 wait, and no further. */
  lemma {:induction false} SendsFillTheQueue(s: Session, texts: seq<string>)
    requires s.phase != Closed && !s.closeRequested
    ensures var s', n := Run(s, Sends(texts)), Room(|s.w.queue|, |texts|);
            && s'.w.queue == s.w.queue + Frames(texts[..n])
            && s'.w.accepted == s.w.accepted + Frames(texts[..n])
            && s'.phase == s.phase && !s'.closeRequested
  {
    if texts == [] {
      assert Run(s, Sends(texts)) == s && Frames(texts[..0]) == [];
    } else {
      var init := texts[..|texts| - 1];
      SendsFillTheQueue(s, init);
      assert Sends(texts)[..|texts| - 1] == Sends(init);
      OneMoreSend(Run(s, Sends(init)), s.w.queue, s.w.accepted, texts);
    }
  }
}
