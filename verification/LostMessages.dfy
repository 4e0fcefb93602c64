/**
 * What a failed allocation in `do_write` costs: the one message it loses, and the
 * order of delivery unless a close had already been requested.
 */
module LostMessages {
  import opened Wrappers
  import opened SessionMachine
  import opened WritePipeline

  /** Nothing can be queued or written any more. */
  predicate Stuck(s: Session) {
    WriterInv(s) && !Open(s) && Writers(s.w) == 0
  }

  lemma StuckStep(s: Session, a: Action)
    requires Stuck(s)
    ensures Stuck(Step(s, a))
    ensures Step(s, a).w.written == s.w.written && Step(s, a).w.accepted == s.w.accepted
  {
    StepKeepsWriter(s, a);
  }

  lemma {:induction false} StuckRun(s: Session, actions: seq<Action>)
    requires Stuck(s)
    ensures Stuck(Run(s, actions))
    ensures Run(s, actions).w.written == s.w.written && Run(s, actions).w.accepted == s.w.accepted
  {
    if actions == [] {
    } else {
      StuckRun(s, actions[..|actions| - 1]);
      StuckStep(Run(s, actions[..|actions| - 1]), actions[|actions| - 1]);
    }
  }

  /** Between handlers, with a writer posted and a close requested. */
  predicate Draining(s: Session) {
    && s.phase != Closed && s.closeRequested && s.pc == Idle
    && s.w.posted == 1 && s.w.inFlight == [] && s.w.queue != []
  }

  const WRITE_ONE := [RunPosted, WriteDone(true)]

  lemma DrainOne(s: Session)
    requires Draining(s)
    ensures var s' := Run(s, WRITE_ONE);
            && s'.w.written == s.w.written + [s.w.queue[0]]
            && s'.w.queue == s.w.queue[1..]
            && s'.w.accepted == s.w.accepted
            && (s'.w.queue != [] ==> Draining(s'))
  {
    RunTwo(s, RunPosted, WriteDone(true));
    var s1 := Step(s, RunPosted);
    assert s1.w.inFlight == [s.w.queue[0]] && s1.pc == Idle;
  }

  /** A healthy writer writes the whole queue, close request or not. */
  lemma {:induction false} Drain(s: Session) returns (actions: seq<Action>)
    requires Draining(s)
    ensures Run(s, actions).w.written == s.w.written + s.w.queue
    ensures Run(s, actions).w.accepted == s.w.accepted
    decreases |s.w.queue|
  {
    DrainOne(s);
    var s' := Run(s, WRITE_ONE);
    FrontMoves(s.w.written, s.w.queue);
    if s'.w.queue == [] {
      actions := WRITE_ONE;
    } else {
      var rest := Drain(s');
      actions := WRITE_ONE + rest;
      RunConcat(s, WRITE_ONE, rest);
    }
  }

  lemma FrontMoves<T>(xs: seq<T>, ys: seq<T>)
    requires ys != []
    ensures xs + [ys[0]] + ys[1..] == xs + ys
    ensures ys[1..] == [] ==> xs + [ys[0]] == xs + ys
  {
  }

  /** A text longer than any of the messages. */
  function LongText(frames: seq<Frame>): string {
    if frames == [] then "x" else
      var f := frames[|frames| - 1];
      LongText(frames[..|frames| - 1]) + (if f.TextFrame? then f.text else "")
  }

  lemma {:induction false} LongTextIsNew(frames: seq<Frame>)
    ensures LongText(frames) != ""
    ensures forall f :: f in frames && f.TextFrame? ==> |f.text| < |LongText(frames)|
  {
    if frames == [] {
    } else {
      LongTextIsNew(frames[..|frames| - 1]);
      forall f | f in frames && f.TextFrame? ensures |f.text| < |LongText(frames)| {
        assert f in frames[..|frames| - 1] || f == frames[|frames| - 1];
      }
    }
  }

  /** A session in business whose next message is about to be lost. */
  predicate AboutToLose(s: Session) {
    PipelineInv(s) && Open(s) && !s.w.lost && Enabled(s, RunPostedNoMemory)
  }

  lemma FrontDropped(s: Session)
    requires AboutToLose(s)
    ensures Step(Step(s, RunPostedNoMemory), StrandStep(NO_ANSWER))
            == s.(w := s.w.(writing := false, queue := s.w.queue[1..], posted := 0, lost := true),
                  pc := RequestClose(Done))
  {
    assert s.w.posted == 1 && s.w.queue != [];
  }

  lemma LatePosted(s: Session, text: string)
    requires Open(s) && s.pc == RequestClose(Done) && !s.w.writing && s.w.posted == 0
    requires |s.w.queue| < MAX_WRITE_QUEUE_SIZE
    ensures Step(s, Send(text))
            == s.(w := s.w.(writing := true, queue := s.w.queue + [TextFrame(text)], posted := 1,
                            accepted := s.w.accepted + [TextFrame(text)]))
  {
  }

  lemma CloseDeferred(s: Session)
    requires s.phase != Closed && s.pc == RequestClose(Done) && s.w.writing
    ensures Step(Step(s, StrandStep(NO_ANSWER)), StrandStep(NO_ANSWER)) == s.(closeRequested := true, pc := Idle)
  {
  }

  /** The message is dropped, another thread sends `text`, and only then the handler requests the close. */
  function SlipIn(text: string): seq<Action> {
    [RunPostedNoMemory, StrandStep(NO_ANSWER)] + ([Send(text)] + [StrandStep(NO_ANSWER), StrandStep(NO_ANSWER)])
  }

  lemma SlipInSteps(s: Session, text: string)
    ensures var s2 := Step(Step(s, RunPostedNoMemory), StrandStep(NO_ANSWER));
            Run(s, SlipIn(text)) == Step(Step(Step(s2, Send(text)), StrandStep(NO_ANSWER)), StrandStep(NO_ANSWER))
  {
    var s2 := Step(Step(s, RunPostedNoMemory), StrandStep(NO_ANSWER));
    RunTwo(s, RunPostedNoMemory, StrandStep(NO_ANSWER));
    RunTwo(Step(s2, Send(text)), StrandStep(NO_ANSWER), StrandStep(NO_ANSWER));
    RunFirst(s2, Send(text), [StrandStep(NO_ANSWER), StrandStep(NO_ANSWER)]);
    RunConcat(s, [RunPostedNoMemory, StrandStep(NO_ANSWER)],
              [Send(text)] + [StrandStep(NO_ANSWER), StrandStep(NO_ANSWER)]);
  }

  lemma SlipInLeaves(s: Session, text: string)
    requires AboutToLose(s)
    ensures var s' := Run(s, SlipIn(text));
            Draining(s') && s'.w.written == s.w.written && s'.w.queue == s.w.queue[1..] + [TextFrame(text)]
            && s'.w.accepted == s.w.written + s.w.queue + [TextFrame(text)]
  {
    SlipInSteps(s, text);
    FrontDropped(s);
    var s2 := Step(Step(s, RunPostedNoMemory), StrandStep(NO_ANSWER));
    LatePosted(s2, text);
    CloseDeferred(Step(s2, Send(text)));
    HealthyStream(s);
  }

  /** Of a session about to lose a message nothing has been lost yet, and nothing is in flight. */
  lemma HealthyStream(s: Session)
    requires AboutToLose(s)
    ensures s.w.accepted == s.w.written + s.w.queue && |s.w.queue| <= MAX_WRITE_QUEUE_SIZE
  {
    assert s.w.inFlight == [] && !s.w.failed;
  }

  /** The writer that the late message posts sends everything behind the lost one. */
  lemma LossShows(s: Session) returns (actions: seq<Action>)
    requires AboutToLose(s)
    ensures actions != [] && actions[0] == RunPostedNoMemory
    ensures !(Run(s, actions).w.written <= Run(s, actions).w.accepted)
  {
    var x := TextFrame(LongText(s.w.queue));
    LongTextIsNew(s.w.queue);
    SlipInLeaves(s, x.text);
    var s' := Run(s, SlipIn(x.text));
    var rest := Drain(s');
    actions := SlipIn(x.text) + rest;
    RunConcat(s, SlipIn(x.text), rest);
    var n := |s.w.written| + |s.w.queue| - 1;
    var written, accepted := s.w.written + (s.w.queue[1..] + [x]), s.w.written + s.w.queue + [x];
    assert written[n] == x && accepted[n] == s.w.queue[|s.w.queue| - 1];
  }

  predicate Prefix(w: Writer) {
    w.written <= w.accepted
  }

  lemma StuckAfterLoss(s: Session)
    requires PipelineInv(s) && !Open(s) && !s.w.lost && Enabled(s, RunPostedNoMemory)
    ensures Stuck(Step(s, RunPostedNoMemory)) && Prefix(Step(s, RunPostedNoMemory).w)
  {
    StepKeepsWriter(s, RunPostedNoMemory);
  }

  /** However the run goes on, what is written stays a prefix of what was accepted. */
  ghost predicate PrefixForGood(s: Session) {
    forall more :: Prefix(Run(s, more).w)
  }

  lemma LossHides(s: Session)
    requires PipelineInv(s) && !Open(s) && !s.w.lost && Enabled(s, RunPostedNoMemory)
    ensures PrefixForGood(Step(s, RunPostedNoMemory))
  {
    var s' := Step(s, RunPostedNoMemory);
    StuckAfterLoss(s);
    forall more ensures Prefix(Run(s', more).w) {
      StuckRun(s', more);
    }
  }

  lemma LossShowsLater(s: Session)
    requires AboutToLose(s)
    ensures !PrefixForGood(Step(s, RunPostedNoMemory))
  {
    var actions := LossShows(s);
    var more := actions[1..];
    assert actions == [RunPostedNoMemory] + more;
    RunFirst(s, RunPostedNoMemory, more);
    assert !Prefix(Run(Step(s, RunPostedNoMemory), more).w);
  }

  /**
   * The prefix property fails when `do_write` cannot allocate, and exactly when no
   * close had been requested by then: between dropping the message and requesting
   * the close, another thread's send finds no writer and posts one.
   */
  lemma LossDecidesPrefix(actions: seq<Action>)
    requires !Run(Init(), actions).w.lost && Enabled(Run(Init(), actions), RunPostedNoMemory)
    ensures var s := Run(Init(), actions);
            PrefixForGood(Step(s, RunPostedNoMemory)) <==> s.closeRequested || s.phase == Closed
  {
    var s := Run(Init(), actions);
    PipelineHolds(actions);
    if Open(s) {
      LossShowsLater(s);
    } else {
      LossHides(s);
    }
  }

  lemma FirstMessageQueued(text: string)
    ensures var s := Step(Init(), Send(text));
            Open(s) && !s.w.lost && s.pc == Idle && s.w.posted == 1
  {
  }

  /** So it does fail: a message sent, lost and overtaken is enough. */
  lemma LostMessageBreaksPrefix(text: string) returns (actions: seq<Action>)
    ensures !Prefix(Run(Init(), actions).w)
  {
    PipelineHolds([]);
    StepKeepsPipeline(Init(), Send(text));
    FirstMessageQueued(text);
    actions := LossAfter(Init(), Send(text));
  }

  lemma LossAfter(s: Session, a: Action) returns (actions: seq<Action>)
    requires AboutToLose(Step(s, a))
    ensures !Prefix(Run(s, actions).w)
  {
    var rest := LossShows(Step(s, a));
    RunFirst(s, a, rest);
    actions := [a] + rest;
  }
}
