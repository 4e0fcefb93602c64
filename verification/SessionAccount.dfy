/**
 * The two numbers a session keeps for its client: the last sequence number it
 * accepted and the stack, over whole runs.
 */
module SessionAccount {
  import opened Wrappers
  import opened JsonValues
  import opened Protocol
  import opened SessionMachine
  import opened SessionChains
  import opened SessionLife

  // ----- the unsigned gap

  /** The wrapping subtraction is the true difference, also from the initial -1. */
  lemma GapIsDifference(n: int64, last: int64)
    requires -1 <= last < n
    ensures SequenceGap(n, last) == n - last
  {
    if last == -1 {
      assert ToUint64(last) == TWO_TO_THE_64 - 1;
      assert (n - (TWO_TO_THE_64 - 1)) % 0x1_0000_0000_0000_0000 == n + 1;
    }
  }

  // ----- the stack

  function Sum(xs: seq<int64>): int {
    if xs == [] then 0 else Sum(xs[..|xs| - 1]) + xs[|xs| - 1]
  }

  function Capped(n: int): int {
    if n < MAX_AMOUNT then n else MAX_AMOUNT
  }

  /** The stack after each of the credits. */
  function Levels(credits: seq<int64>): seq<int> {
    if credits == [] then [] else Levels(credits[..|credits| - 1]) + [Capped(Sum(credits))]
  }

  /** The stacks announced by the reload responses among `frames`. */
  function Announced(frames: seq<Frame>): seq<int> {
    if frames == [] then [] else
      var f := frames[|frames| - 1];
      Announced(frames[..|frames| - 1]) + (if f.ReloadFrame? then [f.reload.newStack] else [])
  }

  lemma AnnouncedAppend(frames: seq<Frame>, f: Frame)
    ensures Announced(frames + [f]) == Announced(frames) + (if f.ReloadFrame? then [f.reload.newStack] else [])
  {
    assert (frames + [f])[..|frames|] == frames;
  }

  lemma LevelsAppend(credits: seq<int64>, amount: int64)
    ensures Sum(credits + [amount]) == Sum(credits) + amount
    ensures Levels(credits + [amount]) == Levels(credits) + [Capped(Sum(credits) + amount)]
  {
    assert (credits + [amount])[..|credits|] == credits;
  }

  /** Two valid amounts never overflow int64, so the addition in the source is exact. */
  lemma NewStackIsCapped(stack: int64, amount: int64)
    requires 0 <= stack <= MAX_AMOUNT && ValidAmount(amount)
    ensures -TWO_TO_THE_63 <= stack + amount < TWO_TO_THE_63
    ensures NewStack(stack, amount) == Capped(stack + amount)
  {
    WrapIsIdentity(stack + amount);
  }

  predicate AllValid(credits: seq<int64>) {
    forall k :: 0 <= k < |credits| ==> ValidAmount(credits[k])
  }

  /** What the session tells its client about the stack, what it has credited, and the stack itself. */
  predicate StackInv(c: Account, told: seq<int>) {
    && AllValid(c.credits)
    && 0 <= Sum(c.credits) && c.stack == Capped(Sum(c.credits))
    && told == Levels(c.credits)
  }

  predicate SameStack(c: Account, told: seq<int>, c': Account, told': seq<int>) {
    c'.credits == c.credits && c'.stack == c.stack && told' == told
  }

  /** A valid amount is credited and the result announced. */
  predicate Credits(c: Account, told: seq<int>, c': Account, told': seq<int>, amount: int64) {
    && ValidAmount(amount)
    && c'.credits == c.credits + [amount]
    && c'.stack == NewStack(c.stack, amount)
    && told' == told + [c'.stack]
  }

  /** A cap already reached makes no difference to the next sum. */
  lemma CapsOnce(n: int, amount: int)
    requires 0 <= n && 0 <= amount
    ensures Capped(Capped(n) + amount) == Capped(n + amount)
  {
  }

  lemma {:induction false} CreditKeepsStack(c: Account, told: seq<int>, c': Account, told': seq<int>, amount: int64)
    requires StackInv(c, told) && Credits(c, told, c', told', amount)
    ensures StackInv(c', told')
  {
    NewStackIsCapped(c.stack, amount);
    LevelsAppend(c.credits, amount);
    CreditGoesOn(c, told, c', told', amount, Sum(c.credits), Levels(c.credits), Sum(c'.credits), Levels(c'.credits));
  }

  /** The same with the sums and levels as given values. */
  lemma CreditGoesOn(c: Account, told: seq<int>, c': Account, told': seq<int>, amount: int64,
          sum: int, levels: seq<int>, sum': int, levels': seq<int>)
    requires AllValid(c.credits) && 0 <= sum && c.stack == Capped(sum) && told == levels
    requires Credits(c, told, c', told', amount) && c'.stack == Capped(c.stack + amount)
    requires sum' == sum + amount && levels' == levels + [Capped(sum + amount)]
    ensures AllValid(c'.credits) && 0 <= sum' && c'.stack == Capped(sum') && told' == levels'
  {
    CapsOnce(sum, amount);
  }

  lemma EnqueueAnnounces(s: Session, f: Frame)
    ensures var (s', queued) := Enqueue(s, f);
            Announced(s'.w.accepted)
              == Announced(s.w.accepted) + (if queued && f.ReloadFrame? then [f.reload.newStack] else [])
  {
    AnnouncedAppend(s.w.accepted, f);
  }

  lemma CreditStep(s: Session, answer: Answer)
    requires LifeInv(s) && s.pc.Credit?
    ensures var s' := Continue(s, answer);
            var told, told' := Announced(s.w.accepted), Announced(s'.w.accepted);
            || Credits(s.account, told, s'.account, told', s.pc.amount)
            || SameStack(s.account, told, s'.account, told')
  {
    EnqueueAnnounces(s, Outgoing(s));
  }

  lemma OtherMessageStep(s: Session, answer: Answer)
    requires Queues(s.pc) && !s.pc.Credit?
    ensures var s' := Continue(s, answer);
            SameStack(s.account, Announced(s.w.accepted), s'.account, Announced(s'.w.accepted))
  {
    EnqueueAnnounces(s, Outgoing(s));
  }

  lemma QuietStep(s: Session, answer: Answer)
    requires !Queues(s.pc)
    ensures var s' := Continue(s, answer);
            && s'.w.accepted == s.w.accepted
            && s'.account.credits == s.account.credits && s'.account.stack == s.account.stack
  {
  }

  lemma HandlersLeaveStack(s: Session, a: Action)
    requires Enabled(s, a) && !OffStrand(a) && !a.StrandStep?
    ensures var s' := StartHandler(s, a);
            && s'.w.accepted == s.w.accepted
            && s'.account.credits == s.account.credits && s'.account.stack == s.account.stack
  {
  }

  lemma OthersLeaveStack(s: Session, a: Action)
    requires Enabled(s, a) && OffStrand(a) && !a.Send?
    ensures var s' := ActOffStrand(s, a);
            s'.w.accepted == s.w.accepted && s'.account == s.account
  {
  }

  lemma StepKeepsStack(s: Session, a: Action)
    requires LifeInv(s) && StackInv(s.account, Announced(s.w.accepted))
    ensures StackInv(Step(s, a).account, Announced(Step(s, a).w.accepted))
  {
    if Enabled(s, a) {
      var s' := Act(s, a);
      var told, told' := Announced(s.w.accepted), Announced(s'.w.accepted);
      if a.Send? { EnqueueAnnounces(s, TextFrame(a.text)); }
      else if OffStrand(a) { OthersLeaveStack(s, a); }
      else if !a.StrandStep? { HandlersLeaveStack(s, a); }
      else if s.pc.Credit? {
        CreditStep(s, a.answer);
        if !SameStack(s.account, told, s'.account, told') {
          CreditKeepsStack(s.account, told, s'.account, told', s.pc.amount);
        }
      }
      else if Queues(s.pc) { OtherMessageStep(s, a.answer); }
      else { QuietStep(s, a.answer); }
    }
  }

  lemma {:induction false} StackHolds(actions: seq<Action>)
    ensures StackInv(Run(Init(), actions).account, Announced(Run(Init(), actions).w.accepted))
  {
    if actions == [] {
    } else {
      var init := actions[..|actions| - 1];
      StackHolds(init);
      LifeHolds(init);
      StepKeepsStack(Run(Init(), init), actions[|actions| - 1]);
    }
  }

  lemma {:induction false} LevelsRise(credits: seq<int64>)
    requires AllValid(credits)
    ensures forall i, j :: 0 <= i <= j < |Levels(credits)| ==> Levels(credits)[i] <= Levels(credits)[j]
    ensures |Levels(credits)| == |credits|
    ensures credits != [] ==> Levels(credits)[|credits| - 1] == Capped(Sum(credits))
  {
    if credits == [] {
    } else {
      LevelsRise(credits[..|credits| - 1]);
    }
  }

  /**
   * The stack is conserved: it is the sum of the amounts whose response was
   * queued, capped, and the responses tell the client exactly that, rising.
   */
  lemma StackConserved(actions: seq<Action>)
    ensures var s := Run(Init(), actions);
            var told := Announced(s.w.accepted);
            && s.account.stack == Capped(Sum(s.account.credits))
            && |told| == |s.account.credits|
            && told == Levels(s.account.credits)
            && (told != [] ==> told[|told| - 1] == s.account.stack)
            && (forall i, j :: 0 <= i <= j < |told| ==> told[i] <= told[j])
  {
    StackHolds(actions);
    LevelsRise(Run(Init(), actions).account.credits);
  }

  // ----- sequence numbers

  predicate GapsWithin(actions: seq<Action>, limit: int) {
    forall k :: 0 <= k < |actions| && actions[k].Message? && actions[k].verdict.Sequenced? ==>
                  0 <= actions[k].verdict.maxGap <= limit
  }

  predicate Increasing(xs: seq<int64>) {
    forall i, j :: 0 <= i < j < |xs| ==> xs[i] < xs[j]
  }

  /** The accepted numbers rise and end in the last one, which stays within `limit` per number. */
  predicate SequenceInv(c: Account, limit: int64) {
    && Increasing(c.seqs)
    && c.lastSeq == (if c.seqs == [] then -1 else c.seqs[|c.seqs| - 1])
    && |c.seqs| - 1 <= c.lastSeq <= |c.seqs| * limit - 1
  }

  lemma SequenceStep(s: Session, a: Action, limit: int64)
    requires s.account.lastSeq >= -1
    requires a.Message? && a.verdict.Sequenced? ==> 0 <= a.verdict.maxGap <= limit
    ensures var c, c' := s.account, Step(s, a).account;
            || (c'.lastSeq == c.lastSeq && c'.seqs == c.seqs)
            || (c'.seqs == c.seqs + [c'.lastSeq] && c.lastSeq < c'.lastSeq <= c.lastSeq + limit)
  {
    if a.Message? && a.verdict.Sequenced? && Enabled(s, a) {
      GapIsDifference(a.verdict.n, s.account.lastSeq);
    }
  }

  lemma SequenceKept(c: Account, c': Account, limit: int64)
    requires SequenceInv(c, limit)
    requires || (c'.lastSeq == c.lastSeq && c'.seqs == c.seqs)
             || (c'.seqs == c.seqs + [c'.lastSeq] && c.lastSeq < c'.lastSeq <= c.lastSeq + limit)
    ensures SequenceInv(c', limit)
  {
    if c'.seqs != c.seqs {
      assert |c'.seqs| * limit == |c.seqs| * limit + limit;
    }
  }

  lemma {:induction false} SequenceHolds(actions: seq<Action>, limit: int64)
    requires GapsWithin(actions, limit)
    ensures SequenceInv(Run(Init(), actions).account, limit)
  {
    if actions == [] {
    } else {
      var init, a := actions[..|actions| - 1], actions[|actions| - 1];
      SequenceHolds(init, limit);
      SequenceStep(Run(Init(), init), a, limit);
      SequenceKept(Run(Init(), init).account, Run(Init(), actions).account, limit);
    }
  }

  /** No replay: accepted sequence numbers strictly increase. Bounded skew: they stay near their count. */
  lemma NoReplayBoundedSkew(actions: seq<Action>, limit: int64)
    requires GapsWithin(actions, limit)
    ensures var c := Run(Init(), actions).account;
            && Increasing(c.seqs)
            && c.lastSeq == (if c.seqs == [] then -1 else c.seqs[|c.seqs| - 1])
            && |c.seqs| - 1 <= c.lastSeq <= |c.seqs| * limit - 1
  {
    SequenceHolds(actions, limit);
  }
}
