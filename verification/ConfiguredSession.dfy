/** Sessions under the limits that a loaded configuration can actually contain. */
module ConfiguredSession {
  import opened Wrappers
  import opened JsonValues
  import opened RuntimeConfig
  import opened SessionMachine
  import opened SessionAccount
  import opened SessionMessages

  const WIDEST_GAP: int64 := 100000

  /** The limits are those of a configuration some sequence of loads leads to; it may differ from message to message. */
  ghost predicate Configured(limits: Limits) {
    exists loads :: Matches(limits, AfterLoads(loads))
  }

  predicate Matches(limits: Limits, c: Config) {
    && limits.window == c.rateLimitWindow
    && limits.maxMessages == c.maxMessagesPerWindow
    && limits.maxGap == c.maxSequenceGap
  }

  ghost predicate AllConfigured(events: seq<Event>) {
    forall k :: 0 <= k < |events| && events[k].Receive? ==> Configured(events[k].limits)
  }

  lemma ConfiguredGap(limits: Limits)
    requires Configured(limits)
    ensures 100 <= limits.maxGap <= WIDEST_GAP
  {
    var loads :| Matches(limits, AfterLoads(loads));
    ReachableInRange(loads);
  }

  lemma JudgedGap(s: Session, input: Option<Json>, maxGap: int64)
    ensures Judge(s, input, maxGap).Sequenced? ==> Judge(s, input, maxGap).maxGap == maxGap
  {
  }

  lemma VerdictGap(c: Connection, e: Event)
    requires e.Receive? ==> Configured(e.limits)
    ensures var a := ActionOf(c, e);
            a.Message? && a.verdict.Sequenced? ==> 0 <= a.verdict.maxGap <= WIDEST_GAP
  {
    var a := ActionOf(c, e);
    if a.Message? && a.verdict.Sequenced? {
      assert Delivered(c, e) && a.verdict == Inspect(c, e).0 == Judge(c.s, e.input, e.limits.maxGap);
      JudgedGap(c.s, e.input, e.limits.maxGap);
      ConfiguredGap(e.limits);
    }
  }

  /**
   * Whatever is loaded while a session runs and whatever its client sends, the
   * accepted sequence numbers rise strictly, and after n of them the last one is
   * at least n - 1 and at most 100000 n - 1.
   */
  lemma SkewUnderAnyConfiguration(now: int, events: seq<Event>)
    requires AllConfigured(events)
    ensures var c := History(NewConnection(now), events).s.account;
            Increasing(c.seqs) && |c.seqs| - 1 <= c.lastSeq <= |c.seqs| * WIDEST_GAP - 1
  {
    var c := NewConnection(now);
    var actions := ActionsOf(c, events);
    HistoryIsRun(c, events);
    forall k | 0 <= k < |actions| && actions[k].Message? && actions[k].verdict.Sequenced?
      ensures 0 <= actions[k].verdict.maxGap <= WIDEST_GAP
    {
      ActionsOfPrefix(c, events, k);
      VerdictGap(History(c, events[..k]), events[k]);
    }
    NoReplayBoundedSkew(actions, WIDEST_GAP);
  }
}
