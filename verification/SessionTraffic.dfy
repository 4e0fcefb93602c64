/**
 * The traffic checks over whole connections: the rate limit a session applies is
 * the one of its history, and a session still in business has kept to both limits.
 */
module SessionTraffic {
  import opened Wrappers
  import opened JsonValues
  import opened RateLimiter
  import opened SessionMachine
  import opened SessionChains
  import opened SessionMessages

  // ----- the limiter beside its history

  /** When the delivered messages arrived. */
  function Arrivals(c: Connection, events: seq<Event>): seq<int> {
    if events == [] then [] else
      var init, e := events[..|events| - 1], events[|events| - 1];
      Arrivals(c, init) + (if Delivered(History(c, init), e) then [e.arrived] else [])
  }

  predicate FixedLimits(events: seq<Event>, window: nat, maxMessages: nat) {
    forall k :: 0 <= k < |events| && events[k].Receive? ==>
                  events[k].limits.window == window && events[k].limits.maxMessages == maxMessages
  }

  lemma ArrivalsNext(c: Connection, events: seq<Event>)
    requires events != []
    ensures var init, e := events[..|events| - 1], events[|events| - 1];
            Arrivals(c, events)
            == if Delivered(History(c, init), e) then Arrivals(c, init) + [e.arrived] else Arrivals(c, init)
  {
  }

  lemma DequeStep(c: Connection, e: Event)
    ensures Happen(c, e).deque
            == if !Delivered(c, e) then c.deque
               else Admit(c.deque, e.arrived, Nanos(e.limits.window), e.limits.maxMessages).0
  {
  }

  /** The deque of a session is the one its arrivals lead to. */
  lemma {:induction false} TrafficIsTracked(now: int, events: seq<Event>, window: nat, maxMessages: nat)
    requires FixedLimits(events, window, maxMessages)
    ensures History(NewConnection(now), events).deque
              == Follow(Arrivals(NewConnection(now), events), Nanos(window), maxMessages).deque
  {
    if events == [] {
    } else {
      var init, e := events[..|events| - 1], events[|events| - 1];
      TrafficIsTracked(now, init, window, maxMessages);
      DequeStep(History(NewConnection(now), init), e);
      ArrivalsNext(NewConnection(now), events);
      if Delivered(History(NewConnection(now), init), e) {
        FollowNext(Arrivals(NewConnection(now), init), e.arrived, Nanos(window), maxMessages);
      }
    }
  }

  lemma FixedBefore(events: seq<Event>, e: Event, window: nat, maxMessages: nat)
    requires FixedLimits(events + [e], window, maxMessages)
    ensures FixedLimits(events, window, maxMessages)
    ensures e.Receive? ==> e.limits.window == window && e.limits.maxMessages == maxMessages
  {
    assert (events + [e])[|events|] == e;
    forall k | 0 <= k < |events| && events[k].Receive?
      ensures events[k].limits.window == window && events[k].limits.maxMessages == maxMessages
    { assert (events + [e])[k] == events[k]; }
  }

  /**
   * After these arrivals the message is refused for its rate exactly when the
   * last `maxMessages` admitted ones are all still in the window.
   */
  predicate RateRule(c: Connection, e: Event, arrivals: seq<int>, window: nat, maxMessages: nat)
    requires e.Receive?
  {
    Inspect(c, e).0 == Refused("SESSION_CLOSED", "Rate limit exceeded", Done) <==>
      WindowFull(Follow(arrivals, Nanos(window), maxMessages).log, e.arrived, Nanos(window), maxMessages)
  }

  /**
   * On a monotone clock, a session under a fixed configuration refuses a message
   * for its rate exactly when the window already holds the allowed number.
   */
  lemma RateRefusal(now: int, events: seq<Event>, e: Event, window: nat, maxMessages: nat)
    requires FixedLimits(events + [e], window, maxMessages) && e.Receive?
    requires Ordered(Arrivals(NewConnection(now), events)) && NoneAfter(Arrivals(NewConnection(now), events), e.arrived)
    ensures RateRule(History(NewConnection(now), events), e, Arrivals(NewConnection(now), events), window, maxMessages)
  {
    FixedBefore(events, e, window, maxMessages);
    TrafficIsTracked(now, events, window, maxMessages);
    RefusalByTrack(History(NewConnection(now), events), e, Arrivals(NewConnection(now), events), window, maxMessages);
  }

  lemma RefusalByTrack(c: Connection, e: Event, arrivals: seq<int>, window: nat, maxMessages: nat)
    requires e.Receive? && e.limits.window == window && e.limits.maxMessages == maxMessages
    requires c.deque == Follow(arrivals, Nanos(window), maxMessages).deque
    requires Ordered(arrivals) && NoneAfter(arrivals, e.arrived)
    ensures RateRule(c, e, arrivals, window, maxMessages)
  {
    RefusedExactlyWhenWindowFull(arrivals, e.arrived, Nanos(window), maxMessages);
    OnlyRateSaysRate(c, e);
  }

  lemma OnlyRateSaysRate(c: Connection, e: Event)
    requires e.Receive?
    ensures Inspect(c, e).0 == Refused("SESSION_CLOSED", "Rate limit exceeded", Done) <==>
              !Admit(c.deque, e.arrived, Nanos(e.limits.window), e.limits.maxMessages).1
  {
    assert "Rate limit exceeded" != "Suspicious activity detected";
  }

  // ----- sessions still in business

  /** When the messages that passed the rate limit were checked for bursts. */
  function Checks(c: Connection, events: seq<Event>): seq<int> {
    if events == [] then [] else
      var init, e := events[..|events| - 1], events[|events| - 1];
      Checks(c, init) + (if Checked(History(c, init), e) then [e.checked] else [])
  }

  predicate Checked(c: Connection, e: Event) {
    Delivered(c, e) && Admit(c.deque, e.arrived, Nanos(e.limits.window), e.limits.maxMessages).1
  }

  lemma ChecksNext(c: Connection, events: seq<Event>)
    requires events != []
    ensures var init, e := events[..|events| - 1], events[|events| - 1];
            Checks(c, events) == if Checked(History(c, init), e) then Checks(c, init) + [e.checked] else Checks(c, init)
  {
  }

  /** The activity record of a session is the one its checks lead to. */
  lemma {:induction false} ActivityIsTracked(now: int, events: seq<Event>)
    ensures History(NewConnection(now), events).activity == ObserveAll(now, Checks(NewConnection(now), events)).0
  {
    if events == [] {
    } else {
      var init, e := events[..|events| - 1], events[|events| - 1];
      ActivityIsTracked(now, init);
      ActivityStep(History(NewConnection(now), init), e);
      ChecksNext(NewConnection(now), events);
      if Checked(History(NewConnection(now), init), e) {
        ObserveNext(now, Checks(NewConnection(now), init), e.checked);
      }
    }
  }

  lemma ActivityStep(c: Connection, e: Event)
    ensures Happen(c, e).activity == if Checked(c, e) then Observe(c.activity, e.checked).0 else c.activity
  {
  }

  /** The session has requested a close, or its running handler is going to. */
  predicate Ending(s: Session) {
    s.closeRequested || AboutToClose(s.pc)
  }

  lemma EndingStays(s: Session, a: Action)
    requires Ending(s)
    ensures Ending(Step(s, a))
  {
  }

  /** A message refused by either check ends the session. */
  lemma RefusalEnds(c: Connection, e: Event)
    requires Delivered(c, e)
    requires !Checked(c, e) || Observe(c.activity, e.checked).1
    ensures Ending(Happen(c, e).s)
  {
    assert Inspect(c, e).0.Refused?;
    assert Fits(c.s, Inspect(c, e).0);
  }

  lemma NotEndingBefore(c: Connection, events: seq<Event>)
    requires events != [] && !Ending(History(c, events).s)
    ensures !Ending(History(c, events[..|events| - 1]).s)
  {
    var before := History(c, events[..|events| - 1]);
    if Ending(before.s) {
      EndingStays(before.s, ActionOf(before, events[|events| - 1]));
    }
  }

  lemma {:induction false} NoneRefused(now: int, events: seq<Event>, window: nat, maxMessages: nat)
    requires FixedLimits(events, window, maxMessages)
    requires !Ending(History(NewConnection(now), events).s)
    ensures Follow(Arrivals(NewConnection(now), events), Nanos(window), maxMessages).log
              == Arrivals(NewConnection(now), events)
  {
    if events == [] {
    } else {
      var init, e := events[..|events| - 1], events[|events| - 1];
      var c := History(NewConnection(now), init);
      NotEndingBefore(NewConnection(now), events);
      NoneRefused(now, init, window, maxMessages);
      TrafficIsTracked(now, init, window, maxMessages);
      ArrivalsNext(NewConnection(now), events);
      if Delivered(c, e) {
        if !Checked(c, e) { RefusalEnds(c, e); }
        FollowNext(Arrivals(NewConnection(now), init), e.arrived, Nanos(window), maxMessages);
      }
    }
  }

  /** The closed interval of the window's length that starts at `lo` holds no more than `limit`. */
  predicate WithinRate(ts: seq<int>, window: nat, limit: nat, lo: int) {
    CountBetween(ts, lo, lo + window) <= limit
  }

  /**
   * A session that nobody has started to close has had at most the allowed number
   * of messages in any closed interval of the window's length, refused ones included.
   */
  lemma InBusinessKeepsRate(now: int, events: seq<Event>, window: nat, maxMessages: nat, lo: int)
    requires FixedLimits(events, window, maxMessages) && maxMessages > 0
    requires Ordered(Arrivals(NewConnection(now), events))
    requires !Ending(History(NewConnection(now), events).s)
    ensures WithinRate(Arrivals(NewConnection(now), events), Nanos(window), maxMessages, lo)
  {
    NoneRefused(now, events, window, maxMessages);
    RateOfAdmitted(Arrivals(NewConnection(now), events), Nanos(window), maxMessages, lo);
  }

  lemma RateOfAdmitted(arrivals: seq<int>, window: nat, limit: nat, lo: int)
    requires Ordered(arrivals) && limit > 0 && Follow(arrivals, window, limit).log == arrivals
    ensures WithinRate(arrivals, window, limit, lo)
  {
    RateIsBounded(arrivals, window, limit, lo);
  }

  lemma {:induction false} NoBursts(now: int, events: seq<Event>)
    requires !Ending(History(NewConnection(now), events).s)
    ensures ObserveAll(now, Checks(NewConnection(now), events)).1
  {
    if events == [] {
    } else {
      var init, e := events[..|events| - 1], events[|events| - 1];
      var c := History(NewConnection(now), init);
      NotEndingBefore(NewConnection(now), events);
      NoBursts(now, init);
      ActivityIsTracked(now, init);
      ChecksNext(NewConnection(now), events);
      if Checked(c, e) {
        if Observe(c.activity, e.checked).1 { RefusalEnds(c, e); }
        ObserveNext(now, Checks(NewConnection(now), init), e.checked);
      }
    }
  }

  /** Past its first hundred messages, such a session has had at most one a second on average. */
  lemma InBusinessKeepsPace(now: int, events: seq<Event>)
    requires Ordered(Checks(NewConnection(now), events))
    requires !Ending(History(NewConnection(now), events).s)
    ensures Paced(Checks(NewConnection(now), events))
  {
    NoBursts(now, events);
    BurstBound(now, Checks(NewConnection(now), events));
  }
}
