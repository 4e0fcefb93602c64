/**
 * The two traffic checks every inbound message passes: the sliding-window rate
 * limit and the burst heuristic. Times are steady-clock readings in nanoseconds.
 */
module RateLimiter {

  /** A number of seconds on the steady clock. */
  function Nanos(seconds: int): (nanos: int)
    ensures seconds >= 0 ==> nanos >= 0
  {
    seconds * 1_000_000_000
  }

  const BURST_FREE_MESSAGES := 100

  // ----- the rate limit

  /** The timestamps that are not older than `start`, in order. */
  function Fresh(ts: seq<int>, start: int): (kept: seq<int>)
    ensures |kept| <= |ts|
  {
    if ts == [] then [] else
      var rest := Fresh(ts[..|ts| - 1], start);
      if ts[|ts| - 1] < start then rest else rest + [ts[|ts| - 1]]
  }

  /** The deque after a message arriving at `now`, and whether the message is admitted. */
  function Admit(ts: seq<int>, now: int, window: int, limit: nat): (seq<int>, bool) {
    var kept := Fresh(ts, now - window);
    if |kept| >= limit then (kept, false) else (kept + [now], true)
  }

  class SlidingWindow {
    var timestamps: seq<int>

    constructor ()
      ensures timestamps == []
    {
      timestamps := [];
    }

    /** `std::remove_if` compacts the kept timestamps to the front, `erase` drops the tail. */
    method Prune(start: int)
      modifies this
      ensures timestamps == Fresh(old(timestamps), start)
    {
      var write := 0;
      ghost var before := timestamps;
      for read := 0 to |timestamps|
        invariant |timestamps| == |before|
        invariant write <= read
        invariant timestamps[read..] == before[read..]
        invariant timestamps[..write] == Fresh(before[..read], start)
      {
        assert before[..read + 1][..read] == before[..read];
        assert timestamps[read] == timestamps[read..][0] == before[read];
        if timestamps[read] >= start {
          timestamps := timestamps[write := timestamps[read]];
          write := write + 1;
        }
      }
      assert before[..|before|] == before;
      timestamps := timestamps[..write];
    }

    method Check(now: int, window: int, limit: nat) returns (admitted: bool)
      modifies this
      ensures (timestamps, admitted) == Admit(old(timestamps), now, window, limit)
    {
      Prune(now - window);
      if |timestamps| >= limit {
        admitted := false;
      } else {
        timestamps := timestamps + [now];
        admitted := true;
      }
    }
  }

  /** The deque beside the unpruned record of every admitted arrival. */
  datatype Track = Track(deque: seq<int>, log: seq<int>)

  function Record(t: Track, now: int, window: int, limit: nat): Track {
    var (deque, admitted) := Admit(t.deque, now, window, limit);
    Track(deque, if admitted then t.log + [now] else t.log)
  }

  function Follow(arrivals: seq<int>, window: int, limit: nat): Track {
    if arrivals == [] then Track([], []) else
      Record(Follow(arrivals[..|arrivals| - 1], window, limit), arrivals[|arrivals| - 1], window, limit)
  }

  lemma FollowNext(arrivals: seq<int>, now: int, window: int, limit: nat)
    ensures Follow(arrivals + [now], window, limit) == Record(Follow(arrivals, window, limit), now, window, limit)
  {
    assert (arrivals + [now])[..|arrivals|] == arrivals;
  }

  predicate Ordered(ts: seq<int>) {
    forall i, j :: 0 <= i < j < |ts| ==> ts[i] <= ts[j]
  }

  predicate NoneAfter(ts: seq<int>, now: int) {
    forall i :: 0 <= i < |ts| ==> ts[i] <= now
  }

  lemma {:induction false} FreshTwice(ts: seq<int>, early: int, late: int)
    requires early <= late
    ensures Fresh(Fresh(ts, early), late) == Fresh(ts, late)
  {
    if ts == [] {
    } else {
      var init, last := ts[..|ts| - 1], ts[|ts| - 1];
      FreshTwice(init, early, late);
      if last >= early {
        assert (Fresh(init, early) + [last])[..|Fresh(init, early)|] == Fresh(init, early);
      }
    }
  }

  /** In an ordered record at least `n` entries are fresh exactly when the n-th from the end is. */
  lemma {:induction false} FreshCount(ts: seq<int>, start: int, n: nat)
    requires Ordered(ts)
    ensures |Fresh(ts, start)| >= n <==> n == 0 || (n <= |ts| && ts[|ts| - n] >= start)
  {
    if ts != [] && n > 0 {
      var init := ts[..|ts| - 1];
      FreshCount(init, start, n - 1);
      if ts[|ts| - 1] < start {
        FreshCount(init, start, 1);
      }
    }
  }

  lemma {:induction false} LogOrdered(arrivals: seq<int>, window: int, limit: nat)
    requires Ordered(arrivals)
    ensures Ordered(Follow(arrivals, window, limit).log)
    ensures arrivals != [] ==> NoneAfter(Follow(arrivals, window, limit).log, arrivals[|arrivals| - 1])
    ensures arrivals == [] ==> Follow(arrivals, window, limit).log == []
  {
    if arrivals == [] {
    } else {
      LogOrdered(arrivals[..|arrivals| - 1], window, limit);
    }
  }

  lemma FreshOfExtended(log: seq<int>, now: int, start: int)
    requires start <= now
    ensures Fresh(log + [now], start) == Fresh(log, start) + [now]
  {
    assert (log + [now])[..|log|] == log;
  }

  /** Pruning in place loses nothing: the deque is the whole history cut to the current window. */
  lemma {:induction false} DequeIsWindowOfHistory(arrivals: seq<int>, window: int, limit: nat)
    requires Ordered(arrivals) && arrivals != [] && 0 <= window
    ensures var t := Follow(arrivals, window, limit);
            t.deque == Fresh(t.log, arrivals[|arrivals| - 1] - window)
    decreases |arrivals|, 1
  {
    var init, now := arrivals[..|arrivals| - 1], arrivals[|arrivals| - 1];
    PruningKeepsWindow(init, now, window, limit);
    FreshOfExtended(Follow(init, window, limit).log, now, now - window);
  }

  lemma {:induction false} PruningKeepsWindow(arrivals: seq<int>, now: int, window: int, limit: nat)
    requires Ordered(arrivals) && NoneAfter(arrivals, now) && 0 <= window
    ensures var t := Follow(arrivals, window, limit);
            Fresh(t.deque, now - window) == Fresh(t.log, now - window)
    decreases |arrivals| + 1, 0
  {
    if arrivals != [] {
      DequeIsWindowOfHistory(arrivals, window, limit);
      FreshTwice(Follow(arrivals, window, limit).log, arrivals[|arrivals| - 1] - window, now - window);
    }
  }

  /** The last `limit` admitted messages are all still in the window. */
  predicate WindowFull(log: seq<int>, now: int, window: int, limit: nat) {
    limit == 0 || (limit <= |log| && now - log[|log| - limit] <= window)
  }

  /** A message arriving now is refused exactly then. */
  predicate RefusesRightly(t: Track, now: int, window: int, limit: nat) {
    !Admit(t.deque, now, window, limit).1 <==> WindowFull(t.log, now, window, limit)
  }

  lemma RefusedExactlyWhenWindowFull(arrivals: seq<int>, now: int, window: int, limit: nat)
    requires Ordered(arrivals) && NoneAfter(arrivals, now) && 0 <= window
    ensures RefusesRightly(Follow(arrivals, window, limit), now, window, limit)
  {
    PruningKeepsWindow(arrivals, now, window, limit);
    LogOrdered(arrivals, window, limit);
    AdmissionByLog(Follow(arrivals, window, limit), now, window, limit);
  }

  lemma AdmissionByLog(t: Track, now: int, window: int, limit: nat)
    requires Ordered(t.log) && Fresh(t.deque, now - window) == Fresh(t.log, now - window)
    ensures RefusesRightly(t, now, window, limit)
  {
    FreshCount(t.log, now - window, limit);
  }

  predicate Spread(log: seq<int>, window: int, limit: nat) {
    forall i :: 0 <= i && i + limit < |log| ==> log[i + limit] - log[i] > window
  }

  lemma {:induction false} AdmittedAreSpread(arrivals: seq<int>, window: int, limit: nat)
    requires Ordered(arrivals) && 0 <= window && 0 < limit
    ensures Spread(Follow(arrivals, window, limit).log, window, limit)
  {
    if arrivals == [] {
    } else {
      var init := arrivals[..|arrivals| - 1];
      AdmittedAreSpread(init, window, limit);
      RefusedExactlyWhenWindowFull(init, arrivals[|arrivals| - 1], window, limit);
    }
  }

  /** How many entries lie in the closed interval from `lo` to `hi`. */
  function CountBetween(ts: seq<int>, lo: int, hi: int): nat {
    if ts == [] then 0 else
      CountBetween(ts[..|ts| - 1], lo, hi) + (if lo <= ts[|ts| - 1] <= hi then 1 else 0)
  }

  lemma {:induction false} CountIsFresh(ts: seq<int>, lo: int, hi: int)
    requires NoneAfter(ts, hi)
    ensures CountBetween(ts, lo, hi) == |Fresh(ts, lo)|
  {
    if ts == [] {
    } else {
      CountIsFresh(ts[..|ts| - 1], lo, hi);
    }
  }

  lemma {:induction false} SpreadBoundsIntervals(log: seq<int>, window: int, limit: nat, lo: int)
    requires Ordered(log) && Spread(log, window, limit)
    ensures CountBetween(log, lo, lo + window) <= limit
  {
    if log == [] {
    } else {
      var init, last := log[..|log| - 1], log[|log| - 1];
      if last > lo + window {
        SpreadBoundsIntervals(init, window, limit, lo);
      } else {
        CountIsFresh(log, lo, lo + window);
        FreshCount(log, lo, limit + 1);
        if limit + 1 <= |log| {
          assert log[(|log| - 1 - limit) + limit] - log[|log| - 1 - limit] > window;
        }
      }
    }
  }

  /** No closed interval of window length, wherever it starts, holds more than `limit` admitted messages. */
  lemma RateIsBounded(arrivals: seq<int>, window: int, limit: nat, lo: int)
    requires Ordered(arrivals) && 0 <= window && 0 < limit
    ensures CountBetween(Follow(arrivals, window, limit).log, lo, lo + window) <= limit
  {
    LogOrdered(arrivals, window, limit);
    AdmittedAreSpread(arrivals, window, limit);
    SpreadBoundsIntervals(Follow(arrivals, window, limit).log, window, limit, lo);
  }

  // ----- the burst heuristic

  datatype Activity = Activity(last: int, count: nat)

  /** `duration_cast<seconds>`: whole seconds, truncated toward zero. */
  function WholeSeconds(nanos: int): int {
    if nanos >= 0 then nanos / 1_000_000_000 else -(-nanos / 1_000_000_000)
  }

  /** The activity record after a message checked at `now`, and whether it looks like a burst. */
  function Observe(a: Activity, now: int): (Activity, bool) {
    (Activity(now, a.count + 1),
     a.count + 1 > BURST_FREE_MESSAGES && WholeSeconds(now - a.last) == 0)
  }

  /** Past a hundred messages, one less than a second after the last (on either side of it) is a burst, and no other. */
  lemma BurstExactly(a: Activity, now: int)
    ensures Observe(a, now).1 <==> a.count >= 100 && -1_000_000_000 < now - a.last < 1_000_000_000
    ensures Observe(a, now).0 == Activity(now, a.count + 1)
  {
    var gap := now - a.last;
    if gap < 0 { assert -gap / 1_000_000_000 == 0 <==> -gap < 1_000_000_000; }
  }

  /** Seconds on the clock are seconds. */
  lemma SecondsAreNanos(seconds: int)
    ensures WholeSeconds(Nanos(seconds)) == seconds
    ensures Nanos(seconds + 1) - Nanos(seconds) == 1_000_000_000 && Nanos(0) == 0
  {
    if seconds < 0 { assert -Nanos(seconds) == -seconds * 1_000_000_000; }
  }

  /** The record after a sequence of checks, and whether none of them was a burst. */
  function ObserveAll(start: int, times: seq<int>): (Activity, bool) {
    if times == [] then (Activity(start, 0), true) else
      var (a, passed) := ObserveAll(start, times[..|times| - 1]);
      var (a', burst) := Observe(a, times[|times| - 1]);
      (a', passed && !burst)
  }

  lemma ObserveNext(start: int, times: seq<int>, now: int)
    ensures var (a, passed) := ObserveAll(start, times);
            ObserveAll(start, times + [now]) == (Observe(a, now).0, passed && !Observe(a, now).1)
  {
    assert (times + [now])[..|times|] == times;
  }

  /** Past the first hundred, a second has gone by for every message. */
  predicate Paced(times: seq<int>) {
    |times| > BURST_FREE_MESSAGES ==>
      times[|times| - 1] - times[BURST_FREE_MESSAGES - 1] >= Nanos(|times| - BURST_FREE_MESSAGES)
  }

  /** Past the first hundred, messages that all passed came at least a second apart each. */
  lemma {:induction false} BurstBound(start: int, times: seq<int>)
    requires Ordered(times) && ObserveAll(start, times).1
    ensures ObserveAll(start, times).0.count == |times|
    ensures times != [] ==> ObserveAll(start, times).0.last == times[|times| - 1]
    ensures Paced(times)
  {
    if times == [] {
    } else {
      BurstBound(start, times[..|times| - 1]);
    }
  }
}
