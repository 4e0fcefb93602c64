/**
 * Timing metrics: the samples kept for each timing and the percentiles exported
 * from them, over the reals.
 */
module Metrics {

  const MAX_INT64 := 0x7fff_ffff_ffff_ffff
  /** The deque is trimmed when it is already longer than this, so it keeps one more. */
  const SAMPLE_LIMIT := 1000

  // ----- percentiles

  predicate Sorted(s: seq<int>) {
    forall i, j :: 0 <= i < j < |s| ==> s[i] <= s[j]
  }

  function Ceiling(x: real): int {
    -(-x).Floor
  }

  /** `calculate_percentile`: linear interpolation between the two nearest samples. */
  function Percentile(s: seq<int>, percentile: int): real
    requires 0 <= percentile <= 100
  {
    if s == [] then 0.0 else
      IndexInRange(|s|, percentile);
      var index := Index(|s|, percentile);
      var lower, upper := index.Floor, Ceiling(index);
      if lower == upper then s[lower] as real else
        var weight := index - lower as real;
        s[lower] as real * (1.0 - weight) + s[upper] as real * weight
  }

  function Index(n: nat, percentile: int): real {
    (percentile as real / 100.0) * ((n - 1) as real)
  }

  /** Both neighbours of the index are samples. */
  lemma IndexInRange(n: nat, percentile: int)
    requires 0 < n && 0 <= percentile <= 100
    ensures 0.0 <= Index(n, percentile) <= (n - 1) as real
    ensures 0 <= Index(n, percentile).Floor <= Ceiling(Index(n, percentile)) < n
    ensures Ceiling(Index(n, percentile)) <= Index(n, percentile).Floor + 1
  {
    var f, m := percentile as real / 100.0, (n - 1) as real;
    assert 0.0 <= f <= 1.0 && 0.0 <= m;
    Scale(f, 1.0, m);
    Scale(0.0, f, m);
    assert Index(n, percentile) == f * m;
    Neighbours(f * m, n - 1);
  }

  /** The whole numbers on either side of a real one. */
  lemma Neighbours(x: real, last: nat)
    requires 0.0 <= x <= last as real
    ensures 0 <= x.Floor <= Ceiling(x) <= last && Ceiling(x) <= x.Floor + 1
  {
  }

  lemma Scale(x: real, y: real, m: real)
    requires x <= y && 0.0 <= m
    ensures x * m <= y * m
  {
  }

  /** The piecewise linear curve through the samples, at any real position. */
  function Curve(s: seq<int>, x: real): real
    requires s != [] && 0.0 <= x <= (|s| - 1) as real
  {
    var k := x.Floor;
    if k == |s| - 1 then s[k] as real
    else s[k] as real + (s[k + 1] - s[k]) as real * (x - k as real)
  }

  lemma PercentileOnCurve(s: seq<int>, percentile: int)
    requires s != [] && 0 <= percentile <= 100
    ensures 0.0 <= Index(|s|, percentile) <= (|s| - 1) as real
    ensures Percentile(s, percentile) == Curve(s, Index(|s|, percentile))
  {
    IndexInRange(|s|, percentile);
    var index := Index(|s|, percentile);
    var k := index.Floor;
    if Ceiling(index) == k {
      assert index == k as real;
    } else {
      var weight := index - k as real;
      assert s[k] as real * (1.0 - weight) + s[k + 1] as real * weight
             == s[k] as real + (s[k + 1] - s[k]) as real * weight;
    }
  }

  /** On its segment the curve stays between the two samples. */
  lemma CurveOnSegment(s: seq<int>, x: real)
    requires s != [] && Sorted(s) && 0.0 <= x <= (|s| - 1) as real
    ensures s[x.Floor] as real <= Curve(s, x)
    ensures x.Floor + 1 < |s| ==> Curve(s, x) <= s[x.Floor + 1] as real
    ensures x.Floor + 1 == |s| ==> Curve(s, x) == s[x.Floor] as real
  {
    var k := x.Floor;
    if k + 1 < |s| {
      var d, w := (s[k + 1] - s[k]) as real, x - k as real;
      assert 0.0 <= d && 0.0 <= w < 1.0;
      Scale(0.0, w, d);
      Scale(w, 1.0, d);
      assert Curve(s, x) == s[k] as real + w * d;
      assert s[k] as real + d == s[k + 1] as real;
    }
  }

  lemma CurveRisesOnSegment(s: seq<int>, x: real, y: real)
    requires s != [] && Sorted(s) && 0.0 <= x <= y <= (|s| - 1) as real && x.Floor == y.Floor
    ensures Curve(s, x) <= Curve(s, y)
  {
    var k := x.Floor;
    if k + 1 < |s| {
      var d := (s[k + 1] - s[k]) as real;
      assert 0.0 <= d;
      Scale(x - k as real, y - k as real, d);
      assert Curve(s, x) == s[k] as real + (x - k as real) * d;
      assert Curve(s, y) == s[k] as real + (y - k as real) * d;
    }
  }

  lemma CurveRises(s: seq<int>, x: real, y: real)
    requires s != [] && Sorted(s) && 0.0 <= x <= y <= (|s| - 1) as real
    ensures Curve(s, x) <= Curve(s, y)
  {
    if x.Floor == y.Floor {
      CurveRisesOnSegment(s, x, y);
    } else {
      CurveOnSegment(s, x);
      CurveOnSegment(s, y);
      assert x.Floor + 1 <= y.Floor;
      assert Curve(s, x) <= s[x.Floor + 1] as real <= s[y.Floor] as real <= Curve(s, y);
    }
  }

  lemma IndexRises(n: nat, p: int, q: int)
    requires 0 < n && p <= q
    ensures Index(n, p) <= Index(n, q)
  {
    assert p as real / 100.0 <= q as real / 100.0;
    Scale(p as real / 100.0, q as real / 100.0, (n - 1) as real);
  }

  /** Percentiles are ordered like their ranks and lie between the smallest and the largest sample. */
  lemma PercentilesOrdered(s: seq<int>, p: int, q: int)
    requires s != [] && Sorted(s) && 0 <= p <= q <= 100
    ensures s[0] as real <= Percentile(s, p) <= Percentile(s, q) <= s[|s| - 1] as real
  {
    PercentileOnCurve(s, p);
    PercentileOnCurve(s, q);
    var m := (|s| - 1) as real;
    IndexRises(|s|, p, q);
    CurveRises(s, Index(|s|, p), Index(|s|, q));
    CurveRises(s, 0.0, Index(|s|, p));
    CurveRises(s, Index(|s|, q), m);
    assert m.Floor == |s| - 1;
  }

  /** The ends are exact. */
  lemma PercentileEnds(s: seq<int>)
    requires s != []
    ensures Percentile(s, 0) == s[0] as real
    ensures Percentile(s, 100) == s[|s| - 1] as real
  {
    assert Index(|s|, 0) == 0.0;
    assert Index(|s|, 100) == (|s| - 1) as real;
  }

  // ----- percentiles in whole numbers

  /** Rank `p` of `n` samples is at place p * (n - 1) / 100, counted from the smallest. */
  lemma IndexInHundredths(n: nat, p: int)
    requires 0 < n && 0 <= p <= 100
    ensures Index(n, p) == (p * (n - 1)) as real / 100.0
  {
    assert p as real * (n - 1) as real == (p * (n - 1)) as real;
  }

  lemma FloorOfHundredths(x: nat)
    ensures (x as real / 100.0).Floor == x / 100
    ensures x as real / 100.0 - (x / 100) as real == (x % 100) as real / 100.0
    ensures Ceiling(x as real / 100.0) == (if x % 100 == 0 then x / 100 else x / 100 + 1)
  {
    assert x == 100 * (x / 100) + x % 100;
    assert x as real / 100.0 == (x / 100) as real + (x % 100) as real / 100.0;
  }

  /**
   * A hundred times a percentile is a whole number: its two neighbouring samples,
   * weighted with the hundredths that its place is away from the other one.
   */
  lemma PercentileExactly(s: seq<int>, p: int)
    requires s != [] && 0 <= p <= 100
    ensures var x := p * (|s| - 1);
            && 0 <= x / 100 < |s|
            && (x % 100 == 0 ==> Percentile(s, p) == s[x / 100] as real)
            && (x % 100 != 0 ==>
                  && x / 100 + 1 < |s|
                  && Percentile(s, p) * 100.0
                     == (s[x / 100] * (100 - x % 100) + s[x / 100 + 1] * (x % 100)) as real)
  {
    var x := p * (|s| - 1);
    IndexInRange(|s|, p);
    IndexInHundredths(|s|, p);
    FloorOfHundredths(x);
    if x % 100 != 0 {
      Interpolated(s[x / 100], s[x / 100 + 1], x % 100);
    }
  }

  lemma Interpolated(a: int, b: int, r: nat)
    requires r < 100
    ensures (a as real * (1.0 - r as real / 100.0) + b as real * (r as real / 100.0)) * 100.0
            == (a * (100 - r) + b * r) as real
  {
    assert (a * (100 - r)) as real == a as real * (100 - r) as real;
    assert (b * r) as real == b as real * r as real;
  }

  // ----- recording

  function Min(a: int, b: int): int {
    if a < b then a else b
  }

  function Max(a: int, b: int): int {
    if a > b then a else b
  }

  function MinOf(xs: seq<int>): int {
    if xs == [] then MAX_INT64 else Min(MinOf(xs[..|xs| - 1]), xs[|xs| - 1])
  }

  /** The maximum starts at zero, as the source's does. */
  function MaxOf(xs: seq<int>): int {
    if xs == [] then 0 else Max(MaxOf(xs[..|xs| - 1]), xs[|xs| - 1])
  }

  function Total(xs: seq<int>): int {
    if xs == [] then 0 else Total(xs[..|xs| - 1]) + xs[|xs| - 1]
  }

  /** The last `n` elements, or all of them. */
  function Last(xs: seq<int>, n: nat): seq<int> {
    if |xs| <= n then xs else xs[|xs| - n..]
  }

  class TimingData {
    var count: int
    var sum: int
    var min: int
    var max: int
    var samples: seq<int>
    /** Every duration recorded so far. */
    ghost var recorded: seq<int>

    ghost predicate Valid()
      reads this
    {
      && count == |recorded|
      && sum == Total(recorded)
      && min == MinOf(recorded)
      && max == MaxOf(recorded)
      && samples == Last(recorded, SAMPLE_LIMIT + 1)
    }

    constructor ()
      ensures Valid() && recorded == []
    {
      count, sum, min, max, samples, recorded := 0, 0, MAX_INT64, 0, [], [];
    }

    /** The deque is always the last 1001 recordings, not the last 1000. */
    method Record(duration: int)
      requires Valid()
      modifies this
      ensures Valid() && recorded == old(recorded) + [duration]
      ensures count == |recorded| && |samples| == (if count < 1001 then count else 1001)
      ensures samples == recorded[|recorded| - |samples|..]
    {
      assert (recorded + [duration])[..|recorded|] == recorded;
      count := count + 1;
      sum := sum + duration;
      min := Min(min, duration);
      max := Max(max, duration);
      if |samples| > SAMPLE_LIMIT {
        samples := samples[1..];
      }
      samples := samples + [duration];
      recorded := recorded + [duration];
    }
  }

  /** The extremes are recorded ones, except that a maximum below zero shows as zero. */
  lemma {:induction false} ExtremesAreRecorded(xs: seq<int>)
    requires xs != [] && forall k :: 0 <= k < |xs| ==> xs[k] <= MAX_INT64
    ensures MinOf(xs) in xs
    ensures MaxOf(xs) in xs || (MaxOf(xs) == 0 && forall k :: 0 <= k < |xs| ==> xs[k] < 0)
  {
    var init := xs[..|xs| - 1];
    if init == [] {
      assert xs == [xs[0]];
    } else {
      ExtremesAreRecorded(init);
      assert forall x :: x in init ==> x in xs;
      if MaxOf(xs) == 0 && MaxOf(xs) !in xs {
        forall k | 0 <= k < |xs| ensures xs[k] < 0 { RecordedWithinExtremes(xs, k); }
      }
    }
  }

  lemma {:induction false} TotalIsSum(xs: seq<int>, ys: seq<int>, x: int)
    ensures Total(xs + ys) == Total(xs) + Total(ys) && Total([x]) == x && Total([]) == 0
  {
    assert [x][..0] == [];
    if ys == [] {
      assert xs + ys == xs;
    } else {
      TotalIsSum(xs, ys[..|ys| - 1], x);
      assert (xs + ys)[..|xs + ys| - 1] == xs + ys[..|ys| - 1];
    }
  }

  lemma {:induction false} RecordedWithinExtremes(xs: seq<int>, k: nat)
    requires k < |xs|
    ensures MinOf(xs) <= xs[k] <= MaxOf(xs)
  {
    if k < |xs| - 1 { RecordedWithinExtremes(xs[..|xs| - 1], k); }
  }

  /** `sorted` is what the export sorts the kept samples into. */
  predicate SortedFrom(sorted: seq<int>, samples: seq<int>) {
    Sorted(sorted) && multiset(sorted) == multiset(samples)
  }

  /**
   * The exported percentiles are ordered and lie between the exported minimum
   * and maximum, whatever was recorded.
   */
  lemma ExportedPercentiles(recorded: seq<int>, sorted: seq<int>)
    requires recorded != [] && SortedFrom(sorted, Last(recorded, SAMPLE_LIMIT + 1))
    ensures sorted != []
    ensures MinOf(recorded) as real <= Percentile(sorted, 50) <= Percentile(sorted, 95)
              <= Percentile(sorted, 99) <= MaxOf(recorded) as real
  {
    var samples := Last(recorded, SAMPLE_LIMIT + 1);
    assert samples[0] in multiset(samples);
    assert samples[0] in multiset(sorted);
    PercentilesOrdered(sorted, 50, 95);
    PercentilesOrdered(sorted, 95, 99);
    assert sorted[0] in multiset(sorted) && sorted[|sorted| - 1] in multiset(sorted);
    assert sorted[0] in samples && sorted[|sorted| - 1] in samples;
    SampleIsRecorded(recorded, sorted[0]);
    SampleIsRecorded(recorded, sorted[|sorted| - 1]);
  }

  lemma SampleIsRecorded(recorded: seq<int>, x: int)
    requires x in Last(recorded, SAMPLE_LIMIT + 1)
    ensures MinOf(recorded) <= x <= MaxOf(recorded)
  {
    assert x in recorded;
    var k :| 0 <= k < |recorded| && recorded[k] == x;
    RecordedWithinExtremes(recorded, k);
  }
}
