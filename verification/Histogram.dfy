/** Reals extended with both infinities, as the bounds of an estimate need them. */
module ExtendedReals {

  datatype Extended = NegInf | Fin(value: real) | PosInf

  predicate Less(a: Extended, b: Extended) {
    match (a, b)
    case (Fin(x), Fin(y)) => x < y
    case (NegInf, _) => b != NegInf
    case (_, PosInf) => a != PosInf
    case (_, _) => false
  }

  predicate AtMost(a: Extended, b: Extended) {
    a == b || Less(a, b)
  }

  function Larger(a: Extended, b: Extended): Extended {
    if Less(a, b) then b else a
  }

  function Smaller(a: Extended, b: Extended): Extended {
    if Less(b, a) then b else a
  }
}

/** Interval estimates and the three-valued comparison on top of them. */
module Estimates {
  import opened Outcomes
  import opened ExtendedReals

  datatype Estimate = Estimate(lower: Extended, upper: Extended, lowerExclusive: bool)

  datatype Operator = Lt | Lte | Gt | Gte | Eq

  datatype Comparison = Passed | Failed | Skipped

  datatype Refusal =
    | InconsistentBounds
    | NonFiniteThreshold
    | ContradictoryExtrema
    | NoEvents
    | NegativeEvent
    | MissingSum
    | UncoveredRank

  predicate Consistent(e: Estimate) {
    AtMost(e.lower, e.upper) && (e.lowerExclusive ==> e.lower != e.upper)
  }

  function MakeEstimate(lower: Extended, upper: Extended, lowerExclusive: bool): Result<Estimate, Refusal> {
    var e := Estimate(lower, upper, lowerExclusive);
    if Consistent(e) then Ok(e) else Err(InconsistentBounds)
  }

  /** Membership of an extended value: an exclusive lower end is left out. */
  predicate Holds(e: Estimate, v: Extended) {
    AtMost(e.lower, v) && AtMost(v, e.upper) && (e.lowerExclusive ==> e.lower != v)
  }

  predicate Contains(e: Estimate, v: real) {
    Holds(e, Fin(v))
  }

  predicate Satisfies(op: Operator, v: Extended, threshold: real) {
    match op
    case Lt => Less(v, Fin(threshold))
    case Lte => AtMost(v, Fin(threshold))
    case Gt => Less(Fin(threshold), v)
    case Gte => AtMost(Fin(threshold), v)
    case Eq => v == Fin(threshold)
  }

  function Compare(e: Estimate, op: Operator, threshold: Extended): Result<Comparison, Refusal> {
    if !threshold.Fin? then Err(NonFiniteThreshold)
    else
      var strictlyAbove := Less(threshold, e.lower) || (e.lowerExclusive && e.lower == threshold);
      var (passed, failed) :=
        match op
        case Lt => (Less(e.upper, threshold), AtMost(threshold, e.lower))
        case Lte => (AtMost(e.upper, threshold), strictlyAbove)
        case Gt => (strictlyAbove, AtMost(e.upper, threshold))
        case Gte => (AtMost(threshold, e.lower), Less(e.upper, threshold))
        case Eq => (e.lower == e.upper == threshold, strictlyAbove || Less(e.upper, threshold));
      Ok(if passed then Passed else if failed then Failed else Skipped)
  }

  /** A finite value near the lower end, and one near the upper end. */
  lemma FiniteEnds(e: Estimate, threshold: real) returns (low: real, high: real)
    requires Consistent(e) && exists v :: Contains(e, v)
    ensures Contains(e, low) && Contains(e, high)
    ensures Less(e.lower, Fin(threshold)) ==> low < threshold
    ensures e.lower == Fin(threshold) && !e.lowerExclusive ==> low == threshold
    ensures Less(Fin(threshold), e.upper) ==> high > threshold
    ensures e.upper == Fin(threshold) ==> high == threshold
  {
    var v :| Contains(e, v);
    low, high := v, v;
    if !e.upper.PosInf? {
      high := e.upper.value;
    } else if high <= threshold {
      high := threshold + 1.0;
    }
    if e.lower.Fin? && !e.lowerExclusive {
      low := e.lower.value;
    } else if low >= threshold && Less(e.lower, Fin(threshold)) {
      low := if e.lower.Fin? then (e.lower.value + threshold) / 2.0 else threshold - 1.0;
    }
  }

  /**
   The comparison is exact on every estimate that holds a finite value: it
   passes when all finite values satisfy the operator, fails when none does,
   and is skipped when both kinds exist.
   */
  lemma CompareIsExact(e: Estimate, op: Operator, threshold: real)
    requires Consistent(e) && exists v :: Contains(e, v)
    ensures Compare(e, op, Fin(threshold)) == Ok(Passed)
       <==> forall v :: Contains(e, v) ==> Satisfies(op, Fin(v), threshold)
    ensures Compare(e, op, Fin(threshold)) == Ok(Failed)
       <==> forall v :: Contains(e, v) ==> !Satisfies(op, Fin(v), threshold)
    ensures Compare(e, op, Fin(threshold)) == Ok(Skipped)
       <==> (exists v :: Contains(e, v) && Satisfies(op, Fin(v), threshold)) &&
            (exists v :: Contains(e, v) && !Satisfies(op, Fin(v), threshold))
  {
    var low, high := FiniteEnds(e, threshold);
    assert Contains(e, threshold) <==> Holds(e, Fin(threshold));
    forall v | Contains(e, v) ensures AtMost(e.lower, Fin(v)) && AtMost(Fin(v), e.upper) {
    }
  }

  /** Only an infinite point holds no finite value, and no histogram yields one. */
  lemma FiniteMembers(e: Estimate)
    requires Consistent(e)
    ensures (exists v :: Contains(e, v)) <==> e.lower.Fin? || e.lower != e.upper
  {
    if e.lower.Fin? && !e.lowerExclusive {
      assert Contains(e, e.lower.value);
    } else if e.upper.Fin? {
      assert Contains(e, e.upper.value);
    } else if e.lower != e.upper {
      assert Contains(e, if e.lower.Fin? then e.lower.value + 1.0 else 0.0);
    }
  }
}

/** Explicit-bucket histograms and the statistics bounded from them without the events. */
module Histograms {
  import opened Outcomes
  import opened ExtendedReals
  import opened Estimates

  datatype Histogram = Histogram(
    count: int, counts: seq<int>, bounds: seq<real>,
    sum: Option<real>, min: Option<real>, max: Option<real>)

  datatype Aggregation = Count | Mean | Min | Max | P50 | P95 | P99

  /** What the constructor of a sample enforces. */
  predicate Wellformed(h: Histogram) {
    && h.count >= 0
    && (forall i :: 0 <= i < |h.counts| ==> h.counts[i] >= 0)
    && |h.counts| == |h.bounds| + 1
    && Total(h.counts) == h.count
    && (forall i, j :: 0 <= i < j < |h.bounds| ==> h.bounds[i] < h.bounds[j])
    && (h.min.Some? && h.max.Some? ==> h.min.value <= h.max.value)
  }

  function Total(counts: seq<int>): int {
    if counts == [] then 0 else Total(counts[..|counts| - 1]) + counts[|counts| - 1]
  }

  /** Bucket i is the half-open interval above bound i-1 and up to bound i. */
  predicate InBucket(bounds: seq<real>, i: int, v: real)
    requires 0 <= i <= |bounds|
  {
    (i > 0 ==> bounds[i - 1] < v) && (i < |bounds| ==> v <= bounds[i])
  }

  /** bisect_left: how many bounds lie strictly below v. */
  function BisectLeft(bounds: seq<real>, v: real): (i: int)
    requires forall i, j :: 0 <= i < j < |bounds| ==> bounds[i] < bounds[j]
    ensures 0 <= i <= |bounds| && InBucket(bounds, i, v)
  {
    if bounds != [] && v <= bounds[|bounds| - 1] then BisectLeft(bounds[..|bounds| - 1], v) else |bounds|
  }

  // ---- The events behind a histogram -------------------------------------

  predicate Sorted(events: seq<real>) {
    forall i, j :: 0 <= i < j < |events| ==> events[i] <= events[j]
  }

  function Sum(events: seq<real>): real {
    if events == [] then 0.0 else Sum(events[..|events| - 1]) + events[|events| - 1]
  }

  ghost function Occurrences(events: seq<real>, test: real -> bool): nat {
    if events == [] then 0
    else Occurrences(events[..|events| - 1], test) + if test(events[|events| - 1]) then 1 else 0
  }

  ghost function BucketTest(bounds: seq<real>, i: int): real -> bool
    requires 0 <= i <= |bounds|
  {
    v => InBucket(bounds, i, v)
  }

  ghost function UpToTest(bounds: seq<real>, i: int): real -> bool
    requires 0 <= i <= |bounds|
  {
    v => i < |bounds| ==> v <= bounds[i]
  }

  /** The events, in ascending order, could have produced this histogram. */
  ghost predicate Fits(h: Histogram, events: seq<real>)
    requires Wellformed(h)
  {
    && Sorted(events)
    && |events| == h.count
    && (forall i :: 0 <= i < |h.counts| ==> Occurrences(events, BucketTest(h.bounds, i)) == h.counts[i])
    && (h.sum.Some? ==> h.sum.value == Sum(events))
    && (events != [] && h.min.Some? ==> h.min.value == events[0])
    && (events != [] && h.max.Some? ==> h.max.value == events[|events| - 1])
  }

  predicate Nonnegative(events: seq<real>) {
    forall i :: 0 <= i < |events| ==> events[i] >= 0.0
  }

  function Numerator(agg: Aggregation): int {
    match agg case P50 => 1 case P95 => 19 case P99 => 99 case _ => 1
  }

  function Denominator(agg: Aggregation): int {
    match agg case P50 => 2 case P95 => 20 case P99 => 100 case _ => 1
  }

  /** The one-based position of a rank statistic among the ordered events. */
  function Rank(agg: Aggregation, count: int): int {
    match agg
    case Min => 1
    case Max => count
    case _ => (count * Numerator(agg) + Denominator(agg) - 1) / Denominator(agg)
  }

  predicate IsQuantile(agg: Aggregation) {
    agg.P50? || agg.P95? || agg.P99?
  }

  lemma RankIsPosition(agg: Aggregation, count: int)
    requires count > 0 && !agg.Count? && !agg.Mean?
    ensures 1 <= Rank(agg, count) <= count
    ensures IsQuantile(agg) ==>
              (Rank(agg, count) - 1) * Denominator(agg) < count * Numerator(agg) <= Rank(agg, count) * Denominator(agg)
  {
  }

  function Statistic(events: seq<real>, agg: Aggregation): real
    requires events != []
  {
    match agg
    case Count => |events| as real
    case Mean => Sum(events) / |events| as real
    case _ =>
      var rank := Rank(agg, |events|);
      if 1 <= rank <= |events| then events[rank - 1] else 0.0
  }

  ghost function BelowTest(x: real): real -> bool {
    v => v < x
  }

  ghost function AtMostTest(x: real): real -> bool {
    v => v <= x
  }

  // ---- Counting lemmas ----------------------------------------------------

  lemma {:induction false} OccurrencesSplit(events: seq<real>, whole: real -> bool, left: real -> bool, right: real -> bool)
    requires forall v :: whole(v) <==> left(v) || right(v)
    requires forall v :: !(left(v) && right(v))
    ensures Occurrences(events, whole) == Occurrences(events, left) + Occurrences(events, right)
  {
    if events != [] {
      OccurrencesSplit(events[..|events| - 1], whole, left, right);
    }
  }

  lemma {:induction false} OccurrencesSame(events: seq<real>, a: real -> bool, b: real -> bool)
    requires forall v :: a(v) <==> b(v)
    ensures Occurrences(events, a) == Occurrences(events, b)
  {
    if events != [] {
      OccurrencesSame(events[..|events| - 1], a, b);
    }
  }

  /** In ascending order, the events passing a downward closed test come first. */
  lemma {:induction false} TestedEventsAreAPrefix(events: seq<real>, test: real -> bool, j: nat)
    requires Sorted(events) && j < |events|
    requires forall v, w :: v <= w && test(w) ==> test(v)
    ensures Occurrences(events, test) <= |events|
    ensures test(events[j]) <==> j < Occurrences(events, test)
  {
    var front := events[..|events| - 1];
    if front == [] {
      assert Occurrences(front, test) == 0;
    } else {
      TestedEventsAreAPrefix(front, test, if j < |front| then j else |front| - 1);
      if test(events[|events| - 1]) {
        TestedEventsAreAPrefix(front, test, |front| - 1);
      }
    }
  }

  /** The running total over the buckets counts the events up to a bound. */
  lemma {:induction false} CumulativeCount(h: Histogram, events: seq<real>, i: int)
    requires Wellformed(h) && Fits(h, events) && 0 <= i <= |h.bounds|
    ensures Total(h.counts[..i + 1]) == Occurrences(events, UpToTest(h.bounds, i))
  {
    assert h.counts[..i + 1][..i] == h.counts[..i];
    if i == 0 {
      OccurrencesSame(events, UpToTest(h.bounds, 0), BucketTest(h.bounds, 0));
    } else {
      CumulativeCount(h, events, i - 1);
      OccurrencesSplit(events, UpToTest(h.bounds, i), UpToTest(h.bounds, i - 1), BucketTest(h.bounds, i));
    }
  }

  /** The running total before the last bucket is at most the whole. */
  lemma {:induction false} RunningTotalGrows(counts: seq<int>, i: int)
    requires 0 <= i <= |counts| && forall k :: 0 <= k < |counts| ==> counts[k] >= 0
    ensures 0 <= Total(counts[..i]) <= Total(counts)
    decreases |counts|
  {
    if i < |counts| {
      assert counts[..|counts| - 1][..i] == counts[..i];
      RunningTotalGrows(counts[..|counts| - 1], i);
    } else {
      assert counts[..i] == counts;
      if counts != [] {
        RunningTotalGrows(counts[..i - 1], i - 1);
        assert counts[..i - 1][..i - 1] == counts[..i - 1];
      }
    }
  }

  /** An event lies in bucket i exactly when its rank falls in that bucket's share of the count. */
  lemma RankLocatesBucket(h: Histogram, events: seq<real>, rank: int, i: int)
    requires Wellformed(h) && Fits(h, events) && 1 <= rank <= |events| && 0 <= i <= |h.bounds|
    ensures InBucket(h.bounds, i, events[rank - 1])
       <==> Total(h.counts[..i]) < rank <= Total(h.counts[..i + 1])
  {
    CumulativeCount(h, events, i);
    TestedEventsAreAPrefix(events, UpToTest(h.bounds, i), rank - 1);
    if i > 0 {
      CumulativeCount(h, events, i - 1);
      TestedEventsAreAPrefix(events, UpToTest(h.bounds, i - 1), rank - 1);
    }
  }

  function Percent(agg: Aggregation): int
    requires IsQuantile(agg)
  {
    match agg case P50 => 50 case P95 => 95 case P99 => 99
  }

  /** A quantile is the inverse of the empirical distribution function. */
  lemma QuantileInvertsDistribution(events: seq<real>, agg: Aggregation)
    requires Sorted(events) && events != [] && IsQuantile(agg)
    ensures var x := Statistic(events, agg);
            && Occurrences(events, BelowTest(x)) * 100 < |events| * Percent(agg)
            && |events| * Percent(agg) <= Occurrences(events, AtMostTest(x)) * 100
  {
    RankIsPosition(agg, |events|);
    var rank := Rank(agg, |events|);
    var x := events[rank - 1];
    TestedEventsAreAPrefix(events, AtMostTest(x), rank - 1);
    TestedEventsAreAPrefix(events, BelowTest(x), rank - 1);
    assert AtMostTest(x)(x) && !BelowTest(x)(x);
  }

  /** The other statistics are what their names say. */
  lemma StatisticsAreNamedWell(events: seq<real>)
    requires Sorted(events) && events != []
    ensures forall i :: 0 <= i < |events| ==> Statistic(events, Min) <= events[i] <= Statistic(events, Max)
    ensures Statistic(events, Min) == events[0] && Statistic(events, Max) == events[|events| - 1]
    ensures Statistic(events, Count) == |events| as real
  {
    hide Sum;
  }

  lemma MeanTimesCount(events: seq<real>)
    requires events != []
    ensures Statistic(events, Mean) * |events| as real == Sum(events)
  {
    hide Sum, Rank;
  }

  // ---- The estimator -------------------------------------------------------

  /** A value this bucket, the recorded extrema and the declared domain all allow. */
  predicate Feasible(h: Histogram, i: int, nonnegative: bool, v: real)
    requires 0 <= i <= |h.bounds|
  {
    && InBucket(h.bounds, i, v)
    && (nonnegative ==> v >= 0.0)
    && (h.min.Some? ==> h.min.value <= v)
    && (h.max.Some? ==> v <= h.max.value)
  }

  /** The interval between the largest lower limit and the smallest upper limit. */
  function BucketInterval(h: Histogram, index: int, nonnegative: bool): Estimate
    requires 0 <= index <= |h.bounds|
  {
    var below := if index > 0 then Fin(h.bounds[index - 1]) else NegInf;
    var declared := if nonnegative then Larger(Fin(0.0), below) else below;
    var lower := if h.min.Some? then Larger(Fin(h.min.value), declared) else declared;
    var above := if index < |h.bounds| then Fin(h.bounds[index]) else PosInf;
    var upper := if h.max.Some? then Smaller(Fin(h.max.value), above) else above;
    Estimate(lower, upper, index > 0 && lower == below)
  }

  lemma IntervalHoldsFeasible(h: Histogram, index: int, nonnegative: bool, v: real)
    requires 0 <= index <= |h.bounds|
    ensures Contains(BucketInterval(h, index, nonnegative), v) <==> Feasible(h, index, nonnegative, v)
  {
  }

  lemma InconsistentIntervalIsEmpty(e: Estimate, v: real)
    requires !Consistent(e)
    ensures !Contains(e, v)
  {
  }

  /** The interval holds exactly the feasible values of the bucket, and is refused when there are none. */
  method BucketEstimate(h: Histogram, index: int, nonnegative: bool) returns (r: Result<Estimate, Refusal>)
    requires Wellformed(h) && 0 <= index <= |h.bounds|
    ensures r.Ok? ==> Consistent(r.value) && forall v :: Contains(r.value, v) <==> Feasible(h, index, nonnegative, v)
    ensures r.Err? ==> r.error == InconsistentBounds && forall v :: !Feasible(h, index, nonnegative, v)
  {
    var bucketLower := if index > 0 then Fin(h.bounds[index - 1]) else NegInf;
    var lower := bucketLower;
    var upper := if index < |h.bounds| then Fin(h.bounds[index]) else PosInf;
    if nonnegative {
      lower := Larger(Fin(0.0), lower);
    }
    if h.min.Some? {
      lower := Larger(Fin(h.min.value), lower);
    }
    if h.max.Some? {
      upper := Smaller(Fin(h.max.value), upper);
    }
    ghost var interval := BucketInterval(h, index, nonnegative);
    assert interval == Estimate(lower, upper, index > 0 && lower == bucketLower);
    r := MakeEstimate(lower, upper, index > 0 && lower == bucketLower);
    assert r == if Consistent(interval) then Ok(interval) else Err(InconsistentBounds);
    hide BucketInterval, Feasible, Consistent, Holds, Larger, Smaller;
    forall v ensures Contains(interval, v) <==> Feasible(h, index, nonnegative, v)
             ensures !Consistent(interval) ==> !Contains(interval, v) {
      IntervalHoldsFeasible(h, index, nonnegative, v);
      if !Consistent(interval) {
        InconsistentIntervalIsEmpty(interval, v);
      }
    }
  }

  predicate IsOccupied(h: Histogram, i: int) {
    0 <= i < |h.counts| && h.counts[i] != 0
  }

  /** A recorded minimum lies in the lowest occupied bucket and a recorded maximum in the highest. */
  ghost predicate ExtremaAgree(h: Histogram)
    requires Wellformed(h)
  {
    && (h.min.Some? ==>
          var b := BisectLeft(h.bounds, h.min.value);
          IsOccupied(h, b) && forall i :: IsOccupied(h, i) ==> b <= i)
    && (h.max.Some? ==>
          var b := BisectLeft(h.bounds, h.max.value);
          IsOccupied(h, b) && forall i :: IsOccupied(h, i) ==> i <= b)
  }

  lemma {:induction false} PositiveTotalIsOccupied(counts: seq<int>)
    requires Total(counts) != 0
    ensures exists i :: 0 <= i < |counts| && counts[i] != 0
  {
    var last := |counts| - 1;
    if counts[last] == 0 {
      PositiveTotalIsOccupied(counts[..last]);
      var i :| 0 <= i < |counts[..last]| && counts[..last][i] != 0;
      assert counts[i] != 0;
    }
  }

  method ValidateExtrema(h: Histogram) returns (agree: bool)
    requires Wellformed(h) && h.count > 0
    ensures agree <==> ExtremaAgree(h)
  {
    PositiveTotalIsOccupied(h.counts);
    assert exists i :: IsOccupied(h, i) by {
      var i :| 0 <= i < |h.counts| && h.counts[i] != 0;
      assert IsOccupied(h, i);
    }
    var occupied: seq<int> := [];
    for index := 0 to |h.counts|
      invariant forall k :: 0 <= k < |occupied| ==> 0 <= occupied[k] < index && IsOccupied(h, occupied[k])
      invariant forall i :: 0 <= i < index && IsOccupied(h, i) ==> i in occupied
      invariant forall j, k :: 0 <= j < k < |occupied| ==> occupied[j] < occupied[k]
    {
      if h.counts[index] != 0 {
        occupied := occupied + [index];
      }
    }
    agree := true;
    assert occupied != [] by {
      var i :| IsOccupied(h, i);
      assert i in occupied;
    }
    var first, last := occupied[0], occupied[|occupied| - 1];
    assert forall i :: IsOccupied(h, i) ==> first <= i <= last by {
      assert forall i :: IsOccupied(h, i) ==> i in occupied;
    }
    if h.min.Some? && BisectLeft(h.bounds, h.min.value) != first {
      agree := false;
    }
    if h.max.Some? && BisectLeft(h.bounds, h.max.value) != last {
      agree := false;
    }
    assert IsOccupied(h, first) && IsOccupied(h, last);
  }

  /** The first bucket whose running total reaches the rank. */
  predicate IsRankBucket(counts: seq<int>, rank: int, i: int) {
    0 <= i < |counts| && Total(counts[..i]) < rank <= Total(counts[..i + 1])
  }

  method RankBucket(counts: seq<int>, rank: int) returns (r: Result<int, Refusal>)
    requires rank >= 1 && forall k :: 0 <= k < |counts| ==> counts[k] >= 0
    ensures r.Ok? <==> rank <= Total(counts)
    ensures r.Ok? ==> IsRankBucket(counts, rank, r.value)
    ensures r.Err? ==> r.error == UncoveredRank
  {
    var cumulative := 0;
    for index := 0 to |counts|
      invariant cumulative == Total(counts[..index]) < rank
    {
      assert counts[..index + 1][..index] == counts[..index];
      cumulative := cumulative + counts[index];
      if cumulative >= rank {
        RunningTotalGrows(counts, index + 1);
        return Ok(index);
      }
    }
    assert counts[..|counts|] == counts;
    r := Err(UncoveredRank);
  }

  predicate HasNegativeEvent(h: Histogram) {
    || (h.min.Some? && h.min.value < 0.0)
    || (h.sum.Some? && h.sum.value < 0.0)
    || exists i :: 0 <= i < |h.bounds| && i < |h.counts| && h.bounds[i] < 0.0 && h.counts[i] > 0
  }

  /** A recorded minimum or sum below zero, or a count in a bucket that ends below zero. */
  ghost predicate ShowsNegative(h: Histogram) {
    || (exists v :: h.min == Some(v) && v < 0.0)
    || (exists v :: h.sum == Some(v) && v < 0.0)
    || (exists i: nat :: i < |h.bounds| && h.bounds[i] < 0.0 && i < |h.counts| && h.counts[i] > 0)
  }

  /** A recorded minimum above an event or in an empty bucket, or a recorded maximum below an event or in an empty bucket. */
  ghost predicate ShowsContradiction(h: Histogram)
    requires Wellformed(h)
  {
    || (exists v, b :: h.min == Some(v) && 0 <= b <= |h.bounds| && InBucket(h.bounds, b, v) &&
          (h.counts[b] == 0 || exists i :: 0 <= i < b && h.counts[i] != 0))
    || (exists v, b :: h.max == Some(v) && 0 <= b <= |h.bounds| && InBucket(h.bounds, b, v) &&
          (h.counts[b] == 0 || exists i :: b < i < |h.counts| && h.counts[i] != 0))
  }

  lemma BucketIsUnique(bounds: seq<real>, b: int, v: real)
    requires forall i, j :: 0 <= i < j < |bounds| ==> bounds[i] < bounds[j]
    requires 0 <= b <= |bounds| && InBucket(bounds, b, v)
    ensures b == BisectLeft(bounds, v)
  {
    BucketsAscend(bounds, b, BisectLeft(bounds, v), v, v);
    BucketsAscend(bounds, BisectLeft(bounds, v), b, v, v);
  }

  lemma ContradictionIsFound(h: Histogram)
    requires Wellformed(h) && ShowsContradiction(h)
    ensures !ExtremaAgree(h)
  {
    hide BisectLeft;
    if v, b :| h.min == Some(v) && 0 <= b <= |h.bounds| && InBucket(h.bounds, b, v) &&
               (h.counts[b] == 0 || exists i :: 0 <= i < b && h.counts[i] != 0) {
      BucketIsUnique(h.bounds, b, v);
      if i :| 0 <= i < b && h.counts[i] != 0 {
        assert IsOccupied(h, i);
      }
    } else {
      var v, b :| h.max == Some(v) && 0 <= b <= |h.bounds| && InBucket(h.bounds, b, v) &&
                  (h.counts[b] == 0 || exists i :: b < i < |h.counts| && h.counts[i] != 0);
      BucketIsUnique(h.bounds, b, v);
      if i :| b < i < |h.counts| && h.counts[i] != 0 {
        assert IsOccupied(h, i);
      }
    }
  }

  predicate IsPoint(e: Estimate, v: real) {
    e == Estimate(Fin(v), Fin(v), false)
  }

  /** What an answer says: exact facts are points, and a rank statistic gets all it could be. */
  ghost predicate Answers(h: Histogram, agg: Aggregation, nonnegative: bool, e: Estimate)
    requires Wellformed(h)
  {
    if agg.Count? then IsPoint(e, h.count as real)
    else if agg.Mean? then h.sum.Some? && h.count > 0 && IsPoint(e, h.sum.value / h.count as real)
    else if agg.Min? && h.min.Some? then IsPoint(e, h.min.value)
    else if agg.Max? && h.max.Some? then IsPoint(e, h.max.value)
    else
      && Consistent(e)
      && exists i :: IsRankBucket(h.counts, Rank(agg, h.count), i) &&
           forall v :: Contains(e, v) <==> Feasible(h, i, nonnegative, v)
  }

  /** Why an estimate is refused, in the order of the checks. */
  ghost predicate Refused(h: Histogram, agg: Aggregation, nonnegative: bool, why: Refusal)
    requires Wellformed(h)
  {
    match why
    case ContradictoryExtrema => h.count > 0 && !ExtremaAgree(h)
    case NoEvents => !agg.Count? && h.count == 0
    case NegativeEvent => !agg.Count? && h.count > 0 && ExtremaAgree(h) && nonnegative && HasNegativeEvent(h)
    case MissingSum => agg.Mean? && h.count > 0 && ExtremaAgree(h) && h.sum.None?
    case InconsistentBounds =>
      && h.count > 0 && !agg.Count? && !agg.Mean?
      && forall i, v :: IsRankBucket(h.counts, Rank(agg, h.count), i) ==> !Feasible(h, i, nonnegative, v)
    case _ => false
  }

  method EstimateStatistic(h: Histogram, agg: Aggregation, nonnegative: bool) returns (r: Result<Estimate, Refusal>)
    requires Wellformed(h)
    ensures r.Ok? ==> Answers(h, agg, nonnegative, r.value)
    ensures r.Ok? ==> forall why: Refusal :: !why.InconsistentBounds? ==> !Refused(h, agg, nonnegative, why)
    ensures r.Err? ==> Refused(h, agg, nonnegative, r.error)
    ensures nonnegative && !agg.Count? && ShowsNegative(h) ==> r.Err?
    ensures h.count > 0 && ShowsContradiction(h) ==> r == Err(ContradictoryExtrema)
    ensures h.count == 0 && !agg.Count? ==> r == Err(NoEvents)
    ensures agg.Mean? && h.sum.None? ==> r.Err?
  {
    if h.count != 0 {
      if ShowsContradiction(h) {
        ContradictionIsFound(h);
      }
      var agree := ValidateExtrema(h);
      if !agree {
        return Err(ContradictoryExtrema);
      }
    }
    if agg.Count? {
      return MakeEstimate(Fin(h.count as real), Fin(h.count as real), false);
    }
    if h.count == 0 {
      return Err(NoEvents);
    }
    if nonnegative && HasNegativeEvent(h) {
      return Err(NegativeEvent);
    }
    if agg.Mean? {
      if h.sum.None? {
        return Err(MissingSum);
      }
      var mean := h.sum.value / h.count as real;
      return MakeEstimate(Fin(mean), Fin(mean), false);
    }
    r := RankEstimate(h, agg, nonnegative);
  }

  method RankEstimate(h: Histogram, agg: Aggregation, nonnegative: bool) returns (r: Result<Estimate, Refusal>)
    requires Wellformed(h) && h.count > 0 && !agg.Count? && !agg.Mean?
    ensures r.Ok? ==> Answers(h, agg, nonnegative, r.value)
    ensures r.Err? ==> r.error == InconsistentBounds && Refused(h, agg, nonnegative, InconsistentBounds)
  {
    if agg.Min? && h.min.Some? {
      return MakeEstimate(Fin(h.min.value), Fin(h.min.value), false);
    }
    if agg.Max? && h.max.Some? {
      return MakeEstimate(Fin(h.max.value), Fin(h.max.value), false);
    }
    RankIsPosition(agg, h.count);
    var bucket := RankBucket(h.counts, Rank(agg, h.count));
    r := BucketEstimate(h, bucket.value, nonnegative);
    forall i | IsRankBucket(h.counts, Rank(agg, h.count), i) ensures i == bucket.value {
      RankBucketIsUnique(h.counts, Rank(agg, h.count), i, bucket.value);
    }
  }

  lemma RankBucketIsUnique(counts: seq<int>, rank: int, i: int, j: int)
    requires forall k :: 0 <= k < |counts| ==> counts[k] >= 0
    requires IsRankBucket(counts, rank, i) && IsRankBucket(counts, rank, j)
    ensures i == j
  {
    if i < j {
      assert counts[..j][..i + 1] == counts[..i + 1];
      RunningTotalGrows(counts[..j], i + 1);
    } else if j < i {
      assert counts[..i][..j + 1] == counts[..j + 1];
      RunningTotalGrows(counts[..i], j + 1);
    }
  }

  // ---- Enclosure ------------------------------------------------------------

  lemma BucketOfEventIsOccupied(h: Histogram, events: seq<real>, j: nat, i: int)
    requires Wellformed(h) && Fits(h, events) && j < |events| && 0 <= i <= |h.bounds|
    requires InBucket(h.bounds, i, events[j])
    ensures IsOccupied(h, i)
  {
    RankLocatesBucket(h, events, j + 1, i);
    assert h.counts[..i + 1][..i] == h.counts[..i];
  }

  lemma OccupiedBucketHasEvent(h: Histogram, events: seq<real>, i: int) returns (j: nat)
    requires Wellformed(h) && Fits(h, events) && IsOccupied(h, i)
    ensures j < |events| && InBucket(h.bounds, i, events[j])
  {
    assert h.counts[..i + 1][..i] == h.counts[..i];
    RunningTotalGrows(h.counts, i + 1);
    RunningTotalGrows(h.counts[..i + 1], i);
    j := Total(h.counts[..i]);
    RankLocatesBucket(h, events, j + 1, i);
  }

  lemma BucketsAscend(bounds: seq<real>, i: int, j: int, v: real, w: real)
    requires forall a, b :: 0 <= a < b < |bounds| ==> bounds[a] < bounds[b]
    requires 0 <= i <= |bounds| && 0 <= j <= |bounds| && InBucket(bounds, i, v) && InBucket(bounds, j, w) && v <= w
    ensures i <= j
  {
  }

  /** The least event is in the lowest occupied bucket. */
  lemma LeastIsLowest(h: Histogram, events: seq<real>)
    requires Wellformed(h) && Fits(h, events) && events != []
    ensures var b := BisectLeft(h.bounds, events[0]);
            IsOccupied(h, b) && forall i :: IsOccupied(h, i) ==> b <= i
  {
    var b := BisectLeft(h.bounds, events[0]);
    BucketOfEventIsOccupied(h, events, 0, b);
    forall i | IsOccupied(h, i) ensures b <= i {
      var j := OccupiedBucketHasEvent(h, events, i);
      EventsAscend(h, events, 0, j);
      hide Fits;
      BucketsAscend(h.bounds, b, i, events[0], events[j]);
    }
  }

  /** The greatest event is in the highest occupied bucket. */
  lemma GreatestIsHighest(h: Histogram, events: seq<real>)
    requires Wellformed(h) && Fits(h, events) && events != []
    ensures var b := BisectLeft(h.bounds, events[|events| - 1]);
            IsOccupied(h, b) && forall i :: IsOccupied(h, i) ==> i <= b
  {
    var last := events[|events| - 1];
    var b := BisectLeft(h.bounds, last);
    BucketOfEventIsOccupied(h, events, |events| - 1, b);
    forall i | IsOccupied(h, i) ensures i <= b {
      var j := OccupiedBucketHasEvent(h, events, i);
      EventsAscend(h, events, j, |events| - 1);
      hide Fits;
      BucketsAscend(h.bounds, i, b, events[j], last);
    }
  }

  lemma EventsAscend(h: Histogram, events: seq<real>, i: nat, j: nat)
    requires Wellformed(h) && Fits(h, events) && i <= j < |events|
    ensures events[i] <= events[j]
  {
    hide Wellformed;
  }

  lemma ConsistentExtremaAgree(h: Histogram, events: seq<real>)
    requires Wellformed(h) && Fits(h, events) && events != []
    ensures ExtremaAgree(h)
  {
    LeastIsLowest(h, events);
    GreatestIsHighest(h, events);
    hide IsOccupied;
  }

  lemma {:induction false} SumOfNonnegative(events: seq<real>)
    requires Nonnegative(events)
    ensures Sum(events) >= 0.0
  {
    if events != [] {
      SumOfNonnegative(events[..|events| - 1]);
    }
  }

  lemma NonnegativeEventsShow(h: Histogram, events: seq<real>)
    requires Wellformed(h) && Fits(h, events) && events != [] && Nonnegative(events)
    ensures !HasNegativeEvent(h)
  {
    SumOfNonnegative(events);
    forall i | 0 <= i < |h.bounds| && h.counts[i] > 0 ensures h.bounds[i] >= 0.0 {
      var j := OccupiedBucketHasEvent(h, events, i);
    }
  }

  /** A nonempty event set the histogram may stand for, with the sum recorded if the mean is asked. */
  ghost predicate Explains(h: Histogram, events: seq<real>, agg: Aggregation, nonnegative: bool)
    requires Wellformed(h)
  {
    && Fits(h, events) && events != []
    && (nonnegative ==> Nonnegative(events))
    && (agg.Mean? ==> h.sum.Some?)
  }

  /** Each event lies between the recorded extrema, and in the declared domain. */
  lemma EventIsInRange(h: Histogram, events: seq<real>, nonnegative: bool, j: nat)
    requires Wellformed(h) && Fits(h, events) && j < |events| && (nonnegative ==> Nonnegative(events))
    ensures (nonnegative ==> events[j] >= 0.0) && (h.min.Some? ==> h.min.value <= events[j]) && (h.max.Some? ==> events[j] <= h.max.value)
  {
    EventsAscend(h, events, 0, j);
    EventsAscend(h, events, j, |events| - 1);
    hide Sorted, Wellformed;
  }

  lemma RankStatisticIsFeasible(h: Histogram, events: seq<real>, agg: Aggregation, nonnegative: bool) returns (i: int)
    requires Wellformed(h) && Explains(h, events, agg, nonnegative)
    requires !agg.Count? && !agg.Mean?
    ensures IsRankBucket(h.counts, Rank(agg, h.count), i) && Feasible(h, i, nonnegative, Statistic(events, agg))
    ensures forall k :: IsRankBucket(h.counts, Rank(agg, h.count), k) ==> k == i
  {
    RankIsPosition(agg, h.count);
    var rank := Rank(agg, h.count);
    var v := events[rank - 1];
    assert Statistic(events, agg) == v;
    hide Rank, Statistic;
    EventIsInRange(h, events, nonnegative, rank - 1);
    i := BisectLeft(h.bounds, v);
    RankLocatesBucket(h, events, rank, i);
    hide Fits, BisectLeft;
    forall k | IsRankBucket(h.counts, rank, k) ensures k == i {
      RankBucketIsUnique(h.counts, rank, k, i);
    }
  }

  lemma NothingIsRefused(h: Histogram, events: seq<real>, agg: Aggregation, nonnegative: bool)
    requires Wellformed(h) && Explains(h, events, agg, nonnegative)
    ensures forall why :: !Refused(h, agg, nonnegative, why)
  {
    ConsistentExtremaAgree(h, events);
    if nonnegative {
      NonnegativeEventsShow(h, events);
    }
    if !agg.Count? && !agg.Mean? {
      var i := RankStatisticIsFeasible(h, events, agg, nonnegative);
    }
    hide ExtremaAgree, Feasible, HasNegativeEvent, Statistic, Rank;
  }

  lemma AnswersEnclose(h: Histogram, events: seq<real>, agg: Aggregation, nonnegative: bool, e: Estimate)
    requires Wellformed(h) && Explains(h, events, agg, nonnegative) && Answers(h, agg, nonnegative, e)
    ensures Consistent(e) && Contains(e, Statistic(events, agg))
  {
    if !agg.Count? && !agg.Mean? {
      var i := RankStatisticIsFeasible(h, events, agg, nonnegative);
    }
    hide IsRankBucket, BisectLeft, Total;
  }

  /**
   Every event set the histogram fits is covered: the estimator does not
   refuse, and every answer it may give contains the true statistic.
   */
  lemma EstimateEncloses(h: Histogram, events: seq<real>, agg: Aggregation, nonnegative: bool)
    requires Wellformed(h) && Explains(h, events, agg, nonnegative)
    ensures forall why :: !Refused(h, agg, nonnegative, why)
    ensures forall e :: Answers(h, agg, nonnegative, e) ==> Consistent(e) && Contains(e, Statistic(events, agg))
  {
    NothingIsRefused(h, events, agg, nonnegative);
    hide Refused, Answers, Explains, Wellformed, Contains, Statistic, Consistent;
    forall e | Answers(h, agg, nonnegative, e) ensures Consistent(e) && Contains(e, Statistic(events, agg)) {
      AnswersEnclose(h, events, agg, nonnegative, e);
    }
  }

  /** A threshold verdict on the estimate is true of every event set the histogram fits. */
  method Judge(h: Histogram, agg: Aggregation, nonnegative: bool, op: Operator, threshold: real)
    returns (verdict: Result<Comparison, Refusal>)
    requires Wellformed(h)
    ensures forall events :: Explains(h, events, agg, nonnegative) ==>
              && verdict.Ok?
              && (verdict.value.Passed? ==> Satisfies(op, Fin(Statistic(events, agg)), threshold))
              && (verdict.value.Failed? ==> !Satisfies(op, Fin(Statistic(events, agg)), threshold))
  {
    var estimate := EstimateStatistic(h, agg, nonnegative);
    forall events | Explains(h, events, agg, nonnegative)
      ensures estimate.Ok? && Consistent(estimate.value) && Contains(estimate.value, Statistic(events, agg))
    {
      EstimateEncloses(h, events, agg, nonnegative);
    }
    if estimate.Err? {
      return Err(estimate.error);
    }
    verdict := Compare(estimate.value, op, Fin(threshold));
    forall events | Explains(h, events, agg, nonnegative)
      ensures verdict.Ok?
      ensures verdict.value.Passed? ==> Satisfies(op, Fin(Statistic(events, agg)), threshold)
      ensures verdict.value.Failed? ==> !Satisfies(op, Fin(Statistic(events, agg)), threshold)
    {
      assert Contains(estimate.value, Statistic(events, agg));
      CompareIsExact(estimate.value, op, threshold);
    }
  }
}
