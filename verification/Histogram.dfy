/** The latency histogram of the benchmarks: geometric buckets against true order statistics, over the reals. */
module Histogram {
  import opened Basics

  const MAX_SAFE_INTEGER: nat := 9_007_199_254_740_991

  // ---------------------------------------------------------------- order statistics

  function Insert(x: real, sorted: seq<real>): seq<real> {
    if sorted == [] || x <= sorted[0] then [x] + sorted else [sorted[0]] + Insert(x, sorted[1..])
  }

  function Sorted(samples: seq<real>): (s: seq<real>)
    ensures |s| == |samples|
  {
    if samples == [] then []
    else
      InsertLength(samples[|samples| - 1], Sorted(samples[..|samples| - 1]));
      Insert(samples[|samples| - 1], Sorted(samples[..|samples| - 1]))
  }

  lemma {:induction false} InsertLength(x: real, sorted: seq<real>)
    ensures |Insert(x, sorted)| == |sorted| + 1
  {
    if sorted != [] && x > sorted[0] {
      InsertLength(x, sorted[1..]);
    }
  }

  /** The nearest-rank sample: the `rank`-th smallest of all recorded values. */
  function NearestRank(samples: seq<real>, rank: nat): real
    requires 1 <= rank <= |samples|
  {
    Sorted(samples)[rank - 1]
  }

  function CountAtMost(samples: seq<real>, v: real): (n: nat)
    ensures n <= |samples|
  {
    if samples == [] then 0
    else CountAtMost(samples[..|samples| - 1], v) + if samples[|samples| - 1] <= v then 1 else 0
  }

  ghost predicate Ascending(q: seq<real>) {
    forall i, j :: 0 <= i < j < |q| ==> q[i] <= q[j]
  }

  function CountFront(q: seq<real>, v: real): nat {
    if q == [] then 0 else (if q[0] <= v then 1 else 0) + CountFront(q[1..], v)
  }

  lemma {:induction false} InsertSorts(x: real, q: seq<real>, v: real)
    requires Ascending(q)
    ensures Ascending(Insert(x, q)) && CountFront(Insert(x, q), v) == CountFront(q, v) + if x <= v then 1 else 0
    ensures forall y :: y in Insert(x, q) <==> y == x || y in q
  {
    if q == [] || x <= q[0] {
      assert ([x] + q)[1..] == q;
    } else {
      InsertSorts(x, q[1..], v);
      assert Insert(x, q)[1..] == Insert(x, q[1..]);
      forall j | 1 <= j < |Insert(x, q)| ensures q[0] <= Insert(x, q)[j] {
        assert Insert(x, q)[j] in Insert(x, q[1..]);
      }
    }
  }

  lemma {:induction false} SortedCounts(samples: seq<real>, v: real)
    ensures Ascending(Sorted(samples)) && CountFront(Sorted(samples), v) == CountAtMost(samples, v)
    ensures forall y :: y in Sorted(samples) <==> y in samples
  {
    hide Insert;
    if samples != [] {
      var init, last := samples[..|samples| - 1], samples[|samples| - 1];
      SortedCounts(init, v);
      InsertSorts(last, Sorted(init), v);
      assert samples == init + [last];
    }
  }

  lemma {:induction false} AscendingCount(q: seq<real>, v: real, rank: nat)
    requires Ascending(q) && 1 <= rank <= |q|
    ensures CountFront(q, v) >= rank <==> q[rank - 1] <= v
  {
    if q[0] > v {
      NoneAtMost(q, v);
    } else if rank > 1 {
      AscendingCount(q[1..], v, rank - 1);
    }
  }

  lemma {:induction false} NoneAtMost(q: seq<real>, v: real)
    requires Ascending(q) && (q != [] ==> q[0] > v)
    ensures CountFront(q, v) == 0
  {
    if q != [] {
      NoneAtMost(q[1..], v);
    }
  }

  /** At least `rank` samples are at most `v` exactly when the nearest-rank sample is. */
  lemma RankByCount(samples: seq<real>, rank: nat, v: real)
    requires 1 <= rank <= |samples|
    ensures CountAtMost(samples, v) >= rank <==> NearestRank(samples, rank) <= v
    ensures NearestRank(samples, rank) in samples
  {
    SortedCounts(samples, v);
    AscendingCount(Sorted(samples), v, rank);
  }

  // ---------------------------------------------------------------- the bucket bounds

  /** A value and its relative margin. */
  function Grown(x: real, precision: real): real {
    x * (1.0 + precision)
  }

  ghost predicate Geometric(bounds: seq<real>, floorMs: real, precision: real, maxMs: real) {
    && |bounds| >= 2 && bounds[0] == 0.0 && bounds[1] == floorMs
    && (forall i :: 0 <= i < |bounds| - 1 ==> bounds[i] < bounds[i + 1])
    && (forall i :: 1 <= i < |bounds| - 1 ==> bounds[i + 1] <= Grown(bounds[i], precision))
  }

  lemma {:induction false} BoundsRise(bounds: seq<real>, i: nat, j: nat)
    requires i <= j < |bounds| && forall k :: 0 <= k < |bounds| - 1 ==> bounds[k] < bounds[k + 1]
    ensures bounds[i] <= bounds[j] && (i < j ==> bounds[i] < bounds[j])
    decreases j
  {
    if i < j {
      BoundsRise(bounds, i, j - 1);
    }
  }

  function Total(buckets: seq<nat>): nat {
    if buckets == [] then 0 else Total(buckets[..|buckets| - 1]) + buckets[|buckets| - 1]
  }

  lemma {:induction false} TotalAfterIncrement(before: seq<nat>, after: seq<nat>, at: nat, n: nat)
    requires |before| == |after| && at < |before| && n <= |before| && after == before[at := before[at] + 1]
    ensures Total(after[..n]) == Total(before[..n]) + if at < n then 1 else 0
    decreases n
  {
    if n > 0 {
      TotalAfterIncrement(before, after, at, n - 1);
      assert after[..n][..n - 1] == after[..n - 1] && before[..n][..n - 1] == before[..n - 1];
    }
  }

  datatype Percentile = Invalid | Unavailable | Value(ms: real)

  function Min(a: real, b: real): real {
    if a <= b then a else b
  }

  function Max(a: real, b: real): real {
    if a >= b then a else b
  }

  function Sum(samples: seq<real>): real {
    if samples == [] then 0.0 else Sum(samples[..|samples| - 1]) + samples[|samples| - 1]
  }

  predicate NonNegative(samples: seq<real>) {
    forall x :: x in samples ==> x >= 0.0
  }

  lemma GreatestGrows(samples: seq<real>, m: real, value: real)
    requires Greatest(samples, m) && NonNegative(samples) && value >= 0.0
    ensures Greatest(samples + [value], Max(m, value)) && NonNegative(samples + [value])
  {
  }

  predicate Greatest(samples: seq<real>, m: real) {
    (forall x :: x in samples ==> x <= m) && if samples == [] then m == 0.0 else m in samples
  }

  function RankOf(percentile: real, count: nat): int {
    Ceil(percentile / 100.0 * count as real)
  }

  lemma RankInRange(percentile: real, count: nat)
    requires 0.0 < percentile <= 100.0 && count > 0
    ensures 1 <= RankOf(percentile, count) <= count
  {
    var share, c := percentile / 100.0, count as real;
    assert 0.0 < share <= 1.0 && c > 0.0;
    Shrinks(share, c);
  }

  lemma Shrinks(share: real, c: real)
    requires 0.0 < share <= 1.0 && c > 0.0
    ensures 0.0 < share * c <= c
  {
    assert (1.0 - share) * c >= 0.0;
  }

  // ---------------------------------------------------------------- buckets that count samples

  function UpTo(buckets: seq<nat>, i: nat): nat
    requires i < |buckets|
  {
    Total(buckets[..i + 1])
  }

  /** The buckets up to each bound hold exactly the samples at most that bound. */
  ghost predicate Tallied(buckets: seq<nat>, bounds: seq<real>, samples: seq<real>) {
    |buckets| == |bounds| && forall i :: 0 <= i < |bounds| ==> UpTo(buckets, i) == CountAtMost(samples, bounds[i])
  }

  lemma TalliesNothing(buckets: seq<nat>, bounds: seq<real>)
    requires |buckets| == |bounds| && forall i :: 0 <= i < |buckets| ==> buckets[i] == 0
    ensures Tallied(buckets, bounds, [])
  {
    forall i | 0 <= i < |bounds| ensures UpTo(buckets, i) == 0 {
      TotalZero(buckets[..i + 1]);
    }
  }

  lemma TallyAt(before: seq<nat>, bounds: seq<real>, samples: seq<real>, value: real, low: nat, i: nat)
    requires Tallied(before, bounds, samples) && low < |bounds| && i < |bounds|
    requires i < low ==> bounds[i] < value
    requires i >= low ==> bounds[i] >= value
    ensures UpTo(before[low := before[low] + 1], i) == CountAtMost(samples + [value], bounds[i])
  {
    hide CountAtMost, Total;
    TotalAfterIncrement(before, before[low := before[low] + 1], low, i + 1);
    OneMore(samples, value, bounds[i]);
    assert UpTo(before, i) == CountAtMost(samples, bounds[i]);
  }

  lemma TalliesOne(before: seq<nat>, bounds: seq<real>, samples: seq<real>, value: real, low: nat)
    requires Tallied(before, bounds, samples) && low < |bounds|
    requires forall i :: 0 <= i < |bounds| - 1 ==> bounds[i] < bounds[i + 1]
    requires bounds[low] >= value && (low > 0 ==> bounds[low - 1] < value)
    ensures Tallied(before[low := before[low] + 1], bounds, samples + [value])
  {
    hide CountAtMost, UpTo;
    var after := before[low := before[low] + 1];
    forall i | 0 <= i < |bounds| ensures UpTo(after, i) == CountAtMost(samples + [value], bounds[i]) {
      if i < low {
        BoundsRise(bounds, i, low - 1);
      } else {
        BoundsRise(bounds, low, i);
      }
      TallyAt(before, bounds, samples, value, low, i);
    }
  }

  lemma TalliesBeyond(buckets: seq<nat>, bounds: seq<real>, samples: seq<real>, value: real)
    requires Tallied(buckets, bounds, samples) && bounds != [] && value > bounds[|bounds| - 1]
    requires forall i :: 0 <= i < |bounds| - 1 ==> bounds[i] < bounds[i + 1]
    ensures Tallied(buckets, bounds, samples + [value])
  {
    forall i | 0 <= i < |bounds| ensures UpTo(buckets, i) == CountAtMost(samples + [value], bounds[i]) {
      OneMore(samples, value, bounds[i]);
      assert UpTo(buckets, i) == CountAtMost(samples, bounds[i]);
      BoundsRise(bounds, i, |bounds| - 1);
    }
  }

  lemma OneMore(samples: seq<real>, value: real, v: real)
    ensures CountAtMost(samples + [value], v) == CountAtMost(samples, v) + if value <= v then 1 else 0
  {
    assert (samples + [value])[..|samples|] == samples;
  }

  lemma SumGrows(samples: seq<real>, value: real)
    ensures Sum(samples + [value]) == Sum(samples) + value
  {
    assert (samples + [value])[..|samples|] == samples;
  }

  class LatencyHistogram {
    const floorMs: real
    const relativePrecision: real
    const maxMs: real
    var bounds: seq<real>
    const buckets: array<nat>
    var count: nat
    var sum: real
    var max: real
    var overflowCount: nat
    ghost var samples: seq<real>

    ghost predicate Valid()
      reads this, buckets
    {
      && floorMs > 0.0 && 0.0 < relativePrecision <= 1.0 && maxMs >= floorMs
      && Geometric(bounds, floorMs, relativePrecision, maxMs) && bounds[|bounds| - 1] == maxMs
      && buckets.Length == |bounds|
      && count == |samples| <= MAX_SAFE_INTEGER && sum == Sum(samples) && Greatest(samples, max)
      && NonNegative(samples)
      && overflowCount + CountAtMost(samples, maxMs) == count
      && Tallied(buckets[..], bounds, samples)
    }

    /** The bounds loop ends because each new bound is at least a fixed step above the last. */
    constructor (floorMs: real, relativePrecision: real, maxMs: real)
      requires floorMs > 0.0 && 0.0 < relativePrecision <= 1.0 && maxMs >= floorMs
      ensures Valid() && samples == [] && fresh(buckets)
      ensures this.floorMs == floorMs && this.relativePrecision == relativePrecision && this.maxMs == maxMs
    {
      this.floorMs, this.relativePrecision, this.maxMs := floorMs, relativePrecision, maxMs;
      var built := BuildBounds(floorMs, relativePrecision, maxMs);
      bounds := built;
      buckets := new nat[|built|](_ => 0);
      count, sum, max, overflowCount, samples := 0, 0.0, 0.0, 0, [];
      new;
      TalliesNothing(buckets[..], bounds);
    }

    static method BuildBounds(floorMs: real, precision: real, maxMs: real) returns (bounds: seq<real>)
      requires floorMs > 0.0 && 0.0 < precision <= 1.0 && maxMs >= floorMs
      ensures Geometric(bounds, floorMs, precision, maxMs) && bounds[|bounds| - 1] == maxMs
    {
      hide Grown;
      bounds := [0.0, floorMs];
      ghost var step := FirstStep(floorMs, precision);
      ghost var left := EnoughSteps(maxMs - floorMs, step);
      while bounds[|bounds| - 1] < maxMs
        invariant Geometric(bounds, floorMs, precision, maxMs) && floorMs <= bounds[|bounds| - 1] <= maxMs
        invariant maxMs - bounds[|bounds| - 1] <= Steps(left, step)
        decreases left
      {
        ghost var last := bounds[|bounds| - 1];
        StepAhead(last, floorMs, precision);
        OneStep(left, step);
        bounds := bounds + [Min(maxMs, Grown(bounds[|bounds| - 1], precision))];
        left := if left > 0 then left - 1 else 0;
      }
    }

    /** Out-of-range values and a full count are refused; every other value lands in the first bucket
        whose bound reaches it, or in the overflow. */
    method Record(value: real) returns (ok: bool)
      requires Valid()
      modifies this, buckets
      ensures Valid() && bounds == old(bounds)
      ensures ok == (value >= 0.0 && old(count) < MAX_SAFE_INTEGER)
      ensures samples == if ok then old(samples) + [value] else old(samples)
    {
      hide Geometric, Sum, CountAtMost, Tallied, Greatest, NonNegative, Max;
      if value < 0.0 || count == MAX_SAFE_INTEGER {
        return false;
      }
      GreatestGrows(samples, max, value);
      SumGrows(samples, value);
      Place(value);
      count, sum, max := count + 1, sum + value, Max(max, value);
      samples := samples + [value];
      ok := true;
    }

    method Place(value: real)
      requires Valid()
      modifies `overflowCount, buckets
      ensures Tallied(buckets[..], bounds, samples + [value])
      ensures overflowCount + CountAtMost(samples + [value], maxMs) == count + 1
    {
      hide Geometric, Sum, CountAtMost, Tallied, Greatest, NonNegative;
      RisesAt(bounds, floorMs, relativePrecision, maxMs);
      OneMore(samples, value, maxMs);
      if value > maxMs {
        TalliesBeyond(buckets[..], bounds, samples, value);
        overflowCount := overflowCount + 1;
      } else {
        var low := FindBucket(value);
        TalliesOne(buckets[..], bounds, samples, value, low);
        Bump(low);
      }
    }

    method Bump(low: nat)
      requires low < buckets.Length
      modifies buckets
      ensures buckets[..] == old(buckets[..])[low := old(buckets[low]) + 1]
    {
      buckets[low] := buckets[low] + 1;
    }

    method FindBucket(value: real) returns (low: nat)
      requires Geometric(bounds, floorMs, relativePrecision, maxMs) && value <= bounds[|bounds| - 1]
      ensures low < |bounds| && bounds[low] >= value && (low > 0 ==> bounds[low - 1] < value)
    {
      var high: nat := |bounds| - 1;
      low := 0;
      while low < high
        invariant low <= high < |bounds| && bounds[high] >= value && (low > 0 ==> bounds[low - 1] < value)
      {
        var middle := (low + high) / 2;
        if bounds[middle] >= value {
          high := middle;
        } else {
          low := middle + 1;
        }
      }
    }

    /** Against the true nearest-rank sample s: no value exactly when nothing was recorded or s lies above
        the tracked range; otherwise an upper bound of s that is exact at zero, within the floor below
        it, and within the relative precision above it. */
    method AtPercentile(percentile: real) returns (r: Percentile)
      requires Valid()
      ensures r.Invalid? <==> !(0.0 < percentile <= 100.0)
      ensures !r.Invalid? && count == 0 ==> r == Unavailable
      ensures !r.Invalid? && count > 0 ==>
                var rank := RankOf(percentile, count);
                1 <= rank <= |samples| && Brackets(NearestRank(samples, rank), r)
    {
      hide RankOf, NearestRank, CountAtMost, Grown, Total, Sum;
      if percentile <= 0.0 || percentile > 100.0 {
        return Invalid;
      }
      if count == 0 {
        return Unavailable;
      }
      RankInRange(percentile, count);
      var rank := RankOf(percentile, count);
      ghost var s := NearestRank(samples, rank);
      var cumulative := 0;
      NoTotal(buckets[..0]);
      for i := 0 to buckets.Length
        invariant cumulative == Total(buckets[..i])
        invariant forall k :: 0 <= k < i ==> bounds[k] < s
      {
        NextTotal(buckets[..], i);
        assert buckets[..][..i] == buckets[..i] && buckets[..][i] == buckets[i];
        cumulative := cumulative + buckets[i];
        assert cumulative == UpTo(buckets[..], i) == CountAtMost(samples, bounds[i]);
        RankByCount(samples, rank, bounds[i]);
        if cumulative >= rank {
          BracketsAt(i, s);
          return Value(Min(bounds[i], max));
        }
      }
      r := Unavailable;
    }

    ghost predicate Brackets(s: real, r: Percentile)
      reads this
    {
      match r
      case Invalid => false
      case Unavailable => s > maxMs
      case Value(v) =>
        && s <= maxMs && s <= v && (s == 0.0 ==> v == 0.0) && (0.0 < s <= floorMs ==> v <= floorMs)
        && (s > floorMs ==> v <= Grown(s, relativePrecision))
    }

    lemma BracketsAt(i: nat, s: real)
      requires Valid() && i < |bounds| && s in samples && s <= bounds[i] && (i > 0 ==> bounds[i - 1] < s)
      ensures Brackets(s, Value(Min(bounds[i], max)))
    {
      hide CountAtMost, Grown, Total, Sum, Tallied;
      BoundsRise(bounds, i, |bounds| - 1);
      if i > 1 {
        BoundsRise(bounds, 1, i - 1);
        var before := i - 1;
        assert bounds[before + 1] <= Grown(bounds[before], relativePrecision);
        GrownRises(bounds[i - 1], s, relativePrecision);
      } else if i == 1 && s > floorMs {
        assert false;
      }
    }
  }

  lemma NoTotal(buckets: seq<nat>)
    requires buckets == []
    ensures Total(buckets) == 0
  {
  }

  lemma NextTotal(buckets: seq<nat>, i: nat)
    requires i < |buckets|
    ensures UpTo(buckets, i) == Total(buckets[..i]) + buckets[i]
  {
    assert buckets[..i + 1][..i] == buckets[..i];
  }

  lemma RisesAt(bounds: seq<real>, floorMs: real, precision: real, maxMs: real)
    requires Geometric(bounds, floorMs, precision, maxMs)
    ensures forall i :: 0 <= i < |bounds| - 1 ==> bounds[i] < bounds[i + 1]
    ensures |bounds| >= 2
  {
  }

  lemma GrownRises(a: real, b: real, precision: real)
    requires a < b && precision > 0.0
    ensures Grown(a, precision) <= Grown(b, precision)
  {
    assert (b - a) * (1.0 + precision) >= 0.0;
  }

  lemma {:induction false} TotalZero(buckets: seq<nat>)
    requires forall i :: 0 <= i < |buckets| ==> buckets[i] == 0
    ensures Total(buckets) == 0
  {
    if buckets != [] {
      TotalZero(buckets[..|buckets| - 1]);
    }
  }

  // ---------------------------------------------------------------- the bounds loop ends

  ghost function FirstStep(floorMs: real, precision: real): (step: real)
    requires floorMs > 0.0 && precision > 0.0
    ensures step > 0.0
  {
    floorMs * precision
  }

  ghost function Steps(n: nat, step: real): real {
    n as real * step
  }

  lemma OneStep(n: nat, step: real)
    ensures n > 0 ==> Steps(n, step) == Steps(n - 1, step) + step
    ensures n == 0 ==> Steps(n, step) == 0.0
  {
    if n > 0 {
      Distributes((n - 1) as real, step);
    }
  }

  lemma Distributes(a: real, step: real)
    ensures (a + 1.0) * step == a * step + step
  {
  }

  lemma EnoughSteps(gap: real, step: real) returns (n: nat)
    requires gap >= 0.0 && step > 0.0
    ensures gap <= Steps(n, step)
  {
    var q := gap / step;
    assert q * step == gap;
    NotNegative(q, step);
    n := q.Floor + 1;
    Larger(q, n as real, step);
  }

  lemma NotNegative(q: real, step: real)
    requires q * step >= 0.0 && step > 0.0
    ensures q >= 0.0
  {
  }

  lemma Larger(a: real, b: real, step: real)
    requires a <= b && step > 0.0
    ensures a * step <= b * step
  {
    assert (b - a) * step >= 0.0;
  }

  lemma StepAhead(last: real, floorMs: real, precision: real)
    requires floorMs > 0.0 && precision > 0.0 && floorMs <= last
    ensures Grown(last, precision) >= last + FirstStep(floorMs, precision)
  {
    assert (last - floorMs) * precision >= 0.0;
  }
}
