/** Largest-Triangle-Three-Buckets downsampling (`lttb_downsample_impl`,
    wasm/src/lib.rs). The interior indices 1..len-2 are cut into
    threshold-2 buckets whose boundaries are floor(i*b + 1) with
    b = (len-2)/(threshold-2); from each bucket the point making the largest
    triangle with the previously kept point and the centroid of the next
    bucket is kept. */
module Downsample {
  import opened ChartTypes

  /** The case in which the algorithm actually reduces the series. */
  predicate Reduces(len: nat, threshold: nat) {
    3 <= threshold < len
  }

  /** `bucket_size`: when reducing it exceeds 1 and the threshold-2 buckets
      exactly cover the len-2 interior points. */
  function BucketSize(len: nat, threshold: nat): (b: real)
    requires Reduces(len, threshold)
    ensures b > 1.0
    ensures (threshold - 2) as real * b == (len - 2) as real
  {
    (len - 2) as real / (threshold - 2) as real
  }

  /** Boundary number i, `floor(i * bucket_size + 1)`. Bucket i is
      [Edge(i), min(Edge(i+1), len)). */
  function Edge(len: nat, threshold: nat, i: nat): int
    requires Reduces(len, threshold)
  {
    (i as real * BucketSize(len, threshold) + 1.0).Floor
  }

  lemma ScaleBucket(i: nat, j: nat, b: real)
    requires i <= j && b > 1.0
    ensures i as real * b <= j as real * b
    ensures i < j ==> i as real * b + 1.0 < j as real * b
    ensures i as real <= i as real * b
  {
    assert j as real * b - i as real * b == (j - i) as real * b;
    assert i as real * b - i as real == i as real * (b - 1.0);
  }

  /** The boundaries are strictly increasing, the first interior boundary is
      at least 1, every boundary of an interior bucket stays inside the
      series, the last interior bucket ends at len-1 and the boundary after
      it is past the end. */
  lemma EdgeFacts(len: nat, threshold: nat, i: nat)
    requires Reduces(len, threshold) && i <= threshold - 2
    ensures i + 1 <= Edge(len, threshold, i) <= len - 1
    ensures i == threshold - 2 ==> Edge(len, threshold, i) == len - 1
    ensures Edge(len, threshold, i) < Edge(len, threshold, i + 1)
    ensures i == threshold - 2 ==> Edge(len, threshold, i + 1) >= len
  {
    var b := BucketSize(len, threshold);
    var x := i as real * b + 1.0;
    var y := (i + 1) as real * b + 1.0;
    assert Edge(len, threshold, i) == x.Floor && Edge(len, threshold, i + 1) == y.Floor;
    EdgeArith(i, threshold - 2, len, b);
    FloorWithin(x, i + 1, len - 1);
    FloorStep(x, y);
    if i == threshold - 2 {
      LastEdgeArith(i, len, b);
      FloorWithin(x, len - 1, len - 1);
      FloorAtLeast(y, len);
    }
  }

  /** The real-number facts behind EdgeFacts, for a bucket size b > 1 with
      m buckets covering len - 2 points. */
  lemma EdgeArith(i: nat, m: nat, len: nat, b: real)
    requires i <= m && b > 1.0 && len >= 2 && m as real * b == (len - 2) as real
    ensures (i + 1) as real <= i as real * b + 1.0 <= (len - 1) as real
    ensures i as real * b + 1.0 + 1.0 < (i + 1) as real * b + 1.0
  {
    ScaleBucket(i, m, b);
    ScaleBucket(i, i + 1, b);
  }

  /** The boundary after the last bucket lies past len - 1. */
  lemma LastEdgeArith(m: nat, len: nat, b: real)
    requires b > 1.0 && len >= 2 && m as real * b == (len - 2) as real
    ensures (m + 1) as real * b + 1.0 > len as real
  {
    ScaleBucket(m, m + 1, b);
  }

  lemma FloorWithin(x: real, lo: int, hi: int)
    requires lo as real <= x < (hi + 1) as real
    ensures lo <= x.Floor <= hi
  {}

  lemma FloorStep(x: real, y: real)
    requires x + 1.0 < y
    ensures x.Floor < y.Floor
  {}

  lemma FloorAtLeast(x: real, n: int)
    requires n as real <= x
    ensures n <= x.Floor
  {}

  /** Sum of timestamps over data[lo..hi], accumulated left to right. */
  function SumTs(data: seq<DataPoint>, lo: nat, hi: nat): real
    requires lo <= hi <= |data|
    decreases hi
  {
    if lo == hi then 0.0 else SumTs(data, lo, hi - 1) + data[hi - 1].ts
  }

  /** Sum of values over data[lo..hi], accumulated left to right. */
  function SumValue(data: seq<DataPoint>, lo: nat, hi: nat): real
    requires lo <= hi <= |data|
    decreases hi
  {
    if lo == hi then 0.0 else SumValue(data, lo, hi - 1) + data[hi - 1].value
  }

  /** Doubled triangle area (magnitude) of prev, the candidate p and the
      centroid (avgTs, avgValue). */
  function Area(prev: DataPoint, avgTs: real, avgValue: real, p: DataPoint): (a: real)
    ensures a >= 0.0
  {
    Abs((prev.ts - avgTs) * (p.value - prev.value) - (prev.ts - p.ts) * (avgValue - prev.value))
  }

  /** Index of the largest triangle area in data[lo..hi], scanning from the
      right so that an earlier index wins every tie. */
  function FirstMaxArea(data: seq<DataPoint>, lo: nat, hi: nat, prev: DataPoint, avgTs: real, avgValue: real): (k: nat)
    requires lo < hi <= |data|
    ensures lo <= k < hi
    decreases hi - lo
  {
    if lo + 1 == hi then lo
    else
      var k := FirstMaxArea(data, lo + 1, hi, prev, avgTs, avgValue);
      if Area(prev, avgTs, avgValue, data[lo]) >= Area(prev, avgTs, avgValue, data[k]) then lo else k
  }

  /** `k` is the first index of data[lo..hi] at which the area is largest. */
  ghost predicate IsFirstMax(data: seq<DataPoint>, lo: nat, hi: nat, prev: DataPoint, avgTs: real, avgValue: real, k: nat)
    requires lo <= hi <= |data|
  {
    && lo <= k < hi
    && (forall j :: lo <= j < hi ==> Area(prev, avgTs, avgValue, data[j]) <= Area(prev, avgTs, avgValue, data[k]))
    && (forall j :: lo <= j < k ==> Area(prev, avgTs, avgValue, data[j]) < Area(prev, avgTs, avgValue, data[k]))
  }

  /** FirstMaxArea finds the largest area and, among equal largest areas, the
      earliest index. */
  lemma {:induction false} FirstMaxAreaIsFirstMax(data: seq<DataPoint>, lo: nat, hi: nat, prev: DataPoint, avgTs: real, avgValue: real)
    requires lo < hi <= |data|
    ensures IsFirstMax(data, lo, hi, prev, avgTs, avgValue, FirstMaxArea(data, lo, hi, prev, avgTs, avgValue))
    decreases hi - lo
  {
    if lo + 1 < hi {
      FirstMaxAreaIsFirstMax(data, lo + 1, hi, prev, avgTs, avgValue);
    }
  }

  /** At most one index is the first maximum. */
  lemma FirstMaxUnique(data: seq<DataPoint>, lo: nat, hi: nat, prev: DataPoint, avgTs: real, avgValue: real, k1: nat, k2: nat)
    requires lo <= hi <= |data|
    requires IsFirstMax(data, lo, hi, prev, avgTs, avgValue, k1)
    requires IsFirstMax(data, lo, hi, prev, avgTs, avgValue, k2)
    ensures k1 == k2
  {
    var area1 := Area(prev, avgTs, avgValue, data[k1]);
    var area2 := Area(prev, avgTs, avgValue, data[k2]);
  }

  /** Length of the next bucket with the `max(1)` guard of the source. */
  function NextBucketCount(len: nat, threshold: nat, i: nat): (n: int)
    requires Reduces(len, threshold)
    ensures n >= 1
  {
    Max(Min(Edge(len, threshold, i + 2), len) - Edge(len, threshold, i + 1), 1)
  }

  /** When reducing, the next bucket of every interior bucket holds at least
      one point, so the `max(1)` guard never changes the divisor. */
  lemma NextBucketNonEmpty(len: nat, threshold: nat, i: nat)
    requires Reduces(len, threshold) && i < threshold - 2
    ensures 1 <= Edge(len, threshold, i + 1) < Min(Edge(len, threshold, i + 2), len) <= len
    ensures NextBucketCount(len, threshold, i) == Min(Edge(len, threshold, i + 2), len) - Edge(len, threshold, i + 1)
  {
    EdgeFacts(len, threshold, i + 1);
  }

  /** The point kept from bucket i when `prev` was kept from bucket i-1. */
  function Pick(data: seq<DataPoint>, threshold: nat, i: nat, prev: nat): (k: nat)
    requires Reduces(|data|, threshold) && i < threshold - 2 && prev < |data|
    ensures Edge(|data|, threshold, i) <= k < Edge(|data|, threshold, i + 1)
    ensures 1 <= k < |data| - 1
  {
    var len := |data|;
    EdgeFacts(len, threshold, i);
    NextBucketNonEmpty(len, threshold, i);
    var ns := Edge(len, threshold, i + 1);
    var ne := Min(Edge(len, threshold, i + 2), len);
    var n := NextBucketCount(len, threshold, i) as real;
    FirstMaxArea(data, Edge(len, threshold, i), Min(Edge(len, threshold, i + 1), len), data[prev],
                 SumTs(data, ns, ne) / n, SumValue(data, ns, ne) / n)
  }

  /** Indices kept from buckets i, i+1, ..., threshold-3; `prev` is the index
      kept just before bucket i. Each lies inside its own bucket. */
  function Picks(data: seq<DataPoint>, threshold: nat, i: nat, prev: nat): (ks: seq<nat>)
    requires Reduces(|data|, threshold) && i <= threshold - 2 && prev < |data|
    ensures |ks| == threshold - 2 - i
    ensures forall m :: 0 <= m < |ks| ==> 1 <= ks[m] < |data| - 1
    decreases threshold - 2 - i
  {
    if i == threshold - 2 then []
    else
      var k := Pick(data, threshold, i, prev);
      [k] + Picks(data, threshold, i + 1, k)
  }

  /** The m-th index kept from bucket i onwards lies inside bucket i+m. */
  lemma {:induction false} PicksInBuckets(data: seq<DataPoint>, threshold: nat, i: nat, prev: nat)
    requires Reduces(|data|, threshold) && i <= threshold - 2 && prev < |data|
    ensures var ks := Picks(data, threshold, i, prev);
            forall m :: 0 <= m < |ks| ==>
              Edge(|data|, threshold, i + m) <= ks[m] < Edge(|data|, threshold, i + m + 1)
    decreases threshold - 2 - i
  {
    if i < threshold - 2 {
      var k := Pick(data, threshold, i, prev);
      PicksInBuckets(data, threshold, i + 1, k);
      assert Picks(data, threshold, i, prev) == [k] + Picks(data, threshold, i + 1, k);
    }
  }

  /** PicksInBuckets at one position. */
  lemma PickInBucket(data: seq<DataPoint>, threshold: nat, i: nat, prev: nat, m: nat)
    requires Reduces(|data|, threshold) && i <= threshold - 2 && prev < |data|
    requires m < threshold - 2 - i
    ensures Edge(|data|, threshold, i + m) <= Picks(data, threshold, i, prev)[m] < Edge(|data|, threshold, i + m + 1)
  {
    PicksInBuckets(data, threshold, i, prev);
  }

  /** The kept indices strictly increase. */
  lemma PicksIncreasing(data: seq<DataPoint>, threshold: nat, i: nat, prev: nat)
    requires Reduces(|data|, threshold) && i <= threshold - 2 && prev < |data|
    ensures var ks := Picks(data, threshold, i, prev);
            forall m, m' :: 0 <= m < m' < |ks| ==> ks[m] < ks[m']
  {
    var ks := Picks(data, threshold, i, prev);
    forall m, m' | 0 <= m < m' < |ks| ensures ks[m] < ks[m'] {
      PickInBucket(data, threshold, i, prev, m);
      PickInBucket(data, threshold, i, prev, m');
      EdgeMonotone(|data|, threshold, i + m + 1, i + m');
    }
  }

  function Points(data: seq<DataPoint>, ks: seq<nat>): (r: seq<DataPoint>)
    requires forall m :: 0 <= m < |ks| ==> ks[m] < |data|
    ensures |r| == |ks| && forall m :: 0 <= m < |ks| ==> r[m] == data[ks[m]]
  {
    seq(|ks|, m requires 0 <= m < |ks| => data[ks[m]])
  }

  /** The downsampled series (reference definition). */
  function Lttb(data: seq<DataPoint>, threshold: nat): seq<DataPoint>
  {
    if |data| == 0 then []
    else if threshold < 3 || |data| <= threshold then data
    else
      [data[0]] + Points(data, Picks(data, threshold, 0, 0)) + [data[|data| - 1]]
  }

  /** Empty input gives empty output; a threshold below 3 or at least the
      input length returns the input unchanged. */
  lemma LttbPassThrough(data: seq<DataPoint>, threshold: nat)
    requires !Reduces(|data|, threshold)
    ensures Lttb(data, threshold) == data
  {}

  /** When reducing, the output has exactly `threshold` points, keeps the first
      and the last input point, and its interior points are taken at strictly
      increasing interior indices, the m-th inside bucket m. */
  lemma {:induction false} LttbReduced(data: seq<DataPoint>, threshold: nat)
    requires Reduces(|data|, threshold)
    ensures var r := Lttb(data, threshold); var ks := Picks(data, threshold, 0, 0);
      && |r| == threshold
      && r[0] == data[0]
      && r[threshold - 1] == data[|data| - 1]
      && |ks| == threshold - 2
      && (forall m :: 0 <= m < |ks| ==> 1 <= ks[m] < |data| - 1 && r[m + 1] == data[ks[m]])
      && (forall m :: 0 <= m < |ks| ==>
            Edge(|data|, threshold, m) <= ks[m] < Edge(|data|, threshold, m + 1))
      && (forall m, m' :: 0 <= m < m' < |ks| ==> ks[m] < ks[m'])
  {
    PicksInBuckets(data, threshold, 0, 0);
    PicksIncreasing(data, threshold, 0, 0);
  }

  lemma {:induction false} EdgeMonotone(len: nat, threshold: nat, i: nat, j: nat)
    requires Reduces(len, threshold) && i <= j <= threshold - 2
    ensures Edge(len, threshold, i) <= Edge(len, threshold, j)
    decreases j - i
  {
    if i < j {
      EdgeFacts(len, threshold, i);
      EdgeMonotone(len, threshold, i + 1, j);
    }
  }

  /** Each kept interior point is the FIRST point of its bucket with the
      largest triangle area against the point kept before it and the centroid
      of the next bucket (ties keep the earliest index). */
  lemma {:induction false} PicksAreFirstMaxima(data: seq<DataPoint>, threshold: nat, i: nat, prev: nat, m: nat)
    requires Reduces(|data|, threshold) && i <= threshold - 2 && prev < |data|
    requires m < threshold - 2 - i
    ensures var ks := Picks(data, threshold, i, prev);
            var before := if m == 0 then prev else ks[m - 1];
            before < |data| && ks[m] == Pick(data, threshold, i + m, before)
    decreases m
  {
    EdgeFacts(|data|, threshold, i);
    var k := Pick(data, threshold, i, prev);
    var rest := Picks(data, threshold, i + 1, k);
    assert Picks(data, threshold, i, prev) == [k] + rest;
    if m > 0 {
      PicksAreFirstMaxima(data, threshold, i + 1, k, m - 1);
      assert rest[m - 1] == Pick(data, threshold, i + m, if m == 1 then k else rest[m - 2]);
    }
  }

  /** The inner loop of `lttb_downsample_impl` that averages a bucket,
      dividing by `count` (the source passes the guarded count). */
  method BucketAverage(data: seq<DataPoint>, lo: nat, hi: nat, count: int) returns (avgTs: real, avgValue: real)
    requires lo <= hi <= |data| && count >= 1
    ensures avgTs == SumTs(data, lo, hi) / count as real
    ensures avgValue == SumValue(data, lo, hi) / count as real
  {
    avgTs := 0.0;
    avgValue := 0.0;
    for j := lo to hi
      invariant avgTs == SumTs(data, lo, j)
      invariant avgValue == SumValue(data, lo, j)
    {
      avgTs := avgTs + data[j].ts;
      avgValue := avgValue + data[j].value;
    }
    avgTs := avgTs / count as real;
    avgValue := avgValue / count as real;
  }

  /** The inner loop of `lttb_downsample_impl` that keeps a running maximum
      of the triangle area; the strict `>` keeps the first maximum. */
  method LargestTriangle(data: seq<DataPoint>, lo: nat, hi: nat, prev: DataPoint, avgTs: real, avgValue: real)
    returns (maxIdx: nat)
    requires lo < hi <= |data|
    ensures IsFirstMax(data, lo, hi, prev, avgTs, avgValue, maxIdx)
    ensures maxIdx == FirstMaxArea(data, lo, hi, prev, avgTs, avgValue)
  {
    var maxArea := -1.0;
    maxIdx := lo;
    for j := lo to hi
      invariant lo <= maxIdx < hi
      invariant j == lo ==> maxIdx == lo && maxArea == -1.0
      invariant j > lo ==> maxIdx < j && maxArea == Area(prev, avgTs, avgValue, data[maxIdx])
      invariant forall l :: lo <= l < j ==> Area(prev, avgTs, avgValue, data[l]) <= maxArea
      invariant forall l :: lo <= l < maxIdx ==> Area(prev, avgTs, avgValue, data[l]) < maxArea
    {
      var area := Area(prev, avgTs, avgValue, data[j]);
      if area > maxArea {
        maxArea := area;
        maxIdx := j;
      }
    }
    FirstMaxAreaIsFirstMax(data, lo, hi, prev, avgTs, avgValue);
    FirstMaxUnique(data, lo, hi, prev, avgTs, avgValue, maxIdx, FirstMaxArea(data, lo, hi, prev, avgTs, avgValue));
  }

  /** One iteration of the outer loop of `lttb_downsample_impl`: the index
      kept from bucket i when `prev` was kept before it. */
  method SelectInBucket(data: seq<DataPoint>, threshold: nat, i: nat, prev: nat) returns (maxIdx: nat)
    requires Reduces(|data|, threshold) && i < threshold - 2 && prev < |data|
    ensures maxIdx == Pick(data, threshold, i, prev)
  {
    var len := |data|;
    EdgeFacts(len, threshold, i);
    NextBucketNonEmpty(len, threshold, i);
    // Bucket boundaries floor(i * bucket_size + 1), capped at len.
    var bucketStart := Edge(len, threshold, i);
    var bucketEnd := Min(Edge(len, threshold, i + 1), len);
    var nextBucketStart := Edge(len, threshold, i + 1);
    var nextBucketEnd := Min(Edge(len, threshold, i + 2), len);

    // Average point of the next bucket.
    var nextBucketLen := Max(nextBucketEnd - nextBucketStart, 1);
    var avgTs, avgValue := BucketAverage(data, nextBucketStart, Min(nextBucketEnd, len), nextBucketLen);

    // Largest triangle in the current bucket.
    maxIdx := LargestTriangle(data, bucketStart, Min(bucketEnd, len), data[prev], avgTs, avgValue);

  }

  /** `lttb_downsample_impl`, with the loops of the source. */
  method LttbDownsample(data: seq<DataPoint>, threshold: nat) returns (result: seq<DataPoint>)
    ensures result == Lttb(data, threshold)
  {
    var len := |data|;
    if len == 0 {
      return [];
    }
    if threshold < 3 || len <= threshold {
      return data;
    }
    var selected := SelectAll(data, threshold);
    result := [data[0]] + selected + [data[len - 1]];
    LttbUnfold(data, threshold);
  }

  /** After i buckets: `done` are the indices kept so far, the next ones
      follow from `prev`, and `selected` holds their points. */
  ghost predicate Progress(data: seq<DataPoint>, threshold: nat, i: nat, prev: nat, done: seq<nat>, selected: seq<DataPoint>)
    requires Reduces(|data|, threshold) && i <= threshold - 2
  {
    && prev < |data| && |done| == i
    && (forall m :: 0 <= m < |done| ==> done[m] < |data|)
    && done + Picks(data, threshold, i, prev) == Picks(data, threshold, 0, 0)
    && selected == Points(data, done)
  }

  /** The outer loop of `lttb_downsample_impl`: one point per middle bucket,
      each chosen against the point chosen before it. */
  method SelectAll(data: seq<DataPoint>, threshold: nat) returns (selected: seq<DataPoint>)
    requires Reduces(|data|, threshold)
    ensures selected == Points(data, Picks(data, threshold, 0, 0))
  {
    selected := [];
    var prevSelected: nat := 0;
    ghost var done: seq<nat> := [];
    for i := 0 to threshold - 2
      invariant Progress(data, threshold, i, prevSelected, done, selected)
    {
      prevSelected, selected, done := SelectStep(data, threshold, i, prevSelected, done, selected);
    }
    assert done + [] == done;
  }

  /** One pass of the outer loop: keep the point chosen in bucket i. */
  method SelectStep(data: seq<DataPoint>, threshold: nat, i: nat, prev: nat, ghost done: seq<nat>, selected: seq<DataPoint>)
    returns (maxIdx: nat, selected': seq<DataPoint>, ghost done': seq<nat>)
    requires Reduces(|data|, threshold) && i < threshold - 2
    requires Progress(data, threshold, i, prev, done, selected)
    ensures Progress(data, threshold, i + 1, maxIdx, done', selected')
  {
    maxIdx := SelectInBucket(data, threshold, i, prev);
    PicksStep(data, threshold, i, prev);
    selected' := selected + [data[maxIdx]];
    PointsSnoc(data, done, maxIdx);
    done' := done + [maxIdx];
    assert done' + Picks(data, threshold, i + 1, maxIdx) == done + Picks(data, threshold, i, prev);
  }

  lemma PicksStep(data: seq<DataPoint>, threshold: nat, i: nat, prev: nat)
    requires Reduces(|data|, threshold) && i < threshold - 2 && prev < |data|
    ensures Picks(data, threshold, i, prev) == [Pick(data, threshold, i, prev)] + Picks(data, threshold, i + 1, Pick(data, threshold, i, prev))
  {}

  lemma PointsSnoc(data: seq<DataPoint>, ks: seq<nat>, k: nat)
    requires (forall m :: 0 <= m < |ks| ==> ks[m] < |data|) && k < |data|
    ensures Points(data, ks + [k]) == Points(data, ks) + [data[k]]
  {}

  lemma LttbUnfold(data: seq<DataPoint>, threshold: nat)
    requires Reduces(|data|, threshold)
    ensures Lttb(data, threshold) == [data[0]] + Points(data, Picks(data, threshold, 0, 0)) + [data[|data| - 1]]
  {}
}
