/** Merging explicit-bound histogram data points (aggregate.go, mergeHistogramDataPoints). */
module Histogram {
  import opened MachineInts
  import opened ExpBuckets
  import opened ExpBucketLaws
  import opened Grouping

  datatype HistPoint = HistPoint(
    attributes: map<string, string>, timestamp: uint64, startTime: uint64, flags: uint64,
    bounds: seq<real>, buckets: seq<uint64>, count: uint64, sum: real,
    hasMin: bool, min: real, hasMax: bool, max: real, exemplars: seq<string>)

  /** The parts of a point that go into its group key; the bucket bounds are among them. */
  datatype HistKey = HistKey(
    attributes: map<string, string>, timestamp: uint64, bounds: seq<real>, startTime: Start,
    hasMin: bool, hasMax: bool, flags: uint64)

  function KeyOf(p: HistPoint, useStartTime: bool): HistKey {
    HistKey(p.attributes, p.timestamp, p.bounds, if useStartTime then StartAt(p.startTime) else NoStart,
      p.hasMin, p.hasMax, p.flags)
  }

  /** The outcome of code that may index a slice out of range and panic. */
  datatype Outcome<T> = Done(value: T) | Panic

  /** The output data point; its bucket counts are updated through the slice. */
  class HistDataPoint {
    const first: HistPoint
    var startTime: uint64
    var count: uint64
    var sum: real
    var min: real
    var max: real
    var exemplars: seq<string>
    const counts: UInt64Slice

    constructor (p: HistPoint)
      ensures fresh(counts) && View() == p && first == p
    {
      first := p;
      startTime, count, sum, min, max, exemplars := p.startTime, p.count, p.sum, p.min, p.max, p.exemplars;
      counts := new UInt64Slice(p.buckets);
    }

    ghost function View(): HistPoint
      reads this, counts
    {
      first.(startTime := startTime, count := count, sum := sum, min := min, max := max,
        exemplars := exemplars, buckets := counts.counts)
    }

    /** Adds the source's counters one index at a time; ok is false where Go would panic. */
    method AddBuckets(src: seq<uint64>) returns (ok: bool)
      modifies counts
      ensures ok <==> |src| <= |old(counts.counts)|
      ensures ok ==> counts.counts == AddedCounts(old(counts.counts), src)
    {
      var b := 0;
      while b < |src|
        invariant 0 <= b <= |src| && b <= |counts.counts| == |old(counts.counts)|
        invariant forall j :: 0 <= j < |counts.counts| ==>
          counts.counts[j] == if j < b then Add64(old(counts.counts)[j], src[j]) else old(counts.counts)[j]
      {
        if b >= |counts.counts| {
          return false;
        }
        counts.counts := counts.counts[b := Add64(counts.counts[b], src[b])];
        b := b + 1;
      }
      ok := true;
    }

    /** One round of the merge loop. */
    method Merge(p: HistPoint) returns (ok: bool)
      modifies this, counts
      ensures ok <==> MergePoint(old(View()), p).Done?
      ensures ok ==> View() == MergePoint(old(View()), p).value
    {
      if p.count == 0 {
        return true;
      }
      count := Add64(count, p.count);
      sum := sum + p.sum;
      if first.hasMin && min > p.min {
        min := p.min;
      }
      if first.hasMax && max < p.max {
        max := p.max;
      }
      ok := AddBuckets(p.buckets);
      exemplars := exemplars + p.exemplars;
      if p.startTime < startTime {
        startTime := p.startTime;
      }
    }
  }

  function AddedCounts(tgt: seq<uint64>, src: seq<uint64>): seq<uint64> {
    seq(|tgt|, j => Add64(At(tgt, j), At(src, j)))
  }

  function MergePoint(a: HistPoint, p: HistPoint): Outcome<HistPoint> {
    if p.count == 0 then Done(a)
    else if |p.buckets| > |a.buckets| then Panic
    else Done(a.(
      startTime := if p.startTime < a.startTime then p.startTime else a.startTime,
      count := Add64(a.count, p.count), sum := a.sum + p.sum,
      min := if a.hasMin && a.min > p.min then p.min else a.min,
      max := if a.hasMax && a.max < p.max then p.max else a.max,
      exemplars := a.exemplars + p.exemplars, buckets := AddedCounts(a.buckets, p.buckets)))
  }

  function MergeGroup(dps: seq<HistPoint>): Outcome<HistPoint>
    requires dps != []
  {
    if |dps| == 1 then Done(dps[0])
    else
      var a := MergeGroup(dps[..|dps| - 1]);
      if a.Panic? then Panic else MergePoint(a.value, dps[|dps| - 1])
  }

  lemma {:induction false} PanicSticks(dps: seq<HistPoint>, i: nat)
    requires 0 < i <= |dps| && MergeGroup(dps[..i]).Panic?
    ensures MergeGroup(dps).Panic?
    decreases |dps| - i
  {
    if i == |dps| {
      assert dps[..i] == dps;
    } else {
      assert dps[..i + 1][..i] == dps[..i];
      PanicSticks(dps, i + 1);
    }
  }

  method MergeOneGroup(dps: seq<HistPoint>) returns (out: Outcome<HistDataPoint>)
    requires dps != []
    ensures out.Done? <==> MergeGroup(dps).Done?
    ensures out.Done? ==> fresh(out.value) && fresh(out.value.counts) && out.value.View() == MergeGroup(dps).value
  {
    var dp := new HistDataPoint(dps[0]);
    var i := 1;
    while i < |dps|
      invariant 1 <= i <= |dps|
      invariant MergeGroup(dps[..i]) == Done(dp.View())
    {
      assert dps[..i + 1][..i] == dps[..i];
      var ok := dp.Merge(dps[i]);
      if !ok {
        PanicSticks(dps, i + 1);
        return Panic;
      }
      i := i + 1;
    }
    assert dps[..i] == dps;
    out := Done(dp);
  }

  /** One output point per group, in the order the map iteration happens to take, unless some group panics. */
  method MergeGroups(groups: map<HistKey, seq<HistPoint>>)
    returns (out: Outcome<seq<HistDataPoint>>, ghost order: seq<HistKey>)
    requires forall k :: k in groups ==> groups[k] != []
    ensures out.Done? <==> forall k :: k in groups ==> MergeGroup(groups[k]).Done?
    ensures out.Done? ==>
      && Enumerates(order, groups.Keys) && |out.value| == |order|
      && forall i :: 0 <= i < |order| ==> MergeGroup(groups[order[i]]) == Done(out.value[i].View())
  {
    var to: seq<HistDataPoint> := [];
    order := [];
    var rest := groups.Keys;
    while rest != {}
      invariant rest <= groups.Keys && |to| == |order|
      invariant Enumerates(order, groups.Keys - rest)
      invariant forall i :: 0 <= i < |order| ==> order[i] in groups.Keys - rest
      invariant forall i :: 0 <= i < |order| ==> MergeGroup(groups[order[i]]) == Done(to[i].View())
      decreases rest
    {
      var k :| k in rest;
      var dp := MergeOneGroup(groups[k]);
      if dp.Panic? {
        return Panic, order;
      }
      to, order, rest := to + [dp.value], order + [k], rest - {k};
    }
    forall k | k in groups ensures MergeGroup(groups[k]).Done? {
      assert k in order;
      var i :| 0 <= i < |order| && order[i] == k;
      assert MergeGroup(groups[order[i]]) == Done(to[i].View());
    }
    out := Done(to);
  }

  // ----------------------------------------------------------------- the laws

  /** Merging panics exactly when a later point that counted something has more buckets than the first. */
  lemma {:induction false} PanicsExactlyOnExtraBuckets(dps: seq<HistPoint>)
    requires dps != []
    ensures MergeGroup(dps).Panic? <==>
      exists i :: 0 < i < |dps| && dps[i].count != 0 && |dps[i].buckets| > |dps[0].buckets|
    ensures MergeGroup(dps).Done? ==> |MergeGroup(dps).value.buckets| == |dps[0].buckets|
  {
    if |dps| > 1 {
      var init := dps[..|dps| - 1];
      PanicsExactlyOnExtraBuckets(init);
      assert forall i :: 0 <= i < |init| ==> init[i] == dps[i];
    }
  }

  /** A data point as the format requires it: one bucket more than bounds. */
  predicate WellShaped(p: HistPoint) {
    |p.buckets| == |p.bounds| + 1
  }

  /** The bucket counts make the point's count. */
  ghost predicate CountsAddUp(p: HistPoint) {
    Congruent64(Total(p.buckets), p.count)
  }

  /**
   * Well-shaped points never make the merge panic: points of one group share their bounds, so they have equally many
   * buckets.
   */
  lemma GroupedPointsNeverPanic(points: seq<HistPoint>, useStartTime: bool, k: HistKey)
    requires forall p :: p in points ==> WellShaped(p)
    requires k in Grouped(map[], points, p => KeyOf(p, useStartTime))
    ensures var group := Grouped(map[], points, p => KeyOf(p, useStartTime))[k];
      group != [] && MergeGroup(group).Done? && forall p :: p in group ==> |p.buckets| == |k.bounds| + 1
  {
    var key := (p: HistPoint) => KeyOf(p, useStartTime);
    assert Grouped(map[], points, p => KeyOf(p, useStartTime)) == Grouped(map[], points, key);
    GroupsPartition(map[], points, key, k);
    WithKeyMembers(points, key, k);
    var group := Grouped(map[], points, key)[k];
    assert forall p :: p in group ==> |p.buckets| == |k.bounds| + 1;
    PanicsExactlyOnExtraBuckets(group);
  }

  lemma MergePointCountsAddUp(a: HistPoint, p: HistPoint)
    requires CountsAddUp(a) && CountsAddUp(p) && MergePoint(a, p).Done?
    ensures CountsAddUp(MergePoint(a, p).value)
  {
    if p.count != 0 {
      var m := MergePoint(a, p).value;
      forall j: nat ensures At(m.buckets, j) == Add64(At(a.buckets, j), Shifted(p.buckets, 0, j)) {
      }
      PlacedTotal(m.buckets, a.buckets, p.buckets, 0);
      assert p.buckets[0..] == p.buckets;
      CongruentSum(Total(a.buckets), a.count, Total(p.buckets), p.count);
      CongruentAdd64(a.count, p.count);
      CongruentFlip(m.count, a.count + p.count);
      CongruentChain(Total(m.buckets), Total(a.buckets) + Total(p.buckets), a.count + p.count);
      CongruentChain(Total(m.buckets), a.count + p.count, m.count);
    }
  }

  /** Bucket counts that make the count in every input make it in the merged point. */
  lemma {:induction false} MergedCountsAddUp(dps: seq<HistPoint>)
    requires dps != [] && MergeGroup(dps).Done?
    requires forall i :: 0 <= i < |dps| ==> CountsAddUp(dps[i])
    ensures CountsAddUp(MergeGroup(dps).value)
  {
    if |dps| > 1 {
      var init := dps[..|dps| - 1];
      assert forall i :: 0 <= i < |init| ==> init[i] == dps[i];
      MergedCountsAddUp(init);
      MergePointCountsAddUp(MergeGroup(init).value, dps[|dps| - 1]);
    }
  }

  /** The counts of bucket b in the first point and in the later points that counted something. */
  function BucketSum(dps: seq<HistPoint>, b: nat): nat
    requires dps != []
  {
    var last := dps[|dps| - 1];
    if |dps| == 1 then At(last.buckets, b)
    else BucketSum(dps[..|dps| - 1], b) + if last.count == 0 then 0 else At(last.buckets, b)
  }

  /** Every merged bucket is the sum of the group's buckets, modulo 2^64. */
  lemma {:induction false} MergedBucketsAddUp(dps: seq<HistPoint>, b: nat)
    requires dps != [] && MergeGroup(dps).Done? && b < |dps[0].buckets|
    ensures Congruent64(At(MergeGroup(dps).value.buckets, b), BucketSum(dps, b))
  {
    PanicsExactlyOnExtraBuckets(dps);
    var init, last := dps[..|dps| - 1], dps[|dps| - 1];
    CongruentSelf(At(last.buckets, b));
    if |dps| == 1 {
      assert BucketSum(dps, b) == At(last.buckets, b);
    } else {
      MergedBucketsAddUp(init, b);
      PanicsExactlyOnExtraBuckets(init);
      var a := MergeGroup(init).value;
      if last.count != 0 {
        CongruentSum(At(a.buckets, b), BucketSum(init, b), At(last.buckets, b), At(last.buckets, b));
        CongruentAdd64(At(a.buckets, b), At(last.buckets, b));
        CongruentChain(At(MergeGroup(dps).value.buckets, b), At(a.buckets, b) + At(last.buckets, b), BucketSum(dps, b));
      }
    }
  }
}
