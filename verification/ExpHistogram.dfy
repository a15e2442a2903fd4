/** Merging exponential-histogram data points (aggregate.go, mergeExponentialHistogramDataPoints). */
module ExpHistogram {
  import opened MachineInts
  import opened ExpBuckets
  import opened ExpBucketLaws
  import opened Grouping

  /** The parts of a data point the merge reads, copies or adds. */
  datatype ExpPoint = ExpPoint(
    attributes: map<string, string>, timestamp: uint64, startTime: uint64, scale: int32, flags: uint64,
    count: uint64, sum: real, zeroCount: uint64,
    hasMin: bool, min: real, hasMax: bool, max: real,
    positive: Buckets, negative: Buckets, exemplars: seq<string>)

  /** The parts of a point that go into its group key. */
  datatype ExpKey = ExpKey(
    attributes: map<string, string>, timestamp: uint64, scale: int32, hasMin: bool, hasMax: bool, flags: uint64,
    startTime: Start)

  function KeyOf(p: ExpPoint, useStartTime: bool): ExpKey {
    ExpKey(p.attributes, p.timestamp, p.scale, p.hasMin, p.hasMax, p.flags,
      if useStartTime then StartAt(p.startTime) else NoStart)
  }

  /** A bucket array inside a data point: its counters are updated through the slice. */
  class BucketField {
    var offset: int32
    const slice: UInt64Slice

    constructor (b: Buckets)
      ensures fresh(slice) && offset == b.offset && slice.counts == b.counts
    {
      offset := b.offset;
      slice := new UInt64Slice(b.counts);
    }

    function View(): Buckets
      reads this, slice
    {
      Buckets(offset, slice.counts)
    }

    /** Merge in one source array, then move the offset and trim when the offsets differed. */
    method Merge(s: Buckets)
      modifies this, slice
      ensures View() == MergeBuckets(old(View()), s)
    {
      var differ := offset != s.offset;
      MergeBucketSlices(slice, s.counts, offset, s.offset);
      if differ && |s.counts| != 0 {
        offset := if s.offset < offset then s.offset else offset;
        TrimBuckets(slice);
      }
    }
  }

  /** The output data point, filled from the first point of a group and updated in place. */
  class ExpDataPoint {
    const first: ExpPoint
    var startTime: uint64
    var count: uint64
    var sum: real
    var zeroCount: uint64
    var min: real
    var max: real
    var exemplars: seq<string>
    const positive: BucketField
    const negative: BucketField

    constructor (p: ExpPoint)
      ensures Valid() && View() == p
      ensures fresh(positive) && fresh(negative) && fresh(positive.slice) && fresh(negative.slice)
    {
      first := p;
      startTime, count, sum, zeroCount := p.startTime, p.count, p.sum, p.zeroCount;
      min, max, exemplars := p.min, p.max, p.exemplars;
      positive := new BucketField(p.positive);
      negative := new BucketField(p.negative);
    }

    ghost predicate Valid() {
      positive != negative && positive.slice != negative.slice
    }

    ghost function View(): ExpPoint
      reads this, positive, negative, positive.slice, negative.slice
    {
      first.(startTime := startTime, count := count, sum := sum, zeroCount := zeroCount, min := min, max := max,
        exemplars := exemplars, positive := positive.View(), negative := negative.View())
    }

    /** The scalar part of one round. */
    method AddScalars(p: ExpPoint)
      modifies this
      ensures View() == old(View()).(
        startTime := if p.startTime < old(startTime) then p.startTime else old(startTime),
        count := Add64(old(count), p.count), sum := old(sum) + p.sum, zeroCount := Add64(old(zeroCount), p.zeroCount),
        min := if first.hasMin && old(min) > p.min then p.min else old(min),
        max := if first.hasMax && old(max) < p.max then p.max else old(max),
        exemplars := old(exemplars) + p.exemplars)
    {
      count := Add64(count, p.count);
      sum := sum + p.sum;
      zeroCount := Add64(zeroCount, p.zeroCount);
      if first.hasMin && min > p.min {
        min := p.min;
      }
      if first.hasMax && max < p.max {
        max := p.max;
      }
      exemplars := exemplars + p.exemplars;
      if p.startTime < startTime {
        startTime := p.startTime;
      }
    }

    /** One round of the merge loop. */
    method Merge(p: ExpPoint)
      requires Valid()
      modifies this, positive, negative, positive.slice, negative.slice
      ensures View() == MergePoint(old(View()), p)
    {
      if p.count == 0 {
        return;
      }
      AddScalars(p);
      negative.Merge(p.negative);
      positive.Merge(p.positive);
    }
  }

  /** The data point after one round: a point that counted nothing is skipped whole. */
  function MergePoint(a: ExpPoint, p: ExpPoint): ExpPoint {
    if p.count == 0 then a
    else a.(
      startTime := if p.startTime < a.startTime then p.startTime else a.startTime,
      count := Add64(a.count, p.count), sum := a.sum + p.sum, zeroCount := Add64(a.zeroCount, p.zeroCount),
      min := if a.hasMin && a.min > p.min then p.min else a.min,
      max := if a.hasMax && a.max < p.max then p.max else a.max,
      positive := MergeBuckets(a.positive, p.positive), negative := MergeBuckets(a.negative, p.negative),
      exemplars := a.exemplars + p.exemplars)
  }

  function MergeGroup(dps: seq<ExpPoint>): ExpPoint
    requires dps != []
  {
    if |dps| == 1 then dps[0] else MergePoint(MergeGroup(dps[..|dps| - 1]), dps[|dps| - 1])
  }

  method MergeOneGroup(dps: seq<ExpPoint>) returns (dp: ExpDataPoint)
    requires dps != []
    ensures fresh(dp) && fresh(dp.positive) && fresh(dp.negative) && fresh(dp.positive.slice) &&
      fresh(dp.negative.slice)
    ensures dp.View() == MergeGroup(dps)
  {
    dp := new ExpDataPoint(dps[0]);
    var i := 1;
    while i < |dps|
      invariant 1 <= i <= |dps|
      invariant dp.Valid() && dp.View() == MergeGroup(dps[..i])
    {
      assert dps[..i + 1][..i] == dps[..i];
      dp.Merge(dps[i]);
      i := i + 1;
    }
    assert dps[..i] == dps;
  }

  /** One output point per group, in the order the map iteration happens to take. */
  method MergeGroups(groups: map<ExpKey, seq<ExpPoint>>) returns (to: seq<ExpDataPoint>, ghost order: seq<ExpKey>)
    requires forall k :: k in groups ==> groups[k] != []
    ensures Enumerates(order, groups.Keys) && |to| == |order|
    ensures forall i :: 0 <= i < |to| ==> to[i].View() == MergeGroup(groups[order[i]])
  {
    to, order := [], [];
    var rest := groups.Keys;
    while rest != {}
      invariant rest <= groups.Keys && |to| == |order|
      invariant Enumerates(order, groups.Keys - rest)
      invariant forall i :: 0 <= i < |order| ==> order[i] in groups.Keys - rest
      invariant forall i :: 0 <= i < |to| ==> to[i].View() == MergeGroup(groups[order[i]])
      decreases rest
    {
      var k :| k in rest;
      var dp := MergeOneGroup(groups[k]);
      to, order, rest := to + [dp], order + [k], rest - {k};
    }
  }

  // ----------------------------------------------------------------- the laws

  /** The counts of a point add up: buckets and zero count together make the point's count, in uint64 arithmetic. */
  ghost predicate CountsAddUp(p: ExpPoint) {
    Congruent64(Total(p.positive.counts) + Total(p.negative.counts) + p.zeroCount, p.count)
  }

  /** No two offsets of the group are so far apart that their int32 difference wraps. */
  ghost predicate OffsetsClose(dps: seq<ExpPoint>) {
    forall i, j :: 0 <= i < |dps| && 0 <= j < |dps| ==>
      dps[i].positive.offset - dps[j].positive.offset < 0x8000_0000 &&
      dps[i].negative.offset - dps[j].negative.offset < 0x8000_0000
  }

  function CountAmount(p: ExpPoint): Amount {
    Amount(p.count, p.sum)
  }

  lemma {:induction false} MergedOffsetsAreFromTheGroup(dps: seq<ExpPoint>) returns (i: nat, j: nat)
    requires dps != []
    ensures i < |dps| && MergeGroup(dps).positive.offset == dps[i].positive.offset
    ensures j < |dps| && MergeGroup(dps).negative.offset == dps[j].negative.offset
  {
    var last := |dps| - 1;
    if last == 0 {
      i, j := 0, 0;
    } else {
      i, j := MergedOffsetsAreFromTheGroup(dps[..last]);
      assert dps[i] == dps[..last][i] && dps[j] == dps[..last][j];
      i := if MergeGroup(dps).positive.offset == dps[i].positive.offset then i else last;
      j := if MergeGroup(dps).negative.offset == dps[j].negative.offset then j else last;
    }
  }

  lemma MergeKeepsTotal(t: Buckets, s: Buckets)
    requires s.offset - t.offset < 0x8000_0000
    ensures Congruent64(Total(MergeBuckets(t, s).counts), Total(t.counts) + Total(s.counts))
  {
    DropsOnlyOnWrap(t, s);
    MergeAddsTotals(t, s);
    assert s.counts[0..] == s.counts;
  }

  lemma MergePointCountsAddUp(a: ExpPoint, p: ExpPoint)
    requires CountsAddUp(a) && CountsAddUp(p)
    requires p.positive.offset - a.positive.offset < 0x8000_0000
    requires p.negative.offset - a.negative.offset < 0x8000_0000
    ensures CountsAddUp(MergePoint(a, p))
  {
    if p.count != 0 {
      var m := MergePoint(a, p);
      MergeKeepsTotal(a.positive, p.positive);
      MergeKeepsTotal(a.negative, p.negative);
      CongruentAdd64(a.zeroCount, p.zeroCount);
      CongruentAdd64(a.count, p.count);
      CongruentSum(Total(m.positive.counts), Total(a.positive.counts) + Total(p.positive.counts),
        Total(m.negative.counts), Total(a.negative.counts) + Total(p.negative.counts));
      CongruentSum(Total(m.positive.counts) + Total(m.negative.counts),
        Total(a.positive.counts) + Total(p.positive.counts) + (Total(a.negative.counts) + Total(p.negative.counts)),
        m.zeroCount, a.zeroCount + p.zeroCount);
      CongruentSum(Total(a.positive.counts) + Total(a.negative.counts) + a.zeroCount, a.count,
        Total(p.positive.counts) + Total(p.negative.counts) + p.zeroCount, p.count);
      CongruentChain(Total(m.positive.counts) + Total(m.negative.counts) + m.zeroCount,
        Total(a.positive.counts) + Total(a.negative.counts) + a.zeroCount +
        (Total(p.positive.counts) + Total(p.negative.counts) + p.zeroCount), a.count + p.count);
      CongruentFlip(m.count, a.count + p.count);
      CongruentChain(Total(m.positive.counts) + Total(m.negative.counts) + m.zeroCount, a.count + p.count, m.count);
    }
  }

  /**
   * Counts that add up in every input still add up in the merged point, through every bucket branch and all trimming.
   */
  lemma {:induction false} MergedCountsAddUp(dps: seq<ExpPoint>)
    requires dps != [] && OffsetsClose(dps)
    requires forall i :: 0 <= i < |dps| ==> CountsAddUp(dps[i])
    ensures CountsAddUp(MergeGroup(dps))
  {
    if |dps| > 1 {
      var init, last := dps[..|dps| - 1], dps[|dps| - 1];
      assert forall i :: 0 <= i < |init| ==> init[i] == dps[i];
      MergedCountsAddUp(init);
      var i, j := MergedOffsetsAreFromTheGroup(init);
      assert last.positive.offset - dps[i].positive.offset < 0x8000_0000;
      assert last.negative.offset - dps[j].negative.offset < 0x8000_0000;
      MergePointCountsAddUp(MergeGroup(init), last);
    }
  }

  /** The merged count is the uint64 sum of the group's counts, whatever the offsets. */
  lemma {:induction false} MergedCountIsTheSum(dps: seq<ExpPoint>)
    requires dps != []
    ensures Congruent64(MergeGroup(dps).count, SumOf(dps, CountAmount).i)
  {
    var init, last := dps[..|dps| - 1], dps[|dps| - 1];
    if |dps| == 1 {
      assert init == [];
      assert SumOf(dps, CountAmount).i == last.count;
      CongruentSelf(last.count);
    } else {
      MergedCountIsTheSum(init);
      CongruentAdd64(MergeGroup(init).count, last.count);
      CongruentSelf(last.count);
      CongruentSum(MergeGroup(init).count, SumOf(init, CountAmount).i, last.count, last.count);
      assert SumOf(dps, CountAmount) == Plus(SumOf(init, CountAmount), CountAmount(last));
      if last.count != 0 {
        CongruentChain(MergeGroup(dps).count, MergeGroup(init).count + last.count, SumOf(dps, CountAmount).i);
      }
    }
  }

  /** The merged start time is the earliest of the points that counted something (and the first), and is one of them. */
  lemma {:induction false} MergedStartIsEarliest(dps: seq<ExpPoint>) returns (i: nat)
    requires dps != []
    ensures forall k :: 0 <= k < |dps| && (k == 0 || dps[k].count != 0) ==>
      MergeGroup(dps).startTime <= dps[k].startTime
    ensures i < |dps| && (i == 0 || dps[i].count != 0) && MergeGroup(dps).startTime == dps[i].startTime
  {
    var last := |dps| - 1;
    if last == 0 {
      i := 0;
    } else {
      var init := dps[..last];
      i := MergedStartIsEarliest(init);
      assert forall k :: 0 <= k < |init| ==> init[k] == dps[k];
      i := if MergeGroup(dps).startTime == dps[i].startTime then i else last;
    }
  }

  /** Which of a point's two bucket arrays. */
  datatype Sign = Positive | Negative

  function Side(p: ExpPoint, sign: Sign): Buckets {
    if sign == Positive then p.positive else p.negative
  }

  /** The counts in bucket i of the first point and of the later points that counted something. */
  function BucketSum(dps: seq<ExpPoint>, sign: Sign, i: int): nat
    requires dps != []
  {
    var last := dps[|dps| - 1];
    if |dps| == 1 then CountAt(Side(last, sign), i)
    else BucketSum(dps[..|dps| - 1], sign, i) + if last.count == 0 then 0 else CountAt(Side(last, sign), i)
  }

  /** With one offset throughout, every merged bucket is the sum of the group's buckets, modulo 2^64. */
  lemma {:induction false} MergedBucketsAddUp(dps: seq<ExpPoint>, sign: Sign, off: int32, i: int)
    requires dps != [] && forall k :: 0 <= k < |dps| ==> Side(dps[k], sign).offset == off
    ensures Side(MergeGroup(dps), sign).offset == off
    ensures Congruent64(CountAt(Side(MergeGroup(dps), sign), i), BucketSum(dps, sign, i))
  {
    var init, last := dps[..|dps| - 1], dps[|dps| - 1];
    var s := Side(last, sign);
    CongruentSelf(CountAt(s, i));
    if |dps| == 1 {
      assert BucketSum(dps, sign, i) == CountAt(s, i);
    } else {
      assert forall k :: 0 <= k < |init| ==> init[k] == dps[k];
      MergedBucketsAddUp(init, sign, off, i);
      var a := Side(MergeGroup(init), sign);
      if last.count != 0 {
        CongruentSum(CountAt(a, i), BucketSum(init, sign, i), CountAt(s, i), CountAt(s, i));
        SameOffsetIsExact(a, s);
        CongruentAdd64(CountAt(a, i), CountAt(s, i));
        CongruentChain(CountAt(MergeBuckets(a, s), i), CountAt(a, i) + CountAt(s, i), BucketSum(dps, sign, i));
      }
    }
  }

  /** With one offset throughout, a merged bucket is the exact sum just when that sum fits 64 bits. */
  lemma OneOffsetIsExact(dps: seq<ExpPoint>, sign: Sign, off: int32, i: int)
    requires dps != [] && forall k :: 0 <= k < |dps| ==> Side(dps[k], sign).offset == off
    ensures CountAt(Side(MergeGroup(dps), sign), i) == BucketSum(dps, sign, i) <==>
            BucketSum(dps, sign, i) < 0x1_0000_0000_0000_0000
  {
    MergedBucketsAddUp(dps, sign, off, i);
    CongruentBelow(CountAt(Side(MergeGroup(dps), sign), i), BucketSum(dps, sign, i));
  }

  /** Every merged bucket is the exact sum of the group's buckets. */
  ghost predicate SumsExactly(dps: seq<ExpPoint>, sign: Sign)
    requires dps != []
  {
    forall i :: CountAt(Side(MergeGroup(dps), sign), i) == BucketSum(dps, sign, i)
  }

  /** Each point that counted something is merged exactly into what the points before it made. */
  ghost predicate FoldsExactly(dps: seq<ExpPoint>, sign: Sign)
    requires dps != []
  {
    var init, last := dps[..|dps| - 1], dps[|dps| - 1];
    |dps| == 1 ||
    (FoldsExactly(init, sign) && (last.count == 0 || MergesExactly(Side(MergeGroup(init), sign), Side(last, sign))))
  }

  /** When the points before the last were summed exactly, all are just when the last step is exact. */
  lemma {:induction false} LastStepDecides(dps: seq<ExpPoint>, sign: Sign)
    requires |dps| > 1 && SumsExactly(dps[..|dps| - 1], sign)
    ensures var init, last := dps[..|dps| - 1], dps[|dps| - 1];
      SumsExactly(dps, sign) <==>
      last.count == 0 || MergesExactly(Side(MergeGroup(init), sign), Side(last, sign))
  {
    var init, last := dps[..|dps| - 1], dps[|dps| - 1];
    var a, s := Side(MergeGroup(init), sign), Side(last, sign);
    MergeExactness(a, s);
    if last.count == 0 {
      assert MergeGroup(dps) == MergeGroup(init);
    } else {
      assert Side(MergeGroup(dps), sign) == MergeBuckets(a, s);
      if SumsExactly(dps, sign) {
        forall i ensures CountAt(MergeBuckets(a, s), i) == CountAt(a, i) + CountAt(s, i) {
          assert CountAt(Side(MergeGroup(dps), sign), i) == BucketSum(dps, sign, i);
          assert CountAt(Side(MergeGroup(init), sign), i) == BucketSum(init, sign, i);
        }
      }
    }
  }

  /** A group and all its beginnings are summed exactly just when every step of the merge loop is exact. */
  lemma {:induction false} GroupExactness(dps: seq<ExpPoint>, sign: Sign)
    requires dps != []
    ensures FoldsExactly(dps, sign) <==> forall n :: 1 <= n <= |dps| ==> SumsExactly(dps[..n], sign)
  {
    assert dps[..|dps|] == dps;
    if |dps| == 1 {
      assert forall i :: CountAt(Side(MergeGroup(dps), sign), i) == BucketSum(dps, sign, i);
    } else {
      var init := dps[..|dps| - 1];
      GroupExactness(init, sign);
      assert forall n :: 1 <= n <= |init| ==> init[..n] == dps[..n];
      if SumsExactly(init, sign) {
        LastStepDecides(dps, sign);
      } else {
        assert init[..|init|] == init;
        assert !SumsExactly(dps[..|init|], sign);
      }
    }
  }

  /** The sum over the merged points, in the order they were produced. */
  function OutputCount(order: seq<ExpKey>, groups: map<ExpKey, seq<ExpPoint>>): int
    requires forall k :: k in order ==> k in groups && groups[k] != []
  {
    if order == [] then 0
    else OutputCount(order[..|order| - 1], groups) + MergeGroup(groups[order[|order| - 1]]).count
  }

  lemma {:induction false} OutputCountIsGrandTotal(order: seq<ExpKey>, groups: map<ExpKey, seq<ExpPoint>>)
    requires forall k :: k in order ==> k in groups && groups[k] != []
    ensures Congruent64(OutputCount(order, groups), GrandTotal(order, groups, CountAmount).i)
  {
    if order == [] {
      CongruentSelf(0);
    } else {
      var last := order[|order| - 1];
      OutputCountIsGrandTotal(order[..|order| - 1], groups);
      MergedCountIsTheSum(groups[last]);
      CongruentSum(OutputCount(order[..|order| - 1], groups), GrandTotal(order[..|order| - 1], groups, CountAmount).i,
        MergeGroup(groups[last]).count, SumOf(groups[last], CountAmount).i);
    }
  }

  /** Grouping and merging keeps the number of recorded measurements, for any map iteration order. */
  lemma AggregationKeepsTheCount(points: seq<ExpPoint>, useStartTime: bool, order: seq<ExpKey>)
    requires var groups := Grouped(map[], points, p => KeyOf(p, useStartTime)); Enumerates(order, groups.Keys)
    ensures var groups := Grouped(map[], points, p => KeyOf(p, useStartTime));
      (forall k :: k in order ==> k in groups && groups[k] != []) &&
      Congruent64(OutputCount(order, groups), SumOf(points, CountAmount).i)
  {
    var key := (p: ExpPoint) => KeyOf(p, useStartTime);
    var groups := Grouped(map[], points, key);
    assert groups == Grouped(map[], points, p => KeyOf(p, useStartTime));
    forall k | k in order ensures k in groups && groups[k] != [] {
      GroupsPartition(map[], points, key, k);
    }
    EnumerationCovers(order, points, key);
    GroupTotalsAddUp(order, points, key, CountAmount);
    OutputCountIsGrandTotal(order, groups);
  }
}
