/** What merged histogram points say about the points of their group, and which points share a group. */
module HistogramLaws {
  import opened MachineInts
  import opened ExpBuckets
  import opened Grouping
  import Explicit = Histogram
  import Exponential = ExpHistogram

  // ------------------------------------------------------ explicit bounds

  /** The points that go into a merged point: the first one and the later ones that counted something. */
  function ExplicitKept(dps: seq<Explicit.HistPoint>): seq<Explicit.HistPoint>
    requires dps != []
  {
    var last := dps[|dps| - 1];
    if |dps| == 1 then dps
    else if last.count == 0 then ExplicitKept(dps[..|dps| - 1])
    else ExplicitKept(dps[..|dps| - 1]) + [last]
  }

  function ExplicitSum(p: Explicit.HistPoint): Amount {
    Amount(0, p.sum)
  }

  function ExplicitExemplars(dps: seq<Explicit.HistPoint>): seq<string> {
    if dps == [] then [] else ExplicitExemplars(dps[..|dps| - 1]) + dps[|dps| - 1].exemplars
  }

  lemma {:induction false} ExplicitKeptFirst(dps: seq<Explicit.HistPoint>)
    requires dps != []
    ensures ExplicitKept(dps) != [] && ExplicitKept(dps)[0] == dps[0] && forall p :: p in ExplicitKept(dps) ==> p in dps
    decreases |dps|
  {
    if |dps| > 1 {
      ExplicitKeptFirst(dps[..|dps| - 1]);
    }
  }

  /** The merged sum is the sum of their sums. */
  lemma {:induction false} ExplicitSumsAddUp(dps: seq<Explicit.HistPoint>)
    requires dps != [] && Explicit.MergeGroup(dps).Done?
    ensures Explicit.MergeGroup(dps).value.sum == SumOf(ExplicitKept(dps), ExplicitSum).d
    decreases |dps|
  {
    var init, last := dps[..|dps| - 1], dps[|dps| - 1];
    if |dps| == 1 {
      assert init == [];
      assert SumOf(dps, ExplicitSum) == Plus(SumOf(init, ExplicitSum), ExplicitSum(last));
    } else {
      ExplicitSumsAddUp(init);
      SumOfSnoc(ExplicitKept(init), last, ExplicitSum);
    }
  }

  /** All their exemplars are there, in order. */
  lemma {:induction false} ExplicitExemplarsStay(dps: seq<Explicit.HistPoint>)
    requires dps != [] && Explicit.MergeGroup(dps).Done?
    ensures Explicit.MergeGroup(dps).value.exemplars == ExplicitExemplars(ExplicitKept(dps))
    decreases |dps|
  {
    var init, last := dps[..|dps| - 1], dps[|dps| - 1];
    if |dps| == 1 {
      assert init == [];
      assert ExplicitExemplars(dps) == ExplicitExemplars(init) + last.exemplars;
    } else {
      ExplicitExemplarsStay(init);
      assert (ExplicitKept(init) + [last])[..|ExplicitKept(init)|] == ExplicitKept(init);
    }
  }

  /** Where they are present, the merged minimum and maximum are the least and the greatest, and some point's. */
  lemma {:induction false} ExplicitExtremes(dps: seq<Explicit.HistPoint>)
    requires dps != [] && Explicit.MergeGroup(dps).Done?
    ensures var m, kept := Explicit.MergeGroup(dps).value, ExplicitKept(dps);
      && m.hasMin == dps[0].hasMin && m.hasMax == dps[0].hasMax
      && (if m.hasMin then (exists p :: p in kept && p.min == m.min) && forall p :: p in kept ==> m.min <= p.min
          else m.min == dps[0].min)
      && (if m.hasMax then (exists p :: p in kept && p.max == m.max) && forall p :: p in kept ==> p.max <= m.max
          else m.max == dps[0].max)
    decreases |dps|
  {
    if |dps| == 1 {
      assert dps[0] in ExplicitKept(dps);
    } else {
      var init, last := dps[..|dps| - 1], dps[|dps| - 1];
      ExplicitExtremes(init);
      assert forall p :: p in ExplicitKept(dps) <==> p in ExplicitKept(init) || (p == last && last.count != 0);
    }
  }

  // ---------------------------------------------------------- exponential

  /** The points that go into a merged point: the first one and the later ones that counted something. */
  function ExponentialKept(dps: seq<Exponential.ExpPoint>): seq<Exponential.ExpPoint>
    requires dps != []
  {
    var last := dps[|dps| - 1];
    if |dps| == 1 then dps
    else if last.count == 0 then ExponentialKept(dps[..|dps| - 1])
    else ExponentialKept(dps[..|dps| - 1]) + [last]
  }

  function ExponentialSum(p: Exponential.ExpPoint): Amount {
    Amount(0, p.sum)
  }

  function ExponentialExemplars(dps: seq<Exponential.ExpPoint>): seq<string> {
    if dps == [] then [] else ExponentialExemplars(dps[..|dps| - 1]) + dps[|dps| - 1].exemplars
  }

  lemma {:induction false} ExponentialKeptFirst(dps: seq<Exponential.ExpPoint>)
    requires dps != []
    ensures ExponentialKept(dps) != [] && ExponentialKept(dps)[0] == dps[0] && forall p :: p in ExponentialKept(dps) ==>
      p in dps
    decreases |dps|
  {
    if |dps| > 1 {
      ExponentialKeptFirst(dps[..|dps| - 1]);
    }
  }

  /** The merged sum is the sum of their sums. */
  lemma {:induction false} ExponentialSumsAddUp(dps: seq<Exponential.ExpPoint>)
    requires dps != []
    ensures Exponential.MergeGroup(dps).sum == SumOf(ExponentialKept(dps), ExponentialSum).d
    decreases |dps|
  {
    var init, last := dps[..|dps| - 1], dps[|dps| - 1];
    if |dps| == 1 {
      assert init == [];
      assert SumOf(dps, ExponentialSum) == Plus(SumOf(init, ExponentialSum), ExponentialSum(last));
    } else {
      ExponentialSumsAddUp(init);
      SumOfSnoc(ExponentialKept(init), last, ExponentialSum);
    }
  }

  /** All their exemplars are there, in order. */
  lemma {:induction false} ExponentialExemplarsStay(dps: seq<Exponential.ExpPoint>)
    requires dps != []
    ensures Exponential.MergeGroup(dps).exemplars == ExponentialExemplars(ExponentialKept(dps))
    decreases |dps|
  {
    var init, last := dps[..|dps| - 1], dps[|dps| - 1];
    if |dps| == 1 {
      assert init == [];
      assert ExponentialExemplars(dps) == ExponentialExemplars(init) + last.exemplars;
    } else {
      ExponentialExemplarsStay(init);
      assert (ExponentialKept(init) + [last])[..|ExponentialKept(init)|] == ExponentialKept(init);
    }
  }

  /** Where they are present, the merged minimum and maximum are the least and the greatest, and some point's. */
  lemma {:induction false} ExponentialExtremes(dps: seq<Exponential.ExpPoint>)
    requires dps != []
    ensures var m, kept := Exponential.MergeGroup(dps), ExponentialKept(dps);
      && m.hasMin == dps[0].hasMin && m.hasMax == dps[0].hasMax
      && (if m.hasMin then (exists p :: p in kept && p.min == m.min) && forall p :: p in kept ==> m.min <= p.min
          else m.min == dps[0].min)
      && (if m.hasMax then (exists p :: p in kept && p.max == m.max) && forall p :: p in kept ==> p.max <= m.max
          else m.max == dps[0].max)
    decreases |dps|
  {
    if |dps| == 1 {
      assert dps[0] in ExponentialKept(dps);
    } else {
      var init, last := dps[..|dps| - 1], dps[|dps| - 1];
      ExponentialExtremes(init);
      assert forall p :: p in ExponentialKept(dps) <==> p in ExponentialKept(init) || (p == last && last.count != 0);
    }
  }

  function ZeroCountAmount(p: Exponential.ExpPoint): Amount {
    Amount(p.zeroCount, 0.0)
  }

  /** The merged zero count is the sum of their zero counts, modulo 2^64. */
  lemma {:induction false} ZeroCountsAddUp(dps: seq<Exponential.ExpPoint>)
    requires dps != []
    ensures Congruent64(Exponential.MergeGroup(dps).zeroCount, SumOf(ExponentialKept(dps), ZeroCountAmount).i)
    decreases |dps|
  {
    var init, last := dps[..|dps| - 1], dps[|dps| - 1];
    CongruentSelf(last.zeroCount);
    if |dps| == 1 {
      assert init == [];
      assert SumOf(dps, ZeroCountAmount) == Plus(SumOf(init, ZeroCountAmount), ZeroCountAmount(last));
    } else {
      ZeroCountsAddUp(init);
      if last.count != 0 {
        var a, total := Exponential.MergeGroup(init).zeroCount, SumOf(ExponentialKept(init), ZeroCountAmount).i;
        SumOfSnoc(ExponentialKept(init), last, ZeroCountAmount);
        CongruentAdd64(a, last.zeroCount);
        CongruentSum(a, total, last.zeroCount, last.zeroCount);
        CongruentChain(Exponential.MergeGroup(dps).zeroCount, a + last.zeroCount, total + last.zeroCount);
      }
    }
  }

  /** The merged start time of explicit histograms is the earliest of the points that go into it. */
  lemma {:induction false} ExplicitStartIsEarliest(dps: seq<Explicit.HistPoint>)
    requires dps != [] && Explicit.MergeGroup(dps).Done?
    ensures var m, kept := Explicit.MergeGroup(dps).value, ExplicitKept(dps);
      (exists p :: p in kept && p.startTime == m.startTime) && forall p :: p in kept ==> m.startTime <= p.startTime
    decreases |dps|
  {
    if |dps| == 1 {
      assert dps[0] in ExplicitKept(dps);
    } else {
      var init, last := dps[..|dps| - 1], dps[|dps| - 1];
      ExplicitStartIsEarliest(init);
      assert forall p :: p in ExplicitKept(dps) <==> p in ExplicitKept(init) || (p == last && last.count != 0);
    }
  }

  // ------------------------------------------------------------ shared groups

  /** Explicit histograms are merged with each other exactly when all this is the same. */
  lemma ExplicitGroups(points: seq<Explicit.HistPoint>, useStartTime: bool, p: Explicit.HistPoint,
                       q: Explicit.HistPoint)
    requires p in points && q in points
    ensures var groups := Grouped(map[], points, x => Explicit.KeyOf(x, useStartTime));
      (exists k :: k in groups && p in groups[k] && q in groups[k]) <==>
      && p.attributes == q.attributes && p.timestamp == q.timestamp && p.bounds == q.bounds && p.flags == q.flags
      && p.hasMin == q.hasMin && p.hasMax == q.hasMax && (useStartTime ==> p.startTime == q.startTime)
  {
    SharedGroup(points, x => Explicit.KeyOf(x, useStartTime), p, q);
  }

  /** So are exponential ones; the scale is part of it, the offsets are not. */
  lemma ExponentialGroups(points: seq<Exponential.ExpPoint>, useStartTime: bool,
                          p: Exponential.ExpPoint, q: Exponential.ExpPoint)
    requires p in points && q in points
    ensures var groups := Grouped(map[], points, x => Exponential.KeyOf(x, useStartTime));
      (exists k :: k in groups && p in groups[k] && q in groups[k]) <==>
      && p.attributes == q.attributes && p.timestamp == q.timestamp && p.scale == q.scale && p.flags == q.flags
      && p.hasMin == q.hasMin && p.hasMax == q.hasMax && (useStartTime ==> p.startTime == q.startTime)
  {
    SharedGroup(points, x => Exponential.KeyOf(x, useStartTime), p, q);
  }
}
