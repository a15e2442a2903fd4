/** Merging number data points (aggregate.go, mergeNumberDataPoints and groupNumberDataPoints). */
module Numbers {
  import opened MachineInts
  import opened Grouping
  import opened Sorting

  datatype Value = Empty | Int(i: int64) | Double(d: real)

  datatype NumberPoint = NumberPoint(attributes: map<string, string>, timestamp: uint64, startTime: uint64,
                                     value: Value)

  datatype NumberKey = NumberKey(attributes: map<string, string>, timestamp: uint64, startTime: Start)

  datatype Aggregation = Sum | Mean | Min | Max | Median | Count

  function KeyOf(p: NumberPoint, useStartTime: bool): NumberKey {
    NumberKey(p.attributes, p.timestamp, if useStartTime then StartAt(p.startTime) else NoStart)
  }

  /** The value as a double, whatever its type. */
  function DoubleVal(v: Value): real {
    match v
    case Double(d) => d
    case Int(i) => i as real
    case Empty => 0.0
  }

  /** The value as an int64, whatever its type; doubles truncate toward zero and saturate low when out of range. */
  function IntVal(v: Value): int64 {
    match v
    case Double(d) =>
      var t := if d >= 0.0 then d.Floor else -((-d).Floor);
      if -0x8000_0000_0000_0000 <= t < 0x8000_0000_0000_0000 then t else -0x8000_0000_0000_0000
    case Int(i) => i
    case Empty => 0
  }

  /** What reading the integer field gives: zero unless the value is an integer. */
  function IntField(v: Value): int64 {
    if v.Int? then v.i else 0
  }

  function Doubles(dps: seq<NumberPoint>): seq<real> {
    seq(|dps|, k requires 0 <= k < |dps| => DoubleVal(dps[k].value))
  }

  function Ints(dps: seq<NumberPoint>): seq<int64> {
    seq(|dps|, k requires 0 <= k < |dps| => IntVal(dps[k].value))
  }

  function IntFields(dps: seq<NumberPoint>): seq<int64> {
    seq(|dps|, k requires 0 <= k < |dps| => IntField(dps[k].value))
  }

  function DoubleRank(d: real): real { d }

  function IntRank(i: int64): real { i as real }

  function DoubleAmount(d: real): Amount { Amount(0, d) }

  function IntAmount(i: int64): Amount { Amount(i, 0.0) }

  /** The middle of a sorted list: the average of the two middle values when there are two. */
  function MiddleDouble(s: seq<real>): real
    requires s != []
  {
    var m := |s| / 2;
    if |s| % 2 != 0 then s[m] else (s[m - 1] + s[m]) / 2.0
  }

  /** The same for int64: the sum of the two middle values may wrap, and the division truncates. */
  function MiddleInt(s: seq<int64>): int64
    requires s != []
  {
    var m := |s| / 2;
    if |s| % 2 != 0 then s[m] else TruncDiv(AddInt64(s[m - 1], s[m]), 2)
  }

  lemma {:induction false} TruncDivShrinks(a: int64, n: int)
    requires n > 0
    ensures -0x8000_0000_0000_0000 <= TruncDiv(a, n) < 0x8000_0000_0000_0000
  {
  }

  /** The aggregate of a group's values when its first value is a double. */
  function AggregateDoubles(agg: Aggregation, vs: seq<real>): real
    requires vs != []
  {
    SortSorts(vs, DoubleRank);
    match agg
    case Sum => SumOf(vs, DoubleAmount).d
    case Mean => SumOf(vs, DoubleAmount).d / (|vs| as real)
    case Min => Sort(vs, DoubleRank)[0]
    case Max => Sort(vs, DoubleRank)[|vs| - 1]
    case Median => MiddleDouble(Sort(vs, DoubleRank))
    case Count => if |vs| == 1 then vs[0] else |vs| as real
  }

  /** The aggregate when the first value is an int64; sums read the integer fields. */
  function AggregateInts(agg: Aggregation, vs: seq<int64>, fields: seq<int64>): int64
    requires vs != [] && |fields| == |vs| < 0x8000_0000_0000_0000
  {
    SortSorts(vs, IntRank);
    TruncDivShrinks(WrapInt64(SumOf(fields, IntAmount).i), |vs|);
    match agg
    case Sum => WrapInt64(SumOf(fields, IntAmount).i)
    case Mean => TruncDiv(WrapInt64(SumOf(fields, IntAmount).i), |vs|)
    case Min => Sort(vs, IntRank)[0]
    case Max => Sort(vs, IntRank)[|vs| - 1]
    case Median => MiddleInt(Sort(vs, IntRank))
    case Count => if |vs| == 1 then vs[0] else |vs|
  }

  /** The earliest start time of a group. */
  function EarliestStart(dps: seq<NumberPoint>): uint64
    requires dps != []
  {
    var last := dps[|dps| - 1].startTime;
    if |dps| == 1 then last
    else
      var before := EarliestStart(dps[..|dps| - 1]);
      if last < before then last else before
  }

  /** One round of the merge loop over doubles; n is the size of the whole group. */
  function StepDouble(agg: Aggregation, cur: real, v: real, n: nat): real {
    match agg
    case Sum => cur + v
    case Mean => cur + v
    case Max => if cur < v then v else cur
    case Min => if v < cur then v else cur
    case Median => cur
    case Count => n as real
  }

  function StepInt(agg: Aggregation, cur: int64, v: int64, field: int64, n: int64): int64 {
    match agg
    case Sum => AddInt64(cur, field)
    case Mean => AddInt64(cur, field)
    case Max => if cur < v then v else cur
    case Min => if cur > v then v else cur
    case Median => cur
    case Count => n
  }

  /** The value the loop has reached after the points vs. */
  function FoldDoubles(agg: Aggregation, vs: seq<real>, n: nat): real
    requires vs != []
  {
    if |vs| == 1 then vs[0] else StepDouble(agg, FoldDoubles(agg, vs[..|vs| - 1], n), vs[|vs| - 1], n)
  }

  function FoldInts(agg: Aggregation, vs: seq<int64>, fields: seq<int64>, n: int64): int64
    requires vs != [] && |fields| == |vs|
  {
    var last := |vs| - 1;
    if |vs| == 1 then vs[0]
    else StepInt(agg, FoldInts(agg, vs[..last], fields[..last], n), vs[last], fields[last], n)
  }

  lemma {:induction false} FoldDoublesStep(agg: Aggregation, vs: seq<real>, i: nat, n: nat)
    requires 0 < i < |vs|
    ensures FoldDoubles(agg, vs[..i + 1], n) == StepDouble(agg, FoldDoubles(agg, vs[..i], n), vs[i], n)
  {
    assert vs[..i + 1][..i] == vs[..i];
  }

  lemma {:induction false} FoldIntsStep(agg: Aggregation, vs: seq<int64>, fields: seq<int64>, i: nat, n: int64)
    requires 0 < i < |vs| == |fields|
    ensures FoldInts(agg, vs[..i + 1], fields[..i + 1], n) ==
            StepInt(agg, FoldInts(agg, vs[..i], fields[..i], n), vs[i], fields[i], n)
  {
    assert vs[..i + 1][..i] == vs[..i] && fields[..i + 1][..i] == fields[..i];
  }

  lemma {:induction false} StartStep(dps: seq<NumberPoint>, i: nat)
    requires 0 < i < |dps|
    ensures var before := EarliestStart(dps[..i]);
      EarliestStart(dps[..i + 1]) == if dps[i].startTime < before then dps[i].startTime else before
  {
    assert dps[..i + 1][..i] == dps[..i];
  }

  /** A merged output point: its value and start time are updated in place. */
  class NumberDataPoint {
    const first: NumberPoint
    var value: Value
    var startTime: uint64

    constructor (p: NumberPoint)
      ensures first == p && value == p.value && startTime == p.startTime
    {
      first, value, startTime := p, p.value, p.startTime;
    }

    ghost function View(): NumberPoint
      reads this
    {
      first.(value := value, startTime := startTime)
    }

    /**
     * The loop over the group's other points when the first is a double; returns the numbers gathered for the median.
     */
    method ScanDoubles(agg: Aggregation, dps: seq<NumberPoint>) returns (medianNumbers: seq<real>)
      requires dps != [] && View() == dps[0] == first && dps[0].value.Double?
      modifies this
      ensures value == Double(FoldDoubles(agg, Doubles(dps), |dps|)) && startTime == EarliestStart(dps)
      ensures agg == Median ==> medianNumbers == Doubles(dps)
    {
      ghost var vs := Doubles(dps);
      medianNumbers := [value.d];
      var i := 1;
      while i < |dps|
        invariant 1 <= i <= |dps|
        invariant startTime == EarliestStart(dps[..i])
        invariant value == Double(FoldDoubles(agg, vs[..i], |dps|))
        invariant agg == Median ==> medianNumbers == vs[..i]
      {
        StartStep(dps, i);
        FoldDoublesStep(agg, vs, i, |dps|);
        var v := DoubleVal(dps[i].value);
        match agg {
          case Sum => value := Double(value.d + v);
          case Mean => value := Double(value.d + v);
          case Max => value := Double(if value.d < v then v else value.d);
          case Min => value := Double(if v < value.d then v else value.d);
          case Median => medianNumbers := medianNumbers + [v];
          case Count => value := Double(|dps| as real);
        }
        if dps[i].startTime < startTime {
          startTime := dps[i].startTime;
        }
        i := i + 1;
      }
      assert dps[..i] == dps && vs[..i] == vs;
    }

    /** Folds a group that starts with a double into this point. */
    method MergeDoubles(agg: Aggregation, dps: seq<NumberPoint>)
      requires dps != [] && View() == dps[0] == first && dps[0].value.Double?
      modifies this
      ensures value == Double(AggregateDoubles(agg, Doubles(dps))) && startTime == EarliestStart(dps)
    {
      var medianNumbers := ScanDoubles(agg, dps);
      DoublesFolded(agg, Doubles(dps), |dps|);
      if agg == Mean {
        value := Double(value.d / (|dps| as real));
      }
      if agg == Median {
        var m := MedianOfDoubles(medianNumbers);
        value := Double(m);
      }
    }

    /** The same loop when the first point is an int64. */
    method ScanInts(agg: Aggregation, dps: seq<NumberPoint>) returns (medianNumbers: seq<int64>)
      requires dps != [] && View() == dps[0] == first && dps[0].value.Int?
      requires |dps| < 0x8000_0000_0000_0000
      modifies this
      ensures value == Int(FoldInts(agg, Ints(dps), IntFields(dps), |dps|)) && startTime == EarliestStart(dps)
      ensures agg == Median ==> medianNumbers == Ints(dps)
    {
      ghost var vs, fields := Ints(dps), IntFields(dps);
      medianNumbers := [value.i];
      var i := 1;
      while i < |dps|
        invariant 1 <= i <= |dps|
        invariant startTime == EarliestStart(dps[..i])
        invariant value == Int(FoldInts(agg, vs[..i], fields[..i], |dps|))
        invariant agg == Median ==> medianNumbers == vs[..i]
      {
        StartStep(dps, i);
        FoldIntsStep(agg, vs, fields, i, |dps|);
        var v := IntVal(dps[i].value);
        match agg {
          case Sum => value := Int(AddInt64(value.i, IntField(dps[i].value)));
          case Mean => value := Int(AddInt64(value.i, IntField(dps[i].value)));
          case Max => if value.i < v { value := Int(v); }
          case Min => if value.i > v { value := Int(v); }
          case Median => medianNumbers := medianNumbers + [v];
          case Count => value := Int(|dps|);
        }
        if dps[i].startTime < startTime {
          startTime := dps[i].startTime;
        }
        i := i + 1;
      }
      assert dps[..i] == dps && vs[..i] == vs && fields[..i] == fields;
    }

    /** Folds a group that starts with an int64 into this point. */
    method MergeInts(agg: Aggregation, dps: seq<NumberPoint>)
      requires dps != [] && View() == dps[0] == first && dps[0].value.Int?
      requires |dps| < 0x8000_0000_0000_0000
      modifies this
      ensures value.Int? && value.i == AggregateInts(agg, Ints(dps), IntFields(dps)) && startTime == EarliestStart(dps)
    {
      var medianNumbers := ScanInts(agg, dps);
      IntsFolded(agg, Ints(dps), IntFields(dps), |dps|);
      if agg == Median {
        var m := MedianOfInts(medianNumbers);
        value := Int(m);
      }
      if agg == Mean {
        TruncDivShrinks(value.i, |dps|);
        value := Int(TruncDiv(value.i, |dps|));
      }
    }
  }

  method MedianOfDoubles(medianNumbers: seq<real>) returns (m: real)
    requires medianNumbers != []
    ensures |Sort(medianNumbers, DoubleRank)| == |medianNumbers|
    ensures m == MiddleDouble(Sort(medianNumbers, DoubleRank))
  {
    SortSorts(medianNumbers, DoubleRank);
    if |medianNumbers| == 1 {
      m := medianNumbers[0];
    } else {
      var sorted := Sort(medianNumbers, DoubleRank);
      var mNumber := |medianNumbers| / 2;
      if |medianNumbers| % 2 != 0 {
        m := sorted[mNumber];
      } else {
        m := (sorted[mNumber - 1] + sorted[mNumber]) / 2.0;
      }
    }
  }

  method MedianOfInts(medianNumbers: seq<int64>) returns (m: int64)
    requires medianNumbers != []
    ensures |Sort(medianNumbers, IntRank)| == |medianNumbers|
    ensures m == MiddleInt(Sort(medianNumbers, IntRank))
  {
    SortSorts(medianNumbers, IntRank);
    if |medianNumbers| == 1 {
      m := medianNumbers[0];
    } else {
      var sorted := Sort(medianNumbers, IntRank);
      var mNumber := |medianNumbers| / 2;
      if |medianNumbers| % 2 != 0 {
        m := sorted[mNumber];
      } else {
        TruncDivShrinks(AddInt64(sorted[mNumber - 1], sorted[mNumber]), 2);
        m := TruncDiv(AddInt64(sorted[mNumber - 1], sorted[mNumber]), 2);
      }
    }
  }

  /** The value a group is merged into: a group whose first point has no value keeps none. */
  function MergedValue(agg: Aggregation, dps: seq<NumberPoint>): Value
    requires dps != [] && |dps| < 0x8000_0000_0000_0000
  {
    match dps[0].value
    case Empty => Empty
    case Double(_) => Double(AggregateDoubles(agg, Doubles(dps)))
    case Int(_) => Int(AggregateInts(agg, Ints(dps), IntFields(dps)))
  }

  function MergeGroup(agg: Aggregation, dps: seq<NumberPoint>): NumberPoint
    requires dps != [] && |dps| < 0x8000_0000_0000_0000
  {
    dps[0].(value := MergedValue(agg, dps),
      startTime := if dps[0].value.Empty? then dps[0].startTime else EarliestStart(dps))
  }

  method MergeOneGroup(agg: Aggregation, dps: seq<NumberPoint>) returns (dp: NumberDataPoint)
    requires dps != [] && |dps| < 0x8000_0000_0000_0000
    ensures fresh(dp) && dp.View() == MergeGroup(agg, dps)
  {
    dp := new NumberDataPoint(dps[0]);
    match dp.value {
      case Double(_) => dp.MergeDoubles(agg, dps);
      case Int(_) => dp.MergeInts(agg, dps);
      case Empty =>
    }
  }

  /** One output point per group, in the order the map iteration happens to take. */
  method MergeGroups(agg: Aggregation, groups: map<NumberKey, seq<NumberPoint>>)
    returns (to: seq<NumberDataPoint>, ghost order: seq<NumberKey>)
    requires forall k :: k in groups ==> groups[k] != [] && |groups[k]| < 0x8000_0000_0000_0000
    ensures Enumerates(order, groups.Keys) && |to| == |order|
    ensures forall i :: 0 <= i < |to| ==> to[i].View() == MergeGroup(agg, groups[order[i]])
  {
    to, order := [], [];
    var rest := groups.Keys;
    while rest != {}
      invariant rest <= groups.Keys && |to| == |order|
      invariant Enumerates(order, groups.Keys - rest)
      invariant forall i :: 0 <= i < |order| ==> order[i] in groups.Keys - rest
      invariant forall i :: 0 <= i < |to| ==> to[i].View() == MergeGroup(agg, groups[order[i]])
      decreases rest
    {
      var k :| k in rest;
      var dp := MergeOneGroup(agg, groups[k]);
      to, order, rest := to + [dp], order + [k], rest - {k};
    }
  }

  /** The loop over doubles computes the sum, the extremes and the count. */
  lemma {:induction false} DoublesFolded(agg: Aggregation, vs: seq<real>, n: nat)
    requires vs != []
    ensures |Sort(vs, DoubleRank)| == |vs|
    ensures agg == Sum || agg == Mean ==> FoldDoubles(agg, vs, n) == SumOf(vs, DoubleAmount).d
    ensures agg == Max ==> FoldDoubles(agg, vs, n) == Sort(vs, DoubleRank)[|vs| - 1]
    ensures agg == Min ==> FoldDoubles(agg, vs, n) == Sort(vs, DoubleRank)[0]
    ensures agg == Count ==> FoldDoubles(agg, vs, n) == if |vs| == 1 then vs[0] else n as real
  {
    SortSorts(vs, DoubleRank);
    match agg {
      case Sum => DoublesSummed(agg, vs, n);
      case Mean => DoublesSummed(agg, vs, n);
      case Max =>
        FoldedDoubleExtreme(agg, vs, n);
        GreatestSortsLast(vs, DoubleRank, FoldDoubles(agg, vs, n));
      case Min =>
        FoldedDoubleExtreme(agg, vs, n);
        LeastSortsFirst(vs, DoubleRank, FoldDoubles(agg, vs, n));
      case _ =>
    }
  }

  lemma {:induction false} DoublesSummed(agg: Aggregation, vs: seq<real>, n: nat)
    requires vs != [] && (agg == Sum || agg == Mean)
    ensures FoldDoubles(agg, vs, n) == SumOf(vs, DoubleAmount).d
  {
    if |vs| == 1 {
      assert SumOf(vs, DoubleAmount) == Plus(ZERO, DoubleAmount(vs[0]));
    } else {
      DoublesSummed(agg, vs[..|vs| - 1], n);
    }
  }

  lemma {:induction false} FoldedDoubleExtreme(agg: Aggregation, vs: seq<real>, n: nat)
    requires vs != [] && (agg == Max || agg == Min)
    ensures FoldDoubles(agg, vs, n) in vs
    ensures forall k :: 0 <= k < |vs| ==>
      if agg == Max then vs[k] <= FoldDoubles(agg, vs, n) else FoldDoubles(agg, vs, n) <= vs[k]
  {
    if |vs| > 1 {
      var init := vs[..|vs| - 1];
      FoldedDoubleExtreme(agg, init, n);
      assert vs == init + [vs[|vs| - 1]];
    }
  }

  /** The loop over integers computes the wrapped sum, the extremes and the count. */
  lemma {:induction false} IntsFolded(agg: Aggregation, vs: seq<int64>, fields: seq<int64>, n: int64)
    requires vs != [] && |fields| == |vs| && fields[0] == vs[0]
    ensures |Sort(vs, IntRank)| == |vs|
    ensures agg == Sum || agg == Mean ==> FoldInts(agg, vs, fields, n) == WrapInt64(SumOf(fields, IntAmount).i)
    ensures agg == Max ==> FoldInts(agg, vs, fields, n) == Sort(vs, IntRank)[|vs| - 1]
    ensures agg == Min ==> FoldInts(agg, vs, fields, n) == Sort(vs, IntRank)[0]
    ensures agg == Count ==> FoldInts(agg, vs, fields, n) == if |vs| == 1 then vs[0] else n
  {
    SortSorts(vs, IntRank);
    match agg {
      case Sum => IntsSummed(agg, vs, fields, n);
      case Mean => IntsSummed(agg, vs, fields, n);
      case Max =>
        FoldedIntExtreme(agg, vs, fields, n);
        GreatestSortsLast(vs, IntRank, FoldInts(agg, vs, fields, n));
      case Min =>
        FoldedIntExtreme(agg, vs, fields, n);
        LeastSortsFirst(vs, IntRank, FoldInts(agg, vs, fields, n));
      case _ =>
    }
  }

  lemma {:induction false} IntsSummed(agg: Aggregation, vs: seq<int64>, fields: seq<int64>, n: int64)
    requires vs != [] && |fields| == |vs| && fields[0] == vs[0] && (agg == Sum || agg == Mean)
    ensures FoldInts(agg, vs, fields, n) == WrapInt64(SumOf(fields, IntAmount).i)
  {
    var last := |vs| - 1;
    if last == 0 {
      assert SumOf(fields, IntAmount) == Plus(ZERO, IntAmount(fields[0]));
    } else {
      IntsSummed(agg, vs[..last], fields[..last], n);
      WrapInt64Absorbs(SumOf(fields[..last], IntAmount).i, fields[last]);
    }
  }

  lemma {:induction false} FoldedIntExtreme(agg: Aggregation, vs: seq<int64>, fields: seq<int64>, n: int64)
    requires vs != [] && |fields| == |vs| && (agg == Max || agg == Min)
    ensures FoldInts(agg, vs, fields, n) in vs
    ensures forall k :: 0 <= k < |vs| ==>
      if agg == Max then vs[k] <= FoldInts(agg, vs, fields, n) else FoldInts(agg, vs, fields, n) <= vs[k]
  {
    var last := |vs| - 1;
    if last > 0 {
      FoldedIntExtreme(agg, vs[..last], fields[..last], n);
      assert vs == vs[..last] + [vs[last]];
    }
  }

  // ----------------------------------------------------------------- the laws

  /** For doubles every aggregate except a single point's count depends on the multiset of values only. */
  lemma {:induction false} DoublesAreOrderFree(agg: Aggregation, vs: seq<real>, ws: seq<real>)
    requires vs != [] && ws != [] && multiset(vs) == multiset(ws)
    ensures AggregateDoubles(agg, vs) == AggregateDoubles(agg, ws)
  {
    assert |vs| == |multiset(vs)| == |multiset(ws)| == |ws|;
    SumOfIsOrderFree(vs, ws, DoubleAmount);
    SortIsOrderFree(vs, ws, DoubleRank);
    if |vs| == 1 {
      assert vs[0] in multiset(ws);
    }
  }

  /** The same for integers of one value type, where the integer fields are the values. */
  lemma {:induction false} IntsAreOrderFree(agg: Aggregation, vs: seq<int64>, ws: seq<int64>)
    requires vs != [] && ws != [] && multiset(vs) == multiset(ws) && |vs| < 0x8000_0000_0000_0000
    ensures |ws| == |vs|
    ensures AggregateInts(agg, vs, vs) == AggregateInts(agg, ws, ws)
  {
    assert |vs| == |multiset(vs)| == |multiset(ws)| == |ws|;
    SumOfIsOrderFree(vs, ws, IntAmount);
    SortIsOrderFree(vs, ws, IntRank);
    if |vs| == 1 {
      assert vs[0] in multiset(ws);
    }
  }

  lemma {:induction false} MiddleOfSorted(s: seq<real>, i: nat)
    requires Sorted(s, DoubleRank) && i < |s|
    ensures i < (|s| + 1) / 2 ==> s[i] <= MiddleDouble(s)
    ensures i >= |s| / 2 ==> MiddleDouble(s) <= s[i]
  {
    var m := |s| / 2;
    assert i < m ==> DoubleRank(s[i]) <= DoubleRank(s[m]);
    assert i < m - 1 ==> DoubleRank(s[i]) <= DoubleRank(s[m - 1]);
    assert m < i ==> DoubleRank(s[m]) <= DoubleRank(s[i]);
    assert m > 0 ==> DoubleRank(s[m - 1]) <= DoubleRank(s[m]);
  }

  /** The median of doubles splits the sorted values: at least half lie on either side of it. */
  lemma {:induction false} MedianSplitsDoubles(vs: seq<real>)
    requires vs != []
    ensures var m, s := AggregateDoubles(Median, vs), Sort(vs, DoubleRank);
      multiset(s) == multiset(vs) && |s| == |vs| &&
      (forall i :: 0 <= i < (|vs| + 1) / 2 ==> s[i] <= m) && (forall i :: |vs| / 2 <= i < |vs| ==> m <= s[i])
  {
    SortSorts(vs, DoubleRank);
    var s := Sort(vs, DoubleRank);
    forall i | 0 <= i < |s|
      ensures i < (|s| + 1) / 2 ==> s[i] <= MiddleDouble(s)
      ensures i >= |s| / 2 ==> MiddleDouble(s) <= s[i]
    {
      MiddleOfSorted(s, i);
    }
  }

  /**
   * With an even number of integers the median lies between the two middle values exactly when their sum does not
   * overflow.
   */
  lemma {:induction false} IntMedianIsBetween(vs: seq<int64>)
    requires vs != [] && |vs| % 2 == 0 && |vs| < 0x8000_0000_0000_0000
    ensures |Sort(vs, IntRank)| == |vs|
    ensures var m, s := AggregateInts(Median, vs, vs), Sort(vs, IntRank);
      var a: int, b: int := s[|vs| / 2 - 1], s[|vs| / 2];
      a <= m <= b <==> -0x8000_0000_0000_0000 <= a + b < 0x8000_0000_0000_0000
  {
    SortSorts(vs, IntRank);
    var s := Sort(vs, IntRank);
    assert IntRank(s[|vs| / 2 - 1]) <= IntRank(s[|vs| / 2]);
  }

  /** Count gives the number of points except for a single point, whose value is left as it was. */
  lemma {:induction false} CountCounts(vs: seq<real>)
    requires vs != []
    ensures AggregateDoubles(Count, vs) == |vs| as real <==> |vs| != 1 || vs[0] == 1.0
  {
  }

  lemma {:induction false} CountCountsInts(vs: seq<int64>, fields: seq<int64>)
    requires vs != [] && |fields| == |vs| < 0x8000_0000_0000_0000
    ensures AggregateInts(Count, vs, fields) == |vs| <==> |vs| != 1 || vs[0] == 1
  {
  }

  /** Over a group: counting gives the number of points unless there is one point, or the first point has no value. */
  lemma {:induction false} CountOfAGroup(dps: seq<NumberPoint>)
    requires dps != [] && |dps| < 0x8000_0000_0000_0000
    ensures var v := MergedValue(Count, dps);
      (v == Double(|dps| as real) || v == Int(|dps|)) <==>
      !dps[0].value.Empty? && (|dps| != 1 || dps[0].value == Double(1.0) || dps[0].value == Int(1))
    ensures MergedValue(Count, dps).Double? == dps[0].value.Double? && MergedValue(Count, dps).Int? == dps[0].value.Int?
  {
    match dps[0].value
    case Empty =>
    case Double(_) => CountCounts(Doubles(dps));
    case Int(_) => CountCountsInts(Ints(dps), IntFields(dps));
  }

  /** The merged start time is the earliest in the group and is one of the group's. */
  lemma {:induction false} EarliestStartIsLeast(dps: seq<NumberPoint>) returns (i: nat)
    requires dps != []
    ensures forall k :: 0 <= k < |dps| ==> EarliestStart(dps) <= dps[k].startTime
    ensures i < |dps| && EarliestStart(dps) == dps[i].startTime
  {
    var last := |dps| - 1;
    if last == 0 {
      i := 0;
    } else {
      i := EarliestStartIsLeast(dps[..last]);
      assert forall k :: 0 <= k < last ==> dps[..last][k] == dps[k];
      i := if EarliestStart(dps) == dps[last].startTime then last else i;
    }
  }

  /** Integer and double values, added up side by side. */
  function ValueAmount(p: NumberPoint): Amount {
    match p.value
    case Int(i) => Amount(i, 0.0)
    case Double(d) => Amount(0, d)
    case Empty => ZERO
  }

  /** All points carry the same kind of value. */
  ghost predicate OneType(dps: seq<NumberPoint>) {
    (forall p :: p in dps ==> p.value.Int?) || (forall p :: p in dps ==> p.value.Double?)
  }

  lemma {:induction false} SumOfDoublePoints(dps: seq<NumberPoint>)
    requires forall p :: p in dps ==> p.value.Double?
    ensures SumOf(dps, ValueAmount) == SumOf(Doubles(dps), DoubleAmount)
  {
    if dps != [] {
      SumOfDoublePoints(dps[..|dps| - 1]);
      assert Doubles(dps)[..|dps| - 1] == Doubles(dps[..|dps| - 1]);
    }
  }

  lemma {:induction false} SumOfIntPoints(dps: seq<NumberPoint>)
    requires forall p :: p in dps ==> p.value.Int?
    ensures SumOf(dps, ValueAmount) == SumOf(IntFields(dps), IntAmount)
  {
    if dps != [] {
      SumOfIntPoints(dps[..|dps| - 1]);
      assert IntFields(dps)[..|dps| - 1] == IntFields(dps[..|dps| - 1]);
    }
  }

  /** The same kind of amount: equal doubles, integers equal modulo 2^64. */
  ghost predicate SameAmount(a: Amount, b: Amount) {
    Congruent64(a.i, b.i) && a.d == b.d
  }

  /** Summing a group of one value type gives the group's total. */
  lemma {:induction false} SumOfAGroup(dps: seq<NumberPoint>)
    requires dps != [] && OneType(dps) && |dps| < 0x8000_0000_0000_0000
    ensures SameAmount(ValueAmount(MergeGroup(Sum, dps)), SumOf(dps, ValueAmount))
  {
    assert dps[0] in dps;
    if dps[0].value.Double? {
      SumOfDoublePoints(dps);
      DoubleSumsHaveNoInts(Doubles(dps));
      CongruentSelf(0);
    } else {
      SumOfIntPoints(dps);
      IntSumsHaveNoDoubles(IntFields(dps));
      WrapInt64IsCongruent(SumOf(IntFields(dps), IntAmount).i);
    }
  }

  lemma {:induction false} DoubleSumsHaveNoInts(vs: seq<real>)
    ensures SumOf(vs, DoubleAmount).i == 0
  {
    if vs != [] {
      DoubleSumsHaveNoInts(vs[..|vs| - 1]);
    }
  }

  lemma {:induction false} IntSumsHaveNoDoubles(vs: seq<int64>)
    ensures SumOf(vs, IntAmount).d == 0.0
  {
    if vs != [] {
      IntSumsHaveNoDoubles(vs[..|vs| - 1]);
    }
  }

  /** The total over the summed output points, in the order they were produced. */
  function OutputTotal(order: seq<NumberKey>, groups: map<NumberKey, seq<NumberPoint>>): Amount
    requires forall k :: k in order ==> k in groups && groups[k] != [] && |groups[k]| < 0x8000_0000_0000_0000
  {
    if order == [] then ZERO
    else Plus(OutputTotal(order[..|order| - 1], groups), ValueAmount(MergeGroup(Sum, groups[order[|order| - 1]])))
  }

  lemma {:induction false} OutputTotalIsGrandTotal(order: seq<NumberKey>, groups: map<NumberKey, seq<NumberPoint>>)
    requires forall k :: k in order ==>
      k in groups && groups[k] != [] && |groups[k]| < 0x8000_0000_0000_0000 && OneType(groups[k])
    ensures SameAmount(OutputTotal(order, groups), GrandTotal(order, groups, ValueAmount))
  {
    if order == [] {
      CongruentSelf(0);
    } else {
      var init, last := order[..|order| - 1], order[|order| - 1];
      OutputTotalIsGrandTotal(init, groups);
      SumOfAGroup(groups[last]);
      CongruentSum(OutputTotal(init, groups).i, GrandTotal(init, groups, ValueAmount).i,
        ValueAmount(MergeGroup(Sum, groups[last])).i, SumOf(groups[last], ValueAmount).i);
    }
  }

  lemma {:induction false} WithKeyIsShorter(points: seq<NumberPoint>, key: NumberPoint -> NumberKey, k: NumberKey)
    ensures |WithKey(points, key, k)| <= |points|
  {
    if points != [] {
      WithKeyIsShorter(points[..|points| - 1], key, k);
    }
  }

  /** Grouping and summing points of one value type keeps the grand total, for any map iteration order. */
  lemma {:induction false} AggregationKeepsTheTotal(points: seq<NumberPoint>, useStartTime: bool, order: seq<NumberKey>)
    requires OneType(points) && |points| < 0x8000_0000_0000_0000
    requires Enumerates(order, Grouped(map[], points, p => KeyOf(p, useStartTime)).Keys)
    ensures var groups := Grouped(map[], points, p => KeyOf(p, useStartTime));
      (forall k :: k in order ==> k in groups && groups[k] != [] && |groups[k]| < 0x8000_0000_0000_0000) &&
      SameAmount(OutputTotal(order, groups), SumOf(points, ValueAmount))
  {
    var key := (p: NumberPoint) => KeyOf(p, useStartTime);
    var groups := Grouped(map[], points, key);
    assert groups == Grouped(map[], points, p => KeyOf(p, useStartTime));
    forall k | k in order
      ensures k in groups && groups[k] != [] && |groups[k]| < 0x8000_0000_0000_0000 && OneType(groups[k])
    {
      GroupsPartition(map[], points, key, k);
      WithKeyMembers(points, key, k);
      WithKeyIsShorter(points, key, k);
    }
    EnumerationCovers(order, points, key);
    GroupTotalsAddUp(order, points, key, ValueAmount);
    OutputTotalIsGrandTotal(order, groups);
  }
}
