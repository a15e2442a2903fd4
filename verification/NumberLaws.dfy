/** What the aggregates of number data points mean: extremes, means and medians of a group. */
module NumberLaws {
  import opened MachineInts
  import opened Grouping
  import opened Sorting
  import opened Numbers

  // ------------------------------------------------------------------ extremes

  /** Min and Max are values of the group, and no value lies beyond them. */
  lemma {:induction false} DoubleExtremes(vs: seq<real>)
    requires vs != []
    ensures AggregateDoubles(Min, vs) in vs && forall v :: v in vs ==> AggregateDoubles(Min, vs) <= v
    ensures AggregateDoubles(Max, vs) in vs && forall v :: v in vs ==> v <= AggregateDoubles(Max, vs)
  {
    FoldedDoubleExtreme(Min, vs, 0);
    FoldedDoubleExtreme(Max, vs, 0);
    DoublesFolded(Min, vs, 0);
    DoublesFolded(Max, vs, 0);
  }

  lemma {:induction false} IntExtremes(vs: seq<int64>, fields: seq<int64>)
    requires vs != [] && |fields| == |vs| < 0x8000_0000_0000_0000 && fields[0] == vs[0]
    ensures AggregateInts(Min, vs, fields) in vs && forall v :: v in vs ==> AggregateInts(Min, vs, fields) <= v
    ensures AggregateInts(Max, vs, fields) in vs && forall v :: v in vs ==> v <= AggregateInts(Max, vs, fields)
  {
    FoldedIntExtreme(Min, vs, fields, 0);
    FoldedIntExtreme(Max, vs, fields, 0);
    IntsFolded(Min, vs, fields, 0);
    IntsFolded(Max, vs, fields, 0);
  }

  // --------------------------------------------------------------------- means

  function Times(x: real, n: nat): real {
    x * (n as real)
  }

  lemma {:induction false} TimesNext(x: real, n: nat)
    ensures Times(x, n + 1) == Times(x, n) + x
  {
    assert (n + 1) as real == n as real + 1.0;
  }

  lemma {:induction false} SumIsBetween(vs: seq<real>, low: real, high: real)
    requires forall v :: v in vs ==> low <= v <= high
    ensures Times(low, |vs|) <= SumOf(vs, DoubleAmount).d <= Times(high, |vs|)
    decreases |vs|
  {
    if vs != [] {
      var init, last := vs[..|vs| - 1], vs[|vs| - 1];
      assert vs == init + [last] && last in vs;
      forall v | v in init ensures low <= v <= high {
        assert v in vs;
      }
      SumIsBetween(init, low, high);
      TimesNext(low, |init|);
      TimesNext(high, |init|);
    }
  }

  lemma {:induction false} QuotientBetween(sum: real, n: nat, low: real, high: real)
    requires n > 0 && Times(low, n) <= sum <= Times(high, n)
    ensures low <= sum / (n as real) <= high && sum / (n as real) * (n as real) == sum
  {
    var q := sum / (n as real);
    assert q * (n as real) == sum;
    assert (q - low) * (n as real) >= 0.0 && (high - q) * (n as real) >= 0.0;
  }

  /** The mean of doubles times their number is their total, and it lies between the extremes. */
  lemma {:induction false} DoubleMean(vs: seq<real>)
    requires vs != []
    ensures AggregateDoubles(Mean, vs) * (|vs| as real) == AggregateDoubles(Sum, vs) == SumOf(vs, DoubleAmount).d
    ensures AggregateDoubles(Min, vs) <= AggregateDoubles(Mean, vs) <= AggregateDoubles(Max, vs)
  {
    DoubleExtremes(vs);
    MeanBetween(vs, AggregateDoubles(Min, vs), AggregateDoubles(Max, vs));
  }

  lemma {:induction false} MeanBetween(vs: seq<real>, low: real, high: real)
    requires vs != [] && forall v :: v in vs ==> low <= v <= high
    ensures low <= AggregateDoubles(Mean, vs) <= high
    ensures AggregateDoubles(Mean, vs) * (|vs| as real) == AggregateDoubles(Sum, vs) == SumOf(vs, DoubleAmount).d
  {
    SumIsBetween(vs, low, high);
    QuotientBetween(SumOf(vs, DoubleAmount).d, |vs|, low, high);
    MeanIsQuotient(vs);
  }

  lemma {:induction false} MeanIsQuotient(vs: seq<real>)
    requires vs != []
    ensures AggregateDoubles(Mean, vs) == SumOf(vs, DoubleAmount).d / (|vs| as real)
    ensures AggregateDoubles(Sum, vs) == SumOf(vs, DoubleAmount).d
  {
  }

  /** The mean of integers is the wrapped sum over their number, cut off toward zero. */
  lemma {:induction false} IntMean(vs: seq<int64>, fields: seq<int64>)
    requires vs != [] && |fields| == |vs| < 0x8000_0000_0000_0000
    ensures var mean: int, sum: int := AggregateInts(Mean, vs, fields), AggregateInts(Sum, vs, fields);
      && (if sum >= 0 then mean * |vs| <= sum < mean * |vs| + |vs| else mean * |vs| - |vs| < sum <= mean * |vs|)
      && (sum >= 0 ==> mean >= 0) && (sum <= 0 ==> mean <= 0)
      && Congruent64(sum, SumOf(fields, IntAmount).i)
  {
    var sum: int := AggregateInts(Sum, vs, fields);
    TruncDivCuts(sum, |vs|);
    WrapInt64IsCongruent(SumOf(fields, IntAmount).i);
  }

  lemma {:induction false} TruncDivCuts(a: int, n: int)
    requires n > 0
    ensures var q := TruncDiv(a, n);
      && (if a >= 0 then q * n <= a < q * n + n else q * n - n < a <= q * n)
      && (a >= 0 ==> q >= 0) && (a <= 0 ==> q <= 0)
  {
    var b := if a >= 0 then a else -a;
    assert b == (b / n) * n + b % n;
  }

  function IntTimes(x: int, n: nat): int {
    x * n
  }

  lemma {:induction false} IntTimesNext(x: int, n: nat)
    ensures IntTimes(x, n + 1) == IntTimes(x, n) + x
  {
  }

  lemma {:induction false} IntSumIsBetween(vs: seq<int64>, low: int, high: int)
    requires forall v :: v in vs ==> low <= v <= high
    ensures IntTimes(low, |vs|) <= SumOf(vs, IntAmount).i <= IntTimes(high, |vs|)
    decreases |vs|
  {
    if vs != [] {
      var init, last := vs[..|vs| - 1], vs[|vs| - 1];
      assert vs == init + [last] && last in vs;
      forall v | v in init ensures low <= v <= high {
        assert v in vs;
      }
      IntSumIsBetween(init, low, high);
      IntTimesNext(low, |init|);
      IntTimesNext(high, |init|);
    }
  }

  lemma {:induction false} TimesStrict(a: int, b: int, n: nat)
    requires n > 0 && a < b
    ensures a * n < b * n
  {
    if n > 1 {
      TimesStrict(a, b, n - 1);
      assert a * n == a * (n - 1) + a && b * n == b * (n - 1) + b;
    }
  }

  lemma {:induction false} OrderOfTimes(a: int, b: int, n: nat)
    requires n > 0
    ensures a * n <= b * n ==> a <= b
    ensures a * n < b * n ==> a < b
  {
    if a < b {
      TimesStrict(a, b, n);
    } else if b < a {
      TimesStrict(b, a, n);
    }
  }

  lemma {:induction false} CutBetween(sum: int, n: nat, low: int, high: int, q: int)
    requires n > 0 && IntTimes(low, n) <= sum <= IntTimes(high, n)
    requires if sum >= 0 then q * n <= sum < q * n + n else q * n - n < sum <= q * n
    ensures low <= q <= high
  {
    assert (q + 1) * n == q * n + n && (q - 1) * n == q * n - n;
    OrderOfTimes(q, high, n);
    OrderOfTimes(q - 1, high, n);
    OrderOfTimes(low, q, n);
    OrderOfTimes(low, q + 1, n);
  }

  /** It lies between the extremes if the total fits 64 bits. */
  lemma {:induction false} IntMeanIsBetween(vs: seq<int64>)
    requires vs != [] && |vs| < 0x8000_0000_0000_0000
    requires -0x8000_0000_0000_0000 <= SumOf(vs, IntAmount).i < 0x8000_0000_0000_0000
    ensures AggregateInts(Min, vs, vs) <= AggregateInts(Mean, vs, vs) <= AggregateInts(Max, vs, vs)
  {
    var low, high := AggregateInts(Min, vs, vs), AggregateInts(Max, vs, vs);
    IntExtremes(vs, vs);
    IntSumIsBetween(vs, low, high);
    FittingSum(vs);
    IntMean(vs, vs);
    CutBetween(AggregateInts(Sum, vs, vs), |vs|, low, high, AggregateInts(Mean, vs, vs));
  }

  lemma {:induction false} FittingSum(vs: seq<int64>)
    requires vs != [] && |vs| < 0x8000_0000_0000_0000
    requires -0x8000_0000_0000_0000 <= SumOf(vs, IntAmount).i < 0x8000_0000_0000_0000
    ensures AggregateInts(Sum, vs, vs) == SumOf(vs, IntAmount).i
  {
  }

  lemma {:induction false} SumOfTwo(a: int64, b: int64)
    ensures SumOf([a, b], IntAmount).i == a + b
  {
    var none: seq<int64> := [];
    SumOfSnoc(none, a, IntAmount);
    SumOfSnoc([a], b, IntAmount);
    assert none + [a] == [a] && [a] + [b] == [a, b];
  }

  /** If it does not, the mean of two equal positive values is negative. */
  lemma {:induction false} IntMeanOverflows(v: int64)
    requires v >= 0x4000_0000_0000_0000
    ensures AggregateInts(Mean, [v, v], [v, v]) < 0
  {
    SumOfTwo(v, v);
    IntMean([v, v], [v, v]);
    assert WrapInt64(2 * v) == 2 * v - 0x1_0000_0000_0000_0000;
  }

  // ------------------------------------------------------------------- medians

  function Reflected(vs: seq<real>, c: real): seq<real> {
    seq(|vs|, i requires 0 <= i < |vs| => c - vs[i])
  }

  function Backward(s: seq<real>): seq<real> {
    seq(|s|, i requires 0 <= i < |s| => s[|s| - 1 - i])
  }

  lemma {:induction false} ReflectedCounts(a: seq<real>, c: real, x: real)
    ensures multiset(Reflected(a, c))[x] == multiset(a)[c - x]
    decreases |a|
  {
    if a != [] {
      var init, last := a[..|a| - 1], a[|a| - 1];
      ReflectedCounts(init, c, x);
      assert a == init + [last] && Reflected(a, c) == Reflected(init, c) + [c - last];
    }
  }

  lemma {:induction false} ReflectedMembers(a: seq<real>, b: seq<real>, c: real)
    requires multiset(a) == multiset(b)
    ensures multiset(Reflected(a, c)) == multiset(Reflected(b, c))
  {
    forall x ensures multiset(Reflected(a, c))[x] == multiset(Reflected(b, c))[x] {
      ReflectedCounts(a, c, x);
      ReflectedCounts(b, c, x);
    }
  }

  lemma {:induction false} BackwardMembers(s: seq<real>)
    ensures multiset(Backward(s)) == multiset(s)
  {
    if s != [] {
      BackwardMembers(s[1..]);
      assert Backward(s) == Backward(s[1..]) + [s[0]];
      assert s == [s[0]] + s[1..];
    }
  }

  /** The reflected values sort backward. */
  lemma {:induction false} ReflectedSorts(vs: seq<real>, c: real)
    ensures |Sort(vs, DoubleRank)| == |vs|
    ensures Sort(Reflected(vs, c), DoubleRank) == Reflected(Backward(Sort(vs, DoubleRank)), c)
  {
    var s := Sort(vs, DoubleRank);
    var back := Backward(s);
    SortSorts(vs, DoubleRank);
    SortSorts(Reflected(vs, c), DoubleRank);
    BackwardMembers(s);
    ReflectedMembers(back, vs, c);
    forall i, j | 0 <= i < j < |s| ensures DoubleRank(Reflected(back, c)[i]) <= DoubleRank(Reflected(back, c)[j]) {
      assert DoubleRank(s[|s| - 1 - j]) <= DoubleRank(s[|s| - 1 - i]);
    }
    SortedIsUnique(Sort(Reflected(vs, c), DoubleRank), Reflected(back, c), DoubleRank);
  }

  /** The median keeps its place when all values are reflected at a point: it favours neither side. */
  lemma {:induction false} MedianReflects(vs: seq<real>, c: real)
    requires vs != []
    ensures AggregateDoubles(Median, Reflected(vs, c)) == c - AggregateDoubles(Median, vs)
  {
    SortSorts(vs, DoubleRank);
    ReflectedSorts(vs, c);
    MiddleReflects(Sort(vs, DoubleRank), c);
  }

  lemma {:induction false} MiddleReflects(s: seq<real>, c: real)
    requires s != []
    ensures MiddleDouble(Reflected(Backward(s), c)) == c - MiddleDouble(s)
  {
    var t, m, n := Reflected(Backward(s), c), |s| / 2, |s|;
    if n % 2 != 0 {
      assert n - 1 - m == m && t[m] == c - s[n - 1 - m];
    } else {
      assert n - 1 - m == m - 1 && t[m] == c - s[n - 1 - m] && t[m - 1] == c - s[n - 1 - (m - 1)];
    }
  }

  /** The median of an even number of integers is half the sum of the two middle values, cut off toward zero. */
  lemma {:induction false} IntMedianIsMidway(vs: seq<int64>)
    requires vs != [] && |vs| < 0x8000_0000_0000_0000
    ensures |Sort(vs, IntRank)| == |vs|
    ensures var median: int, s := AggregateInts(Median, vs, vs), Sort(vs, IntRank);
      if |vs| % 2 != 0 then median == s[|vs| / 2]
      else
        var a: int, b: int := s[|vs| / 2 - 1], s[|vs| / 2];
        -0x8000_0000_0000_0000 <= a + b < 0x8000_0000_0000_0000 ==>
        if a + b >= 0 then 2 * median <= a + b <= 2 * median + 1 else 2 * median - 1 <= a + b <= 2 * median
  {
    SortSorts(vs, IntRank);
    if |vs| % 2 == 0 {
      var s := Sort(vs, IntRank);
      TruncDivCuts(AddInt64(s[|vs| / 2 - 1], s[|vs| / 2]), 2);
    }
  }

  // -------------------------------------------------------------- mixed groups

  /** The points that hold an integer. */
  function OnlyInts(dps: seq<NumberPoint>): seq<NumberPoint> {
    if dps == [] then []
    else
      var before, last := OnlyInts(dps[..|dps| - 1]), dps[|dps| - 1];
      if last.value.Int? then before + [last] else before
  }

  /** The integers of the points, added up; doubles count nothing. */
  function IntTotal(dps: seq<NumberPoint>): int {
    if dps == [] then 0
    else
      var last := dps[|dps| - 1].value;
      IntTotal(dps[..|dps| - 1]) + if last.Int? then last.i else 0
  }

  lemma {:induction false} FieldsLast(dps: seq<NumberPoint>)
    requires dps != []
    ensures SumOf(IntFields(dps), IntAmount) ==
            Plus(SumOf(IntFields(dps[..|dps| - 1]), IntAmount), Amount(IntField(dps[|dps| - 1].value), 0.0))
  {
    assert IntFields(dps)[..|dps| - 1] == IntFields(dps[..|dps| - 1]);
  }

  lemma {:induction false} FieldsTotal(dps: seq<NumberPoint>)
    ensures SumOf(IntFields(dps), IntAmount) == Amount(IntTotal(dps), 0.0)
    decreases |dps|
  {
    if dps != [] {
      FieldsTotal(dps[..|dps| - 1]);
      FieldsLast(dps);
    }
  }

  lemma {:induction false} OnlyIntsTotal(dps: seq<NumberPoint>)
    ensures IntTotal(OnlyInts(dps)) == IntTotal(dps) && |OnlyInts(dps)| <= |dps|
    decreases |dps|
  {
    if dps != [] {
      var init, last := dps[..|dps| - 1], dps[|dps| - 1];
      OnlyIntsTotal(init);
      assert (OnlyInts(init) + [last])[..|OnlyInts(init)|] == OnlyInts(init);
    }
  }

  lemma {:induction false} FirstIntStays(dps: seq<NumberPoint>)
    requires dps != [] && dps[0].value.Int?
    ensures OnlyInts(dps) != [] && OnlyInts(dps)[0] == dps[0]
    decreases |dps|
  {
    if |dps| > 1 {
      FirstIntStays(dps[..|dps| - 1]);
    } else {
      assert OnlyInts(dps[..0]) == [];
    }
  }

  /** In a group that starts with an integer, doubles are not added: the sum is that of the integer points. */
  lemma {:induction false} IntSumsLeaveOutDoubles(dps: seq<NumberPoint>)
    requires dps != [] && dps[0].value.Int? && |dps| < 0x8000_0000_0000_0000
    ensures OnlyInts(dps) != [] && |OnlyInts(dps)| <= |dps|
    ensures MergedValue(Sum, dps) == MergedValue(Sum, OnlyInts(dps)) == Int(WrapInt64(IntTotal(dps)))
  {
    OnlyIntsTotal(dps);
    FieldsTotal(dps);
    FieldsTotal(OnlyInts(dps));
    FirstIntStays(dps);
  }

  /** What a point counts for in a group that starts with a double: its number, or zero if it has none. */
  function Worth(p: NumberPoint): real {
    if p.value.Double? then p.value.d else if p.value.Int? then p.value.i as real else 0.0
  }

  function RealTotal(dps: seq<NumberPoint>): real {
    if dps == [] then 0.0 else RealTotal(dps[..|dps| - 1]) + Worth(dps[|dps| - 1])
  }

  lemma {:induction false} DoublesLast(dps: seq<NumberPoint>)
    requires dps != []
    ensures SumOf(Doubles(dps), DoubleAmount) ==
            Plus(SumOf(Doubles(dps[..|dps| - 1]), DoubleAmount), Amount(0, DoubleVal(dps[|dps| - 1].value)))
  {
    assert Doubles(dps)[..|dps| - 1] == Doubles(dps[..|dps| - 1]);
  }

  lemma {:induction false} DoublesTotal(dps: seq<NumberPoint>)
    ensures SumOf(Doubles(dps), DoubleAmount).d == RealTotal(dps)
    decreases |dps|
  {
    if dps != [] {
      DoublesTotal(dps[..|dps| - 1]);
      DoublesLast(dps);
    }
  }

  /** In a group that starts with a double, all numbers are added, integers too. */
  lemma {:induction false} DoubleSumsHaveAll(dps: seq<NumberPoint>)
    requires dps != [] && dps[0].value.Double? && |dps| < 0x8000_0000_0000_0000
    ensures MergedValue(Sum, dps) == Double(RealTotal(dps))
  {
    DoublesTotal(dps);
    MeanIsQuotient(Doubles(dps));
  }

  /** A point without a value counts as zero among the extremes. */
  lemma {:induction false} EmptyCountsAsZero(dps: seq<NumberPoint>, k: nat)
    requires k < |dps| < 0x8000_0000_0000_0000 && dps[k].value.Empty? && !dps[0].value.Empty?
    ensures var min, max := MergedValue(Min, dps), MergedValue(Max, dps);
      if dps[0].value.Double? then min.d <= 0.0 <= max.d else min.i <= 0 <= max.i
  {
    if dps[0].value.Double? {
      DoubleExtremes(Doubles(dps));
      assert Doubles(dps)[k] in Doubles(dps);
    } else {
      IntExtremes(Ints(dps), IntFields(dps));
      assert Ints(dps)[k] in Ints(dps);
    }
  }

  /** A double read as an integer is cut off toward zero if it is in range. */
  lemma {:induction false} DoublesAreCut(d: real)
    requires -9223372036854775808.0 <= d < 9223372036854775808.0
    ensures var i: int := IntVal(Double(d));
      if d >= 0.0 then i as real <= d < i as real + 1.0 else i as real - 1.0 < d <= i as real
  {
  }

  lemma {:induction false} MeanTimes(vs: seq<real>, n: nat)
    requires n == |vs| > 0
    ensures AggregateDoubles(Mean, vs) * (n as real) == AggregateDoubles(Sum, vs)
  {
    MeanIsQuotient(vs);
    TotalOfQuotient(SumOf(vs, DoubleAmount).d, n);
  }

  lemma TotalOfQuotient(sum: real, n: nat)
    requires n > 0
    ensures sum / (n as real) * (n as real) == sum
  {
  }

  /** The mean of a group that starts with a double, times its size, is the group's sum. */
  lemma {:induction false} MeanOfDoubleGroup(dps: seq<NumberPoint>)
    requires dps != [] && |dps| < 0x8000_0000_0000_0000 && dps[0].value.Double?
    ensures var mean, sum := MergedValue(Mean, dps), MergedValue(Sum, dps);
      mean.Double? && sum.Double? && mean.d * (|dps| as real) == sum.d
  {
    MeanTimes(Doubles(dps), |dps|);
  }

  /** In a group that starts with an integer the mean is that quotient, cut off toward zero. */
  lemma {:induction false} MeanOfIntGroup(dps: seq<NumberPoint>)
    requires dps != [] && |dps| < 0x8000_0000_0000_0000 && dps[0].value.Int?
    ensures var mean, sum := MergedValue(Mean, dps), MergedValue(Sum, dps);
      && mean.Int? && sum.Int?
      && if sum.i >= 0 then mean.i * |dps| <= sum.i < mean.i * |dps| + |dps|
         else mean.i * |dps| - |dps| < sum.i <= mean.i * |dps|
  {
    IntMean(Ints(dps), IntFields(dps));
  }

  /** Number points are merged with each other exactly when all this is the same. */
  lemma {:induction false} NumberGroups(points: seq<NumberPoint>, useStartTime: bool, p: NumberPoint, q: NumberPoint)
    requires p in points && q in points
    ensures var groups := Grouped(map[], points, x => KeyOf(x, useStartTime));
      (exists k :: k in groups && p in groups[k] && q in groups[k]) <==>
      p.attributes == q.attributes && p.timestamp == q.timestamp && (useStartTime ==> p.startTime == q.startTime)
  {
    SharedGroup(points, x => KeyOf(x, useStartTime), p, q);
  }
}
