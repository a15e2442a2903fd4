/** Dynamic thresholds (processor/adaptivetelemetryprocessor/dynamic_thresholds.go). */
module DynamicThresholds {
  import opened AdaptiveConfig
  import opened AdaptiveModel

  const SCALING: real := 0.2

  datatype Kind = Gauge | Sum | Other

  /** One metric of a batch; a point is what reading its double field gives. */
  datatype Metric = Metric(name: string, kind: Kind, points: seq<real>)

  datatype MetricAverage = MetricAverage(avg: real, count: nat)

  // ----------------------------------------------------------------- averages

  predicate CountsFor(m: Metric, name: string) {
    m.name == name && m.kind == Gauge && m.points != []
  }

  /** The values of all gauges of that name, added up. */
  function GaugeTotal(metrics: seq<Metric>, name: string): real {
    if metrics == [] then 0.0
    else
      var last := metrics[|metrics| - 1];
      GaugeTotal(metrics[..|metrics| - 1], name) + if CountsFor(last, name) then SumReals(last.points) else 0.0
  }

  /** How many nonempty gauges have that name. */
  function GaugeCount(metrics: seq<Metric>, name: string): nat {
    if metrics == [] then 0
    else GaugeCount(metrics[..|metrics| - 1], name) + if CountsFor(metrics[|metrics| - 1], name) then 1 else 0
  }

  method SumPoints(points: seq<real>) returns (sum: real)
    ensures sum == SumReals(points)
  {
    sum := 0.0;
    var d := 0;
    while d < |points|
      invariant 0 <= d <= |points| && sum == SumReals(points[..d])
    {
      assert points[..d + 1][..d] == points[..d];
      sum := sum + points[d];
      d := d + 1;
    }
    assert points[..d] == points;
  }

  /** The accumulating loop: totals and counts per configured metric. */
  method CollectTotals(cfg: Settings, metrics: seq<Metric>) returns (totals: map<string, MetricAverage>)
    ensures forall n :: n in totals <==> n in cfg.metricThresholds && GaugeCount(metrics, n) > 0
    ensures forall n :: n in totals ==> totals[n] == MetricAverage(GaugeTotal(metrics, n), GaugeCount(metrics, n))
  {
    totals := map[];
    var i := 0;
    while i < |metrics|
      invariant 0 <= i <= |metrics|
      invariant forall n :: n in totals <==> n in cfg.metricThresholds && GaugeCount(metrics[..i], n) > 0
      invariant forall n :: n in totals ==>
        totals[n] == MetricAverage(GaugeTotal(metrics[..i], n), GaugeCount(metrics[..i], n))
      invariant forall n :: GaugeCount(metrics[..i], n) == 0 ==> GaugeTotal(metrics[..i], n) == 0.0
    {
      assert metrics[..i + 1][..i] == metrics[..i];
      var m := metrics[i];
      if m.name in cfg.metricThresholds && m.kind == Gauge && m.points != [] {
        var sum := SumPoints(m.points);
        var val := if m.name in totals then totals[m.name] else MetricAverage(0.0, 0);
        totals := totals[m.name := MetricAverage(val.avg + sum, val.count + 1)];
      }
      i := i + 1;
    }
    assert metrics[..i] == metrics;
  }

  /** Totals divided by counts, in whatever order the map is visited. */
  method ComputeMetricAverages(cfg: Settings, metrics: seq<Metric>) returns (avgs: map<string, MetricAverage>)
    ensures forall n :: n in avgs <==> n in cfg.metricThresholds && GaugeCount(metrics, n) > 0
    ensures forall n :: n in avgs ==> avgs[n].avg == BatchAverage(metrics, n) && avgs[n].count == GaugeCount(metrics, n)
  {
    var totals := CollectTotals(cfg, metrics);
    avgs := totals;
    var rest := avgs.Keys;
    while rest != {}
      invariant rest <= avgs.Keys == totals.Keys
      invariant forall n :: n in rest ==> avgs[n] == totals[n]
      invariant forall n :: n in avgs && n !in rest ==>
        avgs[n].avg == BatchAverage(metrics, n) && avgs[n].count == GaugeCount(metrics, n)
      decreases rest
    {
      var n :| n in rest;
      if avgs[n].count > 0 {
        avgs := avgs[n := MetricAverage(avgs[n].avg / (avgs[n].count as real), avgs[n].count)];
      }
      rest := rest - {n};
    }
  }

  /** The average a batch gives for a metric. */
  function BatchAverage(metrics: seq<Metric>, name: string): real
    requires GaugeCount(metrics, name) > 0
  {
    GaugeTotal(metrics, name) / (GaugeCount(metrics, name) as real)
  }

  /** What the nonempty gauges of that name add up to, one by one. */
  function GaugeSums(metrics: seq<Metric>, name: string): seq<real> {
    if metrics == [] then []
    else
      var before, last := GaugeSums(metrics[..|metrics| - 1], name), metrics[|metrics| - 1];
      if last.kind == Gauge && last.name == name && |last.points| > 0 then before + [SumReals(last.points)] else before
  }

  lemma {:induction false} TotalOfGauges(metrics: seq<Metric>, name: string)
    ensures GaugeCount(metrics, name) == |GaugeSums(metrics, name)|
    ensures GaugeTotal(metrics, name) == SumReals(GaugeSums(metrics, name))
    decreases |metrics|
  {
    if metrics != [] {
      var before, last := GaugeSums(metrics[..|metrics| - 1], name), metrics[|metrics| - 1];
      TotalOfGauges(metrics[..|metrics| - 1], name);
      assert (before + [SumReals(last.points)])[..|before|] == before;
    }
  }

  /** The average a batch gives for a metric, times the number of its nonempty gauges, is what these add up to. */
  lemma {:induction false} AverageOfGauges(metrics: seq<Metric>, name: string)
    requires GaugeSums(metrics, name) != []
    ensures GaugeCount(metrics, name) == |GaugeSums(metrics, name)| > 0
    ensures BatchAverage(metrics, name) * (GaugeCount(metrics, name) as real) == SumReals(GaugeSums(metrics, name))
  {
    TotalOfGauges(metrics, name);
    AverageTimesCount(metrics, name);
  }

  lemma {:induction false} AverageTimesCount(metrics: seq<Metric>, name: string)
    requires GaugeCount(metrics, name) > 0
    ensures BatchAverage(metrics, name) * (GaugeCount(metrics, name) as real) == GaugeTotal(metrics, name)
  {
    QuotientTimes(GaugeTotal(metrics, name), GaugeCount(metrics, name) as real);
  }

  // --------------------------------------------------------------- thresholds

  function Smoothing(cfg: Settings): real {
    if cfg.smoothing <= 0.0 then DEFAULT_SMOOTHING else cfg.smoothing
  }

  /** First the minimum, then the maximum, each only if configured above zero. */
  function Constrain(cfg: Settings, metric: string, value: real): real {
    var low := Lookup(cfg.minThresholds, metric);
    var high := Lookup(cfg.maxThresholds, metric);
    var v := if low > 0.0 && value < low then low else value;
    if high > 0.0 && v > high then high else v
  }

  /** The way from b the share s toward a. */
  function Mix(s: real, a: real, b: real): real {
    b + s * (a - b)
  }

  /** The smoothed threshold; a current value of zero (or none) restarts from the configured base. */
  function NewThreshold(cfg: Settings, metric: string, avg: real, current: real): real {
    var base := Lookup(cfg.metricThresholds, metric);
    var prev := if current == 0.0 then base else current;
    var target := base + avg * SCALING;
    Constrain(cfg, metric, Mix(Smoothing(cfg), target, prev))
  }

  /** The thresholds after one batch: every configured metric with data moves, the others stay. */
  function Updated(cfg: Settings, dyn: Values, metrics: seq<Metric>): Values {
    dyn + map m | m in cfg.metricThresholds && GaugeCount(metrics, m) > 0 ::
      NewThreshold(cfg, m, BatchAverage(metrics, m), Lookup(dyn, m))
  }

  /** The thresholds a fresh processor starts with. */
  function Seeded(cfg: Settings): Values {
    map m | m in cfg.metricThresholds && cfg.metricThresholds[m] > 0.0 :: cfg.metricThresholds[m]
  }

  lemma RestOf(s: real, d: real)
    ensures (1.0 - s) * d == d - s * d
  {
  }

  lemma PartOfDifference(s: real, a: real, b: real)
    ensures s * (a - b) == s * a - s * b
  {
  }

  /** The code's weighted sum is that step. */
  lemma MixForm(s: real, a: real, b: real)
    ensures s * a + (1.0 - s) * b == Mix(s, a, b)
  {
    RestOf(s, b);
    PartOfDifference(s, a, b);
  }

  /** The code's calculation for one metric that has data. */
  method CalculateSingleThreshold(cfg: Settings, metric: string, avg: real, current: real) returns (newVal: real)
    requires metric in cfg.metricThresholds
    ensures newVal == NewThreshold(cfg, metric, avg, current)
  {
    var base := cfg.metricThresholds[metric];
    var smoothing := Smoothing(cfg);
    var prev := current;
    if prev == 0.0 {
      prev := base;
    }
    var target := base + avg * SCALING;
    newVal := smoothing * target + (1.0 - smoothing) * prev;
    MixForm(smoothing, target, prev);
    newVal := Constrain(cfg, metric, newVal);
  }

  /** The loop over the configured metrics and the map it fills. */
  method UpdateThresholds(cfg: Settings, dyn: Values, metrics: seq<Metric>) returns (thresholds: Values)
    ensures thresholds == Updated(cfg, dyn, metrics)
  {
    var avgs := ComputeMetricAverages(cfg, metrics);
    var newThresholds: Values := map[];
    var rest := cfg.metricThresholds.Keys;
    while rest != {}
      invariant rest <= cfg.metricThresholds.Keys
      invariant forall m :: m in newThresholds <==> m in avgs && m !in rest
      invariant forall m :: m in newThresholds ==>
        newThresholds[m] == NewThreshold(cfg, m, BatchAverage(metrics, m), Lookup(dyn, m))
      decreases rest
    {
      var m :| m in rest;
      if m in avgs && avgs[m].count != 0 {
        var newVal := CalculateSingleThreshold(cfg, m, avgs[m].avg, Lookup(dyn, m));
        newThresholds := newThresholds[m := newVal];
      }
      rest := rest - {m};
    }
    thresholds := dyn + newThresholds;
  }

  // ----------------------------------------------------------------- the laws

  /** The maximum always holds; the minimum holds exactly when it does not exceed the maximum. */
  lemma ConstrainRespectsLimits(cfg: Settings, metric: string, value: real)
    ensures var low, high := Lookup(cfg.minThresholds, metric), Lookup(cfg.maxThresholds, metric);
      var v := Constrain(cfg, metric, value);
      (high > 0.0 ==> v <= high) && (low > 0.0 && high > 0.0 ==> (low <= v <==> low <= high)) &&
      (low > 0.0 && high <= 0.0 ==> low <= v)
  {
  }

  lemma ScaleMonotone(k: real, a: real, b: real)
    requires k >= 0.0 && a <= b
    ensures k * a <= k * b
  {
  }

  lemma PartOf(s: real, whole: real) returns (part: real)
    requires 0.0 <= s <= 1.0
    ensures part == s * whole
    ensures whole >= 0.0 ==> 0.0 <= part <= whole
    ensures whole <= 0.0 ==> whole <= part <= 0.0
  {
    part := s * whole;
    if whole >= 0.0 {
      ScaleMonotone(whole, 0.0, s);
      ScaleMonotone(whole, s, 1.0);
    } else {
      ScaleMonotone(-whole, 0.0, s);
      ScaleMonotone(-whole, s, 1.0);
    }
  }

  /** Mixing moves b part of the way toward a. */
  lemma MixIsAStep(s: real, a: real, b: real) returns (step: real)
    requires 0.0 <= s <= 1.0
    ensures Mix(s, a, b) == b + step && step == s * (a - b)
    ensures a >= b ==> 0.0 <= step <= a - b
    ensures a <= b ==> a - b <= step <= 0.0
  {
    step := PartOf(s, a - b);
  }

  lemma BetweenByStep(m: real, a: real, b: real, step: real, low: real, high: real)
    requires low <= a <= high && low <= b <= high && m == b + step
    requires a >= b ==> 0.0 <= step <= a - b
    requires a <= b ==> a - b <= step <= 0.0
    ensures low <= m <= high
  {
  }

  lemma MixStaysBetween(s: real, a: real, b: real, low: real, high: real)
    requires 0.0 <= s <= 1.0 && low <= a <= high && low <= b <= high
    ensures low <= Mix(s, a, b) <= high
  {
    var step := MixIsAStep(s, a, b);
    BetweenByStep(Mix(s, a, b), a, b, step, low, high);
  }

  predicate Unclamped(cfg: Settings, m: string) {
    Lookup(cfg.minThresholds, m) <= 0.0 && Lookup(cfg.maxThresholds, m) <= 0.0
  }

  /** An unclamped threshold lies between its base and the base plus a fifth of the largest average. */
  ghost predicate InBand(cfg: Settings, dyn: Values, m: string, largest: real) {
    var base := Lookup(cfg.metricThresholds, m);
    m in dyn ==> base <= dyn[m] <= base + largest / 5.0
  }

  lemma SeededInBand(cfg: Settings, m: string, largest: real)
    requires largest >= 0.0
    ensures InBand(cfg, Seeded(cfg), m, largest)
  {
  }

  lemma NewThresholdStaysInBand(cfg: Settings, m: string, avg: real, current: real, largest: real)
    requires Unclamped(cfg, m) && Lookup(cfg.metricThresholds, m) >= 0.0 && Smoothing(cfg) <= 1.0 &&
      0.0 <= avg <= largest
    requires var base := Lookup(cfg.metricThresholds, m); current == 0.0 || base <= current <= base + largest * SCALING
    ensures var base := Lookup(cfg.metricThresholds, m);
      base <= NewThreshold(cfg, m, avg, current) <= base + largest * SCALING
  {
    var base := Lookup(cfg.metricThresholds, m);
    var prev := if current == 0.0 then base else current;
    var target, top := base + avg * SCALING, base + largest * SCALING;
    ScaleMonotone(SCALING, 0.0, avg);
    ScaleMonotone(SCALING, avg, largest);
    MixStaysBetween(Smoothing(cfg), target, prev, base, top);
  }

  lemma UpdateStaysInBand(cfg: Settings, dyn: Values, metrics: seq<Metric>, m: string, largest: real)
    requires Unclamped(cfg, m) && Lookup(cfg.metricThresholds, m) >= 0.0 && Smoothing(cfg) <= 1.0 &&
      InBand(cfg, dyn, m, largest)
    requires GaugeCount(metrics, m) > 0 ==> 0.0 <= BatchAverage(metrics, m) <= largest
    ensures InBand(cfg, Updated(cfg, dyn, metrics), m, largest)
  {
    if m in cfg.metricThresholds && GaugeCount(metrics, m) > 0 {
      NewThresholdStaysInBand(cfg, m, BatchAverage(metrics, m), Lookup(dyn, m), largest);
    }
  }

  /** The thresholds after a sequence of batches. */
  function UpdatedBy(cfg: Settings, dyn: Values, batches: seq<seq<Metric>>): Values
    decreases |batches|
  {
    if batches == [] then dyn else UpdatedBy(cfg, Updated(cfg, dyn, batches[0]), batches[1..])
  }

  /** Over any sequence of batches whose averages stay in [0, largest], unclamped thresholds stay in their band. */
  lemma {:induction false} ThresholdsStayInBand(cfg: Settings, dyn: Values, batches: seq<seq<Metric>>, m: string,
                                                largest: real)
    requires Unclamped(cfg, m) && Lookup(cfg.metricThresholds, m) >= 0.0 && Smoothing(cfg) <= 1.0 &&
      InBand(cfg, dyn, m, largest)
    requires forall b :: b in batches && GaugeCount(b, m) > 0 ==> 0.0 <= BatchAverage(b, m) <= largest
    ensures InBand(cfg, UpdatedBy(cfg, dyn, batches), m, largest)
    decreases |batches|
  {
    if batches != [] {
      assert batches[0] in batches;
      UpdateStaysInBand(cfg, dyn, batches[0], m, largest);
      ThresholdsStayInBand(cfg, Updated(cfg, dyn, batches[0]), batches[1..], m, largest);
    }
  }

  /** The limits a constrained value keeps; a minimum above the maximum gives way to it. */
  predicate RespectsLimits(cfg: Settings, m: string, v: real) {
    var low, high := Lookup(cfg.minThresholds, m), Lookup(cfg.maxThresholds, m);
    && (high > 0.0 ==> v <= high)
    && (low > 0.0 && (high <= 0.0 || low <= high) ==> low <= v)
    && (0.0 < high < low ==> v == high)
  }

  /** Some batch has data for the configured metric. */
  predicate Moves(cfg: Settings, batches: seq<seq<Metric>>, m: string) {
    m in cfg.metricThresholds && exists b :: b in batches && GaugeCount(b, m) > 0
  }

  predicate SameFor(a: Values, b: Values, m: string) {
    (m in a <==> m in b) && (m in a && m in b ==> a[m] == b[m])
  }

  lemma UpdateRespectsLimits(cfg: Settings, dyn: Values, metrics: seq<Metric>, m: string)
    ensures var now := Updated(cfg, dyn, metrics);
      if m in cfg.metricThresholds && GaugeCount(metrics, m) > 0 then m in now && RespectsLimits(cfg, m, now[m])
      else SameFor(now, dyn, m)
  {
    if m in cfg.metricThresholds && GaugeCount(metrics, m) > 0 {
      var prev := if Lookup(dyn, m) == 0.0 then Lookup(cfg.metricThresholds, m) else Lookup(dyn, m);
      ConstrainRespectsLimits(cfg, m, Mix(Smoothing(cfg), Target(cfg, m, BatchAverage(metrics, m)), prev));
    }
  }

  /** Over any batches, a threshold respects its limits from its first update on, and is untouched before. */
  lemma {:induction false} MovedThresholdsRespectLimits(cfg: Settings, dyn: Values, batches: seq<seq<Metric>>,
                                                        m: string)
    ensures var after := UpdatedBy(cfg, dyn, batches);
      if Moves(cfg, batches, m) then m in after && RespectsLimits(cfg, m, after[m]) else SameFor(after, dyn, m)
    decreases |batches|
  {
    if batches != [] {
      var first, rest := batches[0], batches[1..];
      assert batches == [first] + rest;
      UpdateRespectsLimits(cfg, dyn, first, m);
      MovedThresholdsRespectLimits(cfg, Updated(cfg, dyn, first), rest, m);
      assert Moves(cfg, batches, m) <==> Moves(cfg, [first], m) || Moves(cfg, rest, m);
      assert Moves(cfg, [first], m) <==> m in cfg.metricThresholds && GaugeCount(first, m) > 0 by {
        assert first in [first];
      }
    }
  }

  predicate WithinLimits(cfg: Settings, dyn: Values, m: string) {
    m in dyn ==> RespectsLimits(cfg, m, dyn[m])
  }

  lemma {:induction false} SeededWithinLimits(cfg: Settings, m: string)
    ensures var base := Lookup(cfg.metricThresholds, m);
      WithinLimits(cfg, Seeded(cfg), m) <==> (base > 0.0 ==> RespectsLimits(cfg, m, base))
  {
  }

  /** In every run of a fresh processor the threshold respects its limits just when the configured one does. */
  lemma {:induction false} LimitsHoldFromTheStart(cfg: Settings, m: string)
    ensures (forall batches :: WithinLimits(cfg, UpdatedBy(cfg, Seeded(cfg), batches), m)) <==>
            var base := Lookup(cfg.metricThresholds, m); base > 0.0 ==> RespectsLimits(cfg, m, base)
  {
    SeededWithinLimits(cfg, m);
    if WithinLimits(cfg, Seeded(cfg), m) {
      forall batches ensures WithinLimits(cfg, UpdatedBy(cfg, Seeded(cfg), batches), m) {
        MovedThresholdsRespectLimits(cfg, Seeded(cfg), batches, m);
      }
    } else {
      assert UpdatedBy(cfg, Seeded(cfg), []) == Seeded(cfg);
    }
  }

  function Distance(a: real, b: real): real {
    if a < b then b - a else a - b
  }

  function Power(r: real, n: nat): real {
    if n == 0 then 1.0 else r * Power(r, n - 1)
  }

  /** A target inside the limits is a fixed point that clamping only brings nearer. */
  predicate InsideLimits(cfg: Settings, m: string, target: real) {
    && (Lookup(cfg.minThresholds, m) > 0.0 ==> Lookup(cfg.minThresholds, m) <= target)
    && (Lookup(cfg.maxThresholds, m) > 0.0 ==> target <= Lookup(cfg.maxThresholds, m))
  }

  lemma ClampingApproaches(cfg: Settings, m: string, target: real, value: real)
    requires InsideLimits(cfg, m, target)
    ensures Distance(Constrain(cfg, m, value), target) <= Distance(value, target)
  {
  }

  /** The share of a distance that is left. */
  predicate ShrunkBy(r: real, before: real, after: real) {
    after <= r * before
  }

  lemma StepLeaves(s: real, gap: real, step: real)
    requires step == s * gap
    ensures (1.0 - s) * gap == gap - step && (1.0 - s) * (-gap) == -gap + step
  {
    RestOf(s, gap);
    RestOf(s, -gap);
    assert s * (-gap) == -(s * gap);
  }

  lemma MixApproaches(s: real, target: real, prev: real)
    requires 0.0 <= s <= 1.0
    ensures ShrunkBy(1.0 - s, Distance(prev, target), Distance(Mix(s, target, prev), target))
  {
    var step := MixIsAStep(s, target, prev);
    var gap := target - prev;
    StepLeaves(s, gap, step);
    assert Distance(prev, target) == if gap > 0.0 then gap else -gap;
    assert Distance(Mix(s, target, prev), target) == if gap > 0.0 then gap - step else -gap + step;
  }

  lemma ShrinkFromFarther(r: real, near: real, far: real, after: real, final: real)
    requires r >= 0.0 && near <= far && ShrunkBy(r, near, after) && final <= after
    ensures ShrunkBy(r, far, final)
  {
    ScaleMonotone(r, near, far);
  }

  lemma {:induction false} StepApproaches(cfg: Settings, m: string, s: real, target: real, prev: real, current: real)
    requires 0.0 <= s <= 1.0 && InsideLimits(cfg, m, target) && Distance(prev, target) <= Distance(current, target)
    ensures ShrunkBy(1.0 - s, Distance(current, target), Distance(Constrain(cfg, m, Mix(s, target, prev)), target))
  {
    MixApproaches(s, target, prev);
    ClampingApproaches(cfg, m, target, Mix(s, target, prev));
    ShrinkFromFarther(1.0 - s, Distance(prev, target), Distance(current, target),
      Distance(Mix(s, target, prev), target), Distance(Constrain(cfg, m, Mix(s, target, prev)), target));
  }

  /** Where a constant average draws the threshold. */
  function Target(cfg: Settings, m: string, avg: real): real {
    Lookup(cfg.metricThresholds, m) + avg / 5.0
  }

  /** One update shrinks the distance to the target by the factor 1 - smoothing at least. */
  lemma {:induction false} UpdateApproachesTarget(cfg: Settings, m: string, avg: real, current: real)
    requires Smoothing(cfg) <= 1.0 && avg >= 0.0 && Lookup(cfg.metricThresholds, m) >= 0.0
    requires InsideLimits(cfg, m, Target(cfg, m, avg))
    ensures var target := Target(cfg, m, avg);
      ShrunkBy(1.0 - Smoothing(cfg), Distance(current, target), Distance(NewThreshold(cfg, m, avg, current), target))
  {
    var base := Lookup(cfg.metricThresholds, m);
    StepApproaches(cfg, m, Smoothing(cfg), Target(cfg, m, avg), if current == 0.0 then base else current, current);
  }

  /** Without limits it goes exactly the share smoothing of the way there. */
  lemma {:induction false} UpdateGoesTheShare(cfg: Settings, m: string, avg: real, current: real)
    requires Unclamped(cfg, m)
    ensures var from := if current == 0.0 then Lookup(cfg.metricThresholds, m) else current;
      NewThreshold(cfg, m, avg, current) - from ==
      (if cfg.smoothing <= 0.0 then 0.2 else cfg.smoothing) * (Target(cfg, m, avg) - from)
  {
  }

  /** The threshold after n updates with one and the same average. */
  function Repeated(cfg: Settings, m: string, avg: real, start: real, n: nat): real {
    if n == 0 then start else NewThreshold(cfg, m, avg, Repeated(cfg, m, avg, start, n - 1))
  }

  lemma {:induction false} ShrinksGeometrically(r: real, d: nat -> real, n: nat)
    requires r >= 0.0 && forall k: nat :: k < n ==> ShrunkBy(r, d(k), d(k + 1))
    ensures ShrunkBy(Power(r, n), d(0), d(n))
  {
    if n > 0 {
      ShrinksGeometrically(r, d, n - 1);
      assert ShrunkBy(r, d(n - 1), d(n - 1 + 1));
      Compounded(r, Power(r, n - 1), d(0), d(n - 1), d(n));
    }
  }

  lemma Compounded(r: real, p: real, start: real, before: real, after: real)
    requires r >= 0.0 && ShrunkBy(p, start, before) && ShrunkBy(r, before, after)
    ensures ShrunkBy(r * p, start, after)
  {
    ScaleMonotone(r, before, p * start);
    assert r * (p * start) == (r * p) * start;
  }

  /** With a constant average the threshold converges to its target at the rate 1 - smoothing. */
  lemma {:induction false} ThresholdConverges(cfg: Settings, m: string, avg: real, start: real, n: nat)
    requires Smoothing(cfg) <= 1.0 && avg >= 0.0 && Lookup(cfg.metricThresholds, m) >= 0.0
    requires InsideLimits(cfg, m, Target(cfg, m, avg))
    ensures var target := Target(cfg, m, avg);
      ShrunkBy(Power(1.0 - Smoothing(cfg), n), Distance(start, target),
               Distance(Repeated(cfg, m, avg, start, n), target))
  {
    var target := Target(cfg, m, avg);
    var d := (k: nat) => Distance(Repeated(cfg, m, avg, start, k), target);
    forall k: nat | k < n ensures ShrunkBy(1.0 - Smoothing(cfg), d(k), d(k + 1)) {
      UpdateApproachesTarget(cfg, m, avg, Repeated(cfg, m, avg, start, k));
    }
    ShrinksGeometrically(1.0 - Smoothing(cfg), d, n);
  }
}
