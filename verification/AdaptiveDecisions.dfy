/**
 * The verdict about a resource in numbers: its values against the thresholds, against its history and against the
 * composite score, and the clock against the retention times.
 */
module AdaptiveDecisions {
  import opened AdaptiveConfig
  import opened AdaptiveModel
  import opened AdaptiveAnomaly
  import opened Grouping

  // ---------------------------------------------------------------- arithmetic

  lemma TimesKeepsOrder(k: real, a: real, b: real)
    requires k > 0.0
    ensures a >= b <==> k * a >= k * b
  {
  }

  // -------------------------------------------------------------------- spikes

  lemma AverageInNumbers(h: seq<real>)
    requires h != []
    ensures Average(h) * (|h| as real) == SumReals(h)
    ensures Average(h) > 0.0 <==> SumReals(h) > 0.0
  {
    var n := |h| as real;
    QuotientTimes(SumReals(h), n);
    TimesKeepsOrder(n, 0.0, Average(h));
  }

  /** The percentage is at least t just when the value is at least 100 + t hundredths of the average. */
  lemma PercentInNumbers(value: real, avg: real, t: real)
    requires avg > 0.0
    ensures PercentChange(value, avg) >= t <==> 100.0 * value >= (100.0 + t) * avg
  {
    var q := (value - avg) / avg;
    QuotientTimes(value - avg, avg);
    assert q * avg == value - avg;
    TimesKeepsOrder(avg, q * 100.0, t);
    assert avg * (q * 100.0) == (q * avg) * 100.0;
    assert (100.0 + t) * avg == 100.0 * avg + avg * t;
  }

  /** The numbers of a spike: how many earlier values there are, what they add up to, and the value. */
  predicate SpikeNumbers(cfg: Settings, n: nat, sum: real, value: real) {
    && n >= (if cfg.minDataPoints <= 0 then 3 else cfg.minDataPoints)
    && sum > 0.0
    && 100.0 * (n as real) * value >=
       (100.0 + (if cfg.changeThreshold <= 0.0 then 200.0 else cfg.changeThreshold)) * sum
  }

  /**
   * A value is a spike exactly when there are enough earlier values, their sum is positive, and the value is at least
   * 100 plus the change threshold percent of their average.
   */
  lemma SpikesInNumbers(cfg: Settings, h: seq<real>, value: real)
    ensures Spikes(cfg, h, value) <==> SpikeNumbers(cfg, |h|, SumReals(h), value)
  {
    if |h| >= MinPoints(cfg) {
      AverageInNumbers(h);
      if SumReals(h) > 0.0 {
        PercentInNumbers(value, Average(h), ChangeThreshold(cfg));
        AverageCancels(|h| as real, value, 100.0 + ChangeThreshold(cfg), Average(h));
      }
    }
  }

  lemma AverageCancels(n: real, value: real, t: real, avg: real)
    requires n > 0.0
    ensures 100.0 * value >= t * avg <==> 100.0 * n * value >= t * (avg * n)
  {
    TimesKeepsOrder(n, 100.0 * value, t * avg);
    assert n * (100.0 * value) == 100.0 * n * value && n * (t * avg) == t * (avg * n);
  }

  function Scaled(h: seq<real>, k: real): seq<real> {
    seq(|h|, i requires 0 <= i < |h| => k * h[i])
  }

  lemma {:induction false} SumOfScaled(h: seq<real>, k: real)
    ensures SumReals(Scaled(h, k)) == k * SumReals(h)
    decreases |h|
  {
    if h != [] {
      var last := |h| - 1;
      forall i | 0 <= i < last ensures Scaled(h, k)[..last][i] == Scaled(h[..last], k)[i] {
        assert h[..last][i] == h[i];
      }
      assert Scaled(h, k)[..last] == Scaled(h[..last], k);
      SumOfScaled(h[..last], k);
      assert k * (SumReals(h[..last]) + h[last]) == k * SumReals(h[..last]) + k * h[last];
    }
  }

  /** Spikes do not depend on the unit of a metric. */
  lemma SpikesIgnoreUnits(cfg: Settings, h: seq<real>, value: real, k: real)
    requires k > 0.0
    ensures Spikes(cfg, Scaled(h, k), k * value) <==> Spikes(cfg, h, value)
  {
    SpikesInNumbers(cfg, h, value);
    SpikesInNumbers(cfg, Scaled(h, k), k * value);
    SumOfScaled(h, k);
    NumbersIgnoreUnits(cfg, |h|, SumReals(h), value, k);
  }

  lemma NumbersIgnoreUnits(cfg: Settings, n: nat, sum: real, value: real, k: real)
    requires k > 0.0
    ensures SpikeNumbers(cfg, n, k * sum, k * value) <==> SpikeNumbers(cfg, n, sum, value)
  {
    UnitsCancel(k, 100.0 * (n as real), value, 100.0 + ChangeThreshold(cfg), sum);
  }

  lemma UnitsCancel(k: real, n: real, value: real, t: real, sum: real)
    requires k > 0.0
    ensures k * sum > 0.0 <==> sum > 0.0
    ensures n * (k * value) >= t * (k * sum) <==> n * value >= t * sum
  {
    TimesKeepsOrder(k, 0.0, sum);
    TimesKeepsOrder(k, n * value, t * sum);
    assert k * (n * value) == n * (k * value) && k * (t * sum) == t * (k * sum);
  }

  // ----------------------------------------------------------------- composite

  /**
   * What a weighted metric with a value adds to the score: against a threshold t, the t-th part of value times weight,
   * and two thirds of the weight where there is no threshold and the value is positive.
   */
  lemma TermInNumbers(cfg: Settings, dyn: Values, values: Values, m: string)
    requires m in cfg.weights && m in values
    ensures var term, product := ScoreTerm(cfg, dyn, values, m), values[m] * cfg.weights[m];
      if m !in cfg.metricThresholds then 3.0 * term == if values[m] > 0.0 then 2.0 * cfg.weights[m] else 0.0
      else if cfg.dynamicEnabled && m in dyn && dyn[m] > 0.0 then term * dyn[m] == product
      else if cfg.metricThresholds[m] > 0.0 then term * cfg.metricThresholds[m] == product
      else term == 0.0
  {
    var v, w, t := values[m], cfg.weights[m], ScoreThreshold(cfg, dyn, values, m);
    if t > 0.0 {
      if m in cfg.metricThresholds {
        ShareTimes(v, w, t);
      } else {
        TwoThirds(v, w);
      }
    }
  }

  lemma ShareTimes(v: real, w: real, t: real)
    requires t > 0.0
    ensures v / t * w * t == v * w
  {
    QuotientTimes(v, t);
    assert v / t * w * t == v / t * t * w;
  }

  lemma TwoThirds(v: real, w: real)
    requires v > 0.0
    ensures 3.0 * (v / (v * 1.5) * w) == 2.0 * w
  {
    var q := v / (v * 1.5);
    QuotientTimes(v, v * 1.5);
    assert (q * 1.5 - 1.0) * v == 0.0;
    assert q * 1.5 == 1.0;
    assert 3.0 * (q * w) == 2.0 * (q * 1.5) * w;
  }

  lemma {:induction false} SameTermsSameSum(order: seq<string>, f: string -> Amount, g: string -> Amount)
    requires forall m :: m in order ==> f(m) == g(m)
    ensures SumOf(order, f) == SumOf(order, g)
    decreases |order|
  {
    if order != [] {
      SameTermsSameSum(order[..|order| - 1], f, g);
    }
  }

  /** Each weighted metric is counted once: the score is its term and the score over the other weights. */
  lemma ScoreByMetric(cfg: Settings, dyn: Values, values: Values, m: string)
    requires m in cfg.weights
    ensures CompositeScore(cfg, dyn, values) ==
      CompositeScore(cfg.(weights := cfg.weights - {m}), dyn, values) + ScoreTerm(cfg, dyn, values, m)
  {
    var less := cfg.(weights := cfg.weights - {m});
    var f, g := TermAmount(cfg, dyn, values), TermAmount(less, dyn, values);
    var rest := KeySeq(less.weights.Keys);
    LastInOrder(rest, cfg.weights.Keys, m);
    ScoreIgnoresOrder(cfg, dyn, values, rest + [m]);
    SumOfSnoc(rest, m, f);
    forall k | k in rest ensures f(k) == g(k) {
      OtherTermsStay(cfg, dyn, values, m, k);
    }
    SameTermsSameSum(rest, f, g);
  }

  lemma LastInOrder(rest: seq<string>, keys: set<string>, m: string)
    requires m in keys && Enumerates(rest, keys - {m})
    ensures Enumerates(rest + [m], keys)
  {
  }

  lemma OtherTermsStay(cfg: Settings, dyn: Values, values: Values, m: string, k: string)
    requires k != m
    ensures ScoreTerm(cfg.(weights := cfg.weights - {m}), dyn, values, k) == ScoreTerm(cfg, dyn, values, k)
  {
  }

  lemma NoWeightsNoScore(cfg: Settings, dyn: Values, values: Values)
    requires cfg.weights == map[]
    ensures CompositeScore(cfg, dyn, values) == 0.0
  {
    ScoreIgnoresOrder(cfg, dyn, values, []);
  }

  // --------------------------------------------------------- a fresh identity

  /** A resource that is not tracked and that no list or process state admits. */
  ghost predicate Fresh(tracked: map<string, Entity>, o: Observation) {
    o.id !in tracked && !o.zombie && !o.listed && Enumerates(o.order, o.values.Keys)
  }

  /** Nothing but the thresholds can admit a fresh resource with a configured metric. */
  predicate OnlyThresholds(cfg: Settings) {
    !cfg.multiEnabled && !cfg.debugShowAll
  }

  /** Before the debug mode looks, a fresh entity is decided by thresholds and score; it cannot have spiked. */
  lemma FreshIsChecked(cfg: Settings, dyn: Values, tracked: map<string, Entity>, o: Observation, now: int)
    requires Fresh(tracked, o) && Targeted(cfg, dyn, o.values)
    ensures var v := CheckThresholds(cfg, dyn, NewEntity(cfg, o.values), o.values, now).verdict;
      Evaluate(cfg, dyn, tracked, o, now).verdict ==
      if v == Excluded && cfg.debugShowAll then Included(DebugNoMatch) else v
  {
    if cfg.anomalyEnabled {
      NewEntityNeverSpikes(cfg, o.values, o.order, now);
      DetectSetsTime(cfg, NewEntity(cfg, o.values), o.values, o.order, now);
    }
  }

  /** A fresh resource is tracked from then on exactly when it is admitted, and has exceeded something by its stage. */
  lemma FreshIsTracked(cfg: Settings, dyn: Values, tracked: map<string, Entity>, o: Observation, now: int)
    requires Fresh(tracked, o) && Targeted(cfg, dyn, o.values)
    ensures var r := Evaluate(cfg, dyn, tracked, o, now);
      && r.tracked.Keys == tracked.Keys + (if r.verdict == Excluded then {} else {o.id})
      && (r.verdict != Excluded ==>
          && r.tracked[o.id].lastAnomaly == 0 && r.tracked[o.id].current == o.values
          && r.tracked[o.id].lastExceeded == if r.verdict == Included(DebugNoMatch) then 0 else now)
  {
    FreshIsChecked(cfg, dyn, tracked, o, now);
    if cfg.anomalyEnabled {
      NewEntityNeverSpikes(cfg, o.values, o.order, now);
      DetectSetsTime(cfg, NewEntity(cfg, o.values), o.values, o.order, now);
    }
  }

  /** With static thresholds: excluded exactly when some metric is configured and every such value is below its own. */
  lemma StaticExclusion(cfg: Settings, dyn: Values, tracked: map<string, Entity>, o: Observation, now: int)
    requires Fresh(tracked, o) && OnlyThresholds(cfg) && !cfg.dynamicEnabled
    ensures var v := Evaluate(cfg, dyn, tracked, o, now).verdict;
      && (v == Excluded <==>
           && (exists m :: m in o.values && m in cfg.metricThresholds)
           && forall m :: m in o.values && m in cfg.metricThresholds ==>
                cfg.metricThresholds[m] != 0.0 && o.values[m] < cfg.metricThresholds[m])
      && (v == Included(DefaultInclusion) <==> forall m :: m in o.values ==> m !in cfg.metricThresholds)
      && v in {Excluded, Included(DefaultInclusion), Included(StaticThreshold)}
  {
    if Targeted(cfg, dyn, o.values) {
      FreshIsChecked(cfg, dyn, tracked, o, now);
    }
  }

  /**
   * With dynamic thresholds: excluded exactly when some metric is configured or has a dynamic threshold, and every
   * value with one is below it; a metric without one is never met.
   */
  lemma DynamicExclusion(cfg: Settings, dyn: Values, tracked: map<string, Entity>, o: Observation, now: int)
    requires Fresh(tracked, o) && OnlyThresholds(cfg) && cfg.dynamicEnabled
    ensures var v := Evaluate(cfg, dyn, tracked, o, now).verdict;
      && (v == Excluded <==>
           && (exists m :: m in o.values && (m in cfg.metricThresholds || m in dyn))
           && forall m :: m in o.values && m in dyn ==> o.values[m] < dyn[m])
      && (v == Included(DefaultInclusion) <==> forall m :: m in o.values ==> m !in cfg.metricThresholds && m !in dyn)
      && v in {Excluded, Included(DefaultInclusion), Included(DynamicThreshold)}
  {
    if Targeted(cfg, dyn, o.values) {
      FreshIsChecked(cfg, dyn, tracked, o, now);
    }
  }

  /** For one metric: excluded exactly below its threshold, which a static one of zero never is. */
  lemma OneMetricExclusion(cfg: Settings, dyn: Values, tracked: map<string, Entity>, o: Observation, now: int,
                           m: string)
    requires Fresh(tracked, o) && OnlyThresholds(cfg) && o.values.Keys == {m}
    ensures Evaluate(cfg, dyn, tracked, o, now).verdict == Excluded <==>
      if cfg.dynamicEnabled then (m in dyn && o.values[m] < dyn[m]) || (m !in dyn && m in cfg.metricThresholds)
      else m in cfg.metricThresholds && cfg.metricThresholds[m] != 0.0 && o.values[m] < cfg.metricThresholds[m]
  {
    assert m in o.values && forall k :: k in o.values ==> k == m;
    if cfg.dynamicEnabled {
      DynamicExclusion(cfg, dyn, tracked, o, now);
    } else {
      StaticExclusion(cfg, dyn, tracked, o, now);
    }
  }

  /**
   * One metric with a static threshold it does not reach, scored on its own: admitted exactly when its weighted share
   * of the threshold reaches the composite threshold.
   */
  lemma OneMetricComposite(cfg: Settings, dyn: Values, tracked: map<string, Entity>, o: Observation, now: int,
                           m: string)
    requires Fresh(tracked, o) && o.values.Keys == {m} && cfg.multiEnabled && !cfg.dynamicEnabled && !cfg.debugShowAll
    requires m in cfg.metricThresholds && 0.0 < cfg.metricThresholds[m] && o.values[m] < cfg.metricThresholds[m]
    requires cfg.weights.Keys == {m}
    ensures var v, t := Evaluate(cfg, dyn, tracked, o, now).verdict, cfg.metricThresholds[m];
      var needed := if cfg.compositeThreshold <= 0.0 then 1.5 else cfg.compositeThreshold;
      && (v == Included(MultiMetric) <==> o.values[m] * cfg.weights[m] >= needed * t)
      && v in {Excluded, Included(MultiMetric)}
  {
    assert m in o.values && forall k :: k in o.values ==> k == m;
    FreshIsChecked(cfg, dyn, tracked, o, now);
    OneMetricScore(cfg, dyn, o.values, m);
  }

  lemma OneMetricScore(cfg: Settings, dyn: Values, values: Values, m: string)
    requires m in values && !cfg.dynamicEnabled && cfg.weights.Keys == {m}
    requires m in cfg.metricThresholds && 0.0 < cfg.metricThresholds[m]
    ensures CompositeScore(cfg, dyn, values) >= CompositeThreshold(cfg) <==>
      values[m] * cfg.weights[m] >= CompositeThreshold(cfg) * cfg.metricThresholds[m]
  {
    var t := cfg.metricThresholds[m];
    ScoreByMetric(cfg, dyn, values, m);
    NoWeightsNoScore(cfg.(weights := cfg.weights - {m}), dyn, values);
    TermInNumbers(cfg, dyn, values, m);
    ShareReaches(ScoreTerm(cfg, dyn, values, m), t, values[m] * cfg.weights[m], CompositeThreshold(cfg));
  }

  lemma ShareReaches(term: real, t: real, product: real, needed: real)
    requires t > 0.0 && term * t == product
    ensures term >= needed <==> product >= needed * t
  {
    TimesKeepsOrder(t, term, needed);
  }

  /**
   * Zombies and listed processes with a configured metric are admitted whatever they report, and count as exceeding.
   */
  lemma AdmittedAnyway(cfg: Settings, dyn: Values, tracked: map<string, Entity>, o: Observation, now: int)
    requires Enumerates(o.order, o.values.Keys) && Targeted(cfg, dyn, o.values) && (o.zombie || o.listed)
    ensures var r := Evaluate(cfg, dyn, tracked, o, now);
      && r.verdict == Included(if o.zombie then ZombieProcess else IncludeList)
      && o.id in r.tracked && r.tracked[o.id].lastExceeded == now
      && r.tracked[o.id].lastAnomaly == (if o.id in tracked then tracked[o.id].lastAnomaly else 0)
      && forall m :: m in o.values ==> Lookup(r.tracked[o.id].current, m) == o.values[m]
  {
  }

  // -------------------------------------------------------- a known identity

  /** Some value is at or above its metric's threshold. */
  ghost predicate SomeAtOrAbove(cfg: Settings, dyn: Values, values: Values) {
    exists m :: m in values &&
      if cfg.dynamicEnabled then m in dyn && values[m] >= dyn[m]
      else m in cfg.metricThresholds && (cfg.metricThresholds[m] == 0.0 || values[m] >= cfg.metricThresholds[m])
  }

  /** Some checked metric's value is a spike over its history. */
  ghost predicate SomeSpike(cfg: Settings, e: Entity, values: Values) {
    cfg.anomalyEnabled &&
    exists m :: m in values && m in cfg.metricThresholds && Spikes(cfg, HistoryOf(e.history, m), values[m])
  }

  predicate Within(now: int, since: int, minutes: int) {
    since != 0 && now < since + minutes * 60_000_000_000
  }

  /** What admits a known resource, in the order the stages are asked. */
  ghost function Admission(cfg: Settings, dyn: Values, e: Entity, values: Values, now: int): Verdict {
    if SomeSpike(cfg, e, values) then Included(AnomalyDetection)
    else if SomeAtOrAbove(cfg, dyn, values) then
      Included(if cfg.dynamicEnabled then DynamicThreshold else StaticThreshold)
    else if cfg.multiEnabled && CompositeScore(cfg, dyn, values) >= CompositeThreshold(cfg) then Included(MultiMetric)
    else if cfg.anomalyEnabled &&
      Within(now, e.lastAnomaly, if cfg.retentionMinutes > 0 then cfg.retentionMinutes else 30)
    then Included(AnomalyRetention)
    else if cfg.retentionMinutes > 0 && Within(now, e.lastExceeded, cfg.retentionMinutes) then
      Included(StandardRetention)
    else Excluded
  }

  /** The decision about a known resource with a configured metric, and the times it leaves behind. */
  lemma KnownVerdict(cfg: Settings, dyn: Values, tracked: map<string, Entity>, o: Observation, now: int)
    requires o.id in tracked && !o.zombie && !o.listed && Enumerates(o.order, o.values.Keys)
    requires Targeted(cfg, dyn, o.values)
    ensures var e, r := tracked[o.id], Evaluate(cfg, dyn, tracked, o, now);
      var v := Admission(cfg, dyn, e, o.values, now);
      && r.verdict == v && o.id in r.tracked
      && r.tracked[o.id].lastAnomaly == (if v == Included(AnomalyDetection) then now else e.lastAnomaly)
      && r.tracked[o.id].lastExceeded ==
         (if v.Included? && v.stage in {StaticThreshold, DynamicThreshold, MultiMetric} then now else e.lastExceeded)
  {
    KnownChecks(cfg, dyn, tracked[o.id], o, now);
  }

  lemma KnownChecks(cfg: Settings, dyn: Values, e: Entity, o: Observation, now: int)
    requires Enumerates(o.order, o.values.Keys)
    ensures var r := CheckNew(cfg, dyn, UpdateValues(e, o.values), o, now);
      var spike := SomeSpike(cfg, e, o.values);
      && r.e.lastAnomaly == (if spike then now else e.lastAnomaly)
      && r.e.lastExceeded == (if r.verdict.Included? && !spike then now else e.lastExceeded)
      && r.verdict ==
         if spike then Included(AnomalyDetection)
         else if SomeAtOrAbove(cfg, dyn, o.values) then
           Included(if cfg.dynamicEnabled then DynamicThreshold else StaticThreshold)
         else if cfg.multiEnabled && CompositeScore(cfg, dyn, o.values) >= CompositeThreshold(cfg) then
           Included(MultiMetric)
         else Excluded
  {
    var u := UpdateValues(e, o.values);
    assert ExceedsThreshold(cfg, dyn, o.values) == SomeAtOrAbove(cfg, dyn, o.values);
    if cfg.anomalyEnabled {
      DetectFindsAnySpike(cfg, u, o.values, o.order, now);
      DetectSetsTime(cfg, u, o.values, o.order, now);
    }
  }
}
