/**
 * Tracked entities as objects: the stages of process_metrics.go and anomaly_detection.go that update one entity in
 * place.
 */
module AdaptiveEntities {
  import opened AdaptiveConfig
  import opened AdaptiveModel
  import opened AdaptiveAnomaly
  import opened Grouping

  /** A map object of values; an entity's two maps may be one and the same object. It belongs to one identity. */
  class ValueMap {
    ghost const id: string
    var m: Values

    constructor (ghost id: string, m: Values)
      ensures this.id == id && this.m == m
    {
      this.id, this.m := id, m;
    }
  }

  /** The order in which a Go range over the keys happens to run. */
  method RangeOrder(keys: set<string>) returns (order: seq<string>)
    ensures Enumerates(order, keys)
  {
    order := [];
    var rest := keys;
    while rest != {}
      invariant rest <= keys && Enumerates(order, keys - rest)
      decreases rest
    {
      var k :| k in rest;
      order, rest := order + [k], rest - {k};
    }
  }

  /** The values but for some keys. */
  function Without(values: Values, rest: set<string>): Values {
    map k | k in values && k !in rest :: values[k]
  }

  lemma WithoutStep(values: Values, rest: set<string>, m: string)
    requires m in rest && m in values
    ensures Without(values, rest - {m}) == Without(values, rest)[m := values[m]]
  {
  }

  lemma MergeStep<K, V>(base: map<K, V>, done: map<K, V>, k: K, v: V)
    ensures base + done[k := v] == (base + done)[k := v]
  {
  }

  lemma RaisedStep(max: Values, done: Values, m: string, v: real)
    requires m !in done
    ensures Raised(max, done[m := v]) ==
      if v > Lookup(Raised(max, done), m) then Raised(max, done)[m := v] else Raised(max, done)
  {
  }

  /** The values against the dynamic thresholds if these are on, else against the configured ones. */
  method AnyMeetsThreshold(cfg: Settings, dyn: Values, values: Values) returns (found: bool)
    ensures found <==> ExceedsThreshold(cfg, dyn, values)
    ensures cfg.dynamicEnabled ==> (found <==> exists m :: m in values && m in dyn && dyn[m] <= values[m])
    ensures !cfg.dynamicEnabled ==>
      (found <==> exists m :: m in values && m in cfg.metricThresholds &&
                              (cfg.metricThresholds[m] == 0.0 || cfg.metricThresholds[m] <= values[m]))
  {
    var order := RangeOrder(values.Keys);
    var i := 0;
    while i < |order|
      invariant 0 <= i <= |order|
      invariant forall k :: 0 <= k < i ==> order[k] in values && !MeetsThreshold(cfg, dyn, order[k], values[order[k]])
    {
      var m := order[i];
      assert m in values;
      if cfg.dynamicEnabled {
        if m in dyn && values[m] >= dyn[m] {
          return true;
        }
      } else if m in cfg.metricThresholds {
        var threshold := cfg.metricThresholds[m];
        if threshold == 0.0 || values[m] >= threshold {
          return true;
        }
      }
      i := i + 1;
    }
    found := false;
  }

  method AnyTargeted(cfg: Settings, dyn: Values, values: Values) returns (found: bool)
    ensures found <==> Targeted(cfg, dyn, values)
  {
    var order := RangeOrder(values.Keys);
    var i := 0;
    while i < |order|
      invariant 0 <= i <= |order|
      invariant forall k :: 0 <= k < i ==> order[k] !in cfg.metricThresholds
    {
      if order[i] in cfg.metricThresholds {
        return true;
      }
      i := i + 1;
    }
    if cfg.dynamicEnabled {
      var again := RangeOrder(values.Keys);
      var j := 0;
      while j < |again|
        invariant 0 <= j <= |again|
        invariant forall k :: 0 <= k < j ==> again[k] !in dyn
      {
        if again[j] in dyn {
          return true;
        }
        j := j + 1;
      }
    }
    found := false;
  }

  /** What one weighted metric adds to the score; metrics without a value or with no positive threshold add nothing. */
  method ScoreMetric(cfg: Settings, dyn: Values, values: Values, metric: string) returns (part: real)
    requires metric in cfg.weights
    ensures part == ScoreTerm(cfg, dyn, values, metric)
  {
    part := 0.0;
    if metric in values {
      var v := values[metric];
      var t := v * 1.5;
      if metric in cfg.metricThresholds {
        t := cfg.metricThresholds[metric];
        if cfg.dynamicEnabled && metric in dyn && dyn[metric] > 0.0 {
          t := dyn[metric];
        }
      }
      if t > 0.0 {
        var norm := v / t;
        part := norm * cfg.weights[metric];
      }
    }
  }

  /** The scoring loop over the weighted metrics; term is what each one adds. */
  method AddScores(cfg: Settings, dyn: Values, values: Values, keys: seq<string>, ghost term: string -> Amount)
    returns (score: real)
    requires forall k :: k in keys ==> k in cfg.weights && term(k).d == ScoreTerm(cfg, dyn, values, k)
    ensures score == SumOf(keys, term).d
  {
    score := 0.0;
    var i := 0;
    while i < |keys|
      invariant 0 <= i <= |keys|
      invariant score == SumOf(keys[..i], term).d
    {
      SumOfPrefix(keys, i, term);
      var part := ScoreMetric(cfg, dyn, values, keys[i]);
      score := score + part;
      i := i + 1;
    }
    assert keys[..i] == keys;
  }

  method CalculateComposite(cfg: Settings, dyn: Values, values: Values) returns (score: real)
    ensures score == CompositeScore(cfg, dyn, values)
  {
    var keys := RangeOrder(cfg.weights.Keys);
    score := AddScores(cfg, dyn, values, keys, TermAmount(cfg, dyn, values));
    ScoreIgnoresOrder(cfg, dyn, values, keys);
  }

  method AverageOf(history: seq<real>) returns (avg: real)
    requires history != []
    ensures avg == Average(history)
  {
    var sum := 0.0;
    var i := 0;
    while i < |history|
      invariant 0 <= i <= |history| && sum == SumReals(history[..i])
    {
      assert history[..i + 1][..i] == history[..i];
      sum := sum + history[i];
      i := i + 1;
    }
    assert history[..i] == history;
    avg := sum / (|history| as real);
  }

  /** A tracked entity; the ghost field keeps everything ever recorded. */
  class TrackedEntity {
    ghost const id: string
    var lastExceeded: int
    var lastAnomalyDetected: int
    var metricHistory: map<string, seq<real>>
    ghost var recorded: map<string, seq<real>>
    const currentValues: ValueMap
    const maxValues: ValueMap

    constructor (lastExceeded: int, history: map<string, seq<real>>, values: ValueMap)
      ensures View() == Entity(lastExceeded, 0, history, history, values.m, values.m, true)
      ensures currentValues == maxValues == values && id == values.id
    {
      id := values.id;
      this.lastExceeded, lastAnomalyDetected := lastExceeded, 0;
      metricHistory, recorded := history, history;
      currentValues, maxValues := values, values;
    }

    ghost function View(): Entity
      reads this, currentValues, maxValues
    {
      Entity(lastExceeded, lastAnomalyDetected, metricHistory, recorded, currentValues.m, maxValues.m,
        currentValues == maxValues)
    }

    /** Writes one value into both maps. */
    method WriteValue(m: string, v: real)
      modifies currentValues, maxValues
      ensures currentValues.m == old(currentValues.m)[m := v]
      ensures currentValues != maxValues ==>
        maxValues.m == if v > Lookup(old(maxValues.m), m) then old(maxValues.m)[m := v] else old(maxValues.m)
    {
      currentValues.m := currentValues.m[m := v];
      if v > Lookup(maxValues.m, m) {
        maxValues.m := maxValues.m[m := v];
      }
    }

    /** Writes the values into both maps, which may be the same object. */
    method UpdateEntityValues(values: Values)
      modifies currentValues, maxValues
      ensures View() == UpdateValues(old(View()), values)
    {
      var rest := values.Keys;
      while rest != {}
        invariant rest <= values.Keys
        invariant currentValues.m == old(currentValues.m) + Without(values, rest)
        invariant currentValues != maxValues ==> maxValues.m == Raised(old(maxValues.m), Without(values, rest))
        decreases rest
      {
        var m :| m in rest;
        WithoutStep(values, rest, m);
        MergeStep(old(currentValues.m), Without(values, rest), m, values[m]);
        RaisedStep(old(maxValues.m), Without(values, rest), m, values[m]);
        WriteValue(m, values[m]);
        rest := rest - {m};
      }
      assert Without(values, {}) == values;
    }

    /** What tracking does for a zombie or a listed process seen before. */
    method Touch(values: Values, now: int)
      modifies this, currentValues, maxValues
      ensures View() == UpdateValues(old(View()), values).(lastExceeded := now)
    {
      UpdateEntityValues(values);
      lastExceeded := now;
    }

    /** Records one value and reports whether it spikes over the history before it. */
    method CheckMetricAnomaly(cfg: Settings, m: string, value: real, now: int) returns (spike: bool)
      requires m in cfg.metricThresholds
      modifies this
      ensures spike <==> Spikes(cfg, HistoryOf(old(metricHistory), m), value)
      ensures View() ==
        Record(cfg, old(View()), m, value).(lastAnomaly := if spike then now else old(lastAnomalyDetected))
    {
      var history := HistoryOf(metricHistory, m);
      metricHistory := metricHistory[m := history + [value]];
      recorded := recorded[m := HistoryOf(recorded, m) + [value]];
      if |metricHistory[m]| > HistorySize(cfg) {
        metricHistory := metricHistory[m := metricHistory[m][1..]];
      }
      if |history| < MinPoints(cfg) {
        return false;
      }
      var avg := AverageOf(history);
      var pctChange := PercentChange(value, avg);
      if pctChange >= ChangeThreshold(cfg) {
        lastAnomalyDetected := now;
        return true;
      }
      return false;
    }

    /** Visits the values until one spikes. */
    method DetectAnomaly(cfg: Settings, values: Values, order: seq<string>, now: int) returns (spike: bool)
      requires Enumerates(order, values.Keys)
      modifies this
      ensures Detection(View(), spike) == Detect(cfg, old(View()), values, order, now)
    {
      var i := 0;
      assert order[0..] == order;
      while i < |order|
        invariant 0 <= i <= |order|
        invariant Detect(cfg, old(View()), values, order, now) == Detect(cfg, View(), values, order[i..], now)
      {
        assert order[i..][1..] == order[i + 1..];
        var m := order[i];
        if m in cfg.metricThresholds {
          spike := CheckMetricAnomaly(cfg, m, values[m], now);
          if spike {
            return true;
          }
        }
        i := i + 1;
      }
      spike := false;
    }

    /** The stages before retention, for new and existing entities alike. */
    method CheckStages(cfg: Settings, dyn: Values, o: Observation, now: int) returns (verdict: Verdict)
      requires Enumerates(o.order, o.values.Keys)
      modifies this
      ensures Evaluation(View(), verdict) == CheckNew(cfg, dyn, old(View()), o, now)
    {
      if cfg.anomalyEnabled {
        var spike := DetectAnomaly(cfg, o.values, o.order, now);
        if spike {
          return Included(AnomalyDetection);
        }
      }
      var exceeds := AnyMeetsThreshold(cfg, dyn, o.values);
      if exceeds {
        lastExceeded := now;
        return Included(ThresholdStage(cfg));
      }
      if cfg.multiEnabled {
        var compScore := CalculateComposite(cfg, dyn, o.values);
        if compScore >= CompositeThreshold(cfg) {
          lastExceeded := now;
          return Included(MultiMetric);
        }
      }
      return Excluded;
    }

    /** All stages for an entity that was tracked before. */
    method EvaluateTracked(cfg: Settings, dyn: Values, o: Observation, now: int) returns (verdict: Verdict)
      requires Enumerates(o.order, o.values.Keys)
      modifies this, currentValues, maxValues
      ensures Evaluation(View(), verdict) == EvaluateExisting(cfg, dyn, old(View()), o, now)
    {
      UpdateEntityValues(o.values);
      verdict := CheckStages(cfg, dyn, o, now);
      if verdict != Excluded {
        return;
      }
      if cfg.anomalyEnabled && lastAnomalyDetected != 0 {
        var anomalyRetentionMins := DEFAULT_ANOMALY_RETENTION_MINUTES;
        if cfg.retentionMinutes > 0 {
          anomalyRetentionMins := cfg.retentionMinutes;
        }
        if now - lastAnomalyDetected < anomalyRetentionMins * MINUTE {
          return Included(AnomalyRetention);
        }
      }
      if cfg.retentionMinutes > 0 && lastExceeded != 0 {
        if now - lastExceeded < cfg.retentionMinutes * MINUTE {
          return Included(StandardRetention);
        }
      }
    }
  }
}
