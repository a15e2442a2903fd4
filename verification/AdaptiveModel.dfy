/**
 * What the adaptive telemetry processor decides about one resource and remembers about it
 * (process_metrics.go, anomaly_detection.go, persistence.go), and runs of such steps.
 * Times are nanoseconds; 0 is Go's zero time.
 */
module AdaptiveModel {
  import opened AdaptiveConfig
  import opened Grouping

  type Values = map<string, real>

  const MINUTE := 60_000_000_000
  const DEFAULT_ANOMALY_RETENTION_MINUTES := 30

  datatype Stage =
    | DefaultInclusion | ZombieProcess | IncludeList
    | StaticThreshold | DynamicThreshold | MultiMetric
    | AnomalyDetection | AnomalyRetention | StandardRetention
    | ProcessingTimeout | DebugNoMatch

  datatype Verdict = Excluded | Included(stage: Stage)

  /**
   * A tracked entity. shared says that its two value maps are one and the same object.
   * recorded keeps every value ever recorded for a metric; no decision reads it.
   */
  datatype Entity = Entity(
    lastExceeded: int, lastAnomaly: int,
    history: map<string, seq<real>>, recorded: map<string, seq<real>>,
    current: Values, max: Values, shared: bool)

  /** One resource as evaluated: its identity, its values and the order in which Go happens to visit them. */
  datatype Observation = Observation(id: string, values: Values, zombie: bool, listed: bool, order: seq<string>)

  datatype Outcome = Outcome(tracked: map<string, Entity>, verdict: Verdict)

  function Lookup(m: Values, k: string): real {
    if k in m then m[k] else 0.0
  }

  function HistoryOf(h: map<string, seq<real>>, k: string): seq<real> {
    if k in h then h[k] else []
  }

  // ------------------------------------------------------------- value maps

  /**
   * The maxima after seeing values: a metric enters or rises only when its value exceeds the stored one, zero if
   * absent.
   */
  function Raised(max: Values, values: Values): Values {
    map k | k in max.Keys + values.Keys && (k in max || values[k] > 0.0) ::
      if k in values && values[k] > Lookup(max, k) then values[k] else max[k]
  }

  function UpdateValues(e: Entity, values: Values): Entity {
    e.(current := e.current + values, max := if e.shared then e.max + values else Raised(e.max, values))
  }

  // -------------------------------------------------------- anomaly detection

  function HistorySize(cfg: Settings): int {
    if cfg.historySize <= 0 then DEFAULT_HISTORY_SIZE else cfg.historySize
  }

  function ChangeThreshold(cfg: Settings): real {
    if cfg.changeThreshold <= 0.0 then DEFAULT_CHANGE_THRESHOLD else cfg.changeThreshold
  }

  function MinPoints(cfg: Settings): int {
    if cfg.minDataPoints <= 0 then DEFAULT_MIN_DATA_POINTS else cfg.minDataPoints
  }

  function SumReals(s: seq<real>): real {
    if s == [] then 0.0 else SumReals(s[..|s| - 1]) + s[|s| - 1]
  }

  lemma QuotientTimes(a: real, b: real)
    requires b != 0.0
    ensures a / b * b == a
  {
  }

  function Average(s: seq<real>): real
    requires s != []
  {
    SumReals(s) / (|s| as real)
  }

  function PercentChange(value: real, avg: real): real {
    if avg > 0.0 then ((value - avg) / avg) * 100.0 else 0.0
  }

  /** The value is a spike over the history. */
  predicate Spikes(cfg: Settings, history: seq<real>, value: real) {
    |history| >= MinPoints(cfg) && PercentChange(value, Average(history)) >= ChangeThreshold(cfg)
  }

  /** Append and drop the oldest value when the window is full. */
  function Slide(history: seq<real>, value: real, size: int): seq<real> {
    var h := history + [value];
    if |h| > size then h[1..] else h
  }

  function Record(cfg: Settings, e: Entity, metric: string, value: real): Entity {
    e.(history := e.history[metric := Slide(HistoryOf(e.history, metric), value, HistorySize(cfg))],
       recorded := e.recorded[metric := HistoryOf(e.recorded, metric) + [value]])
  }

  datatype Detection = Detection(e: Entity, spike: bool)

  /** Visits the metrics in the given order and stops at the first spike. */
  function Detect(cfg: Settings, e: Entity, values: Values, order: seq<string>, now: int): Detection
    requires forall m :: m in order ==> m in values
    decreases |order|
  {
    if order == [] then Detection(e, false)
    else
      var m := order[0];
      if m !in cfg.metricThresholds then Detect(cfg, e, values, order[1..], now)
      else
        var noted := Record(cfg, e, m, values[m]);
        if Spikes(cfg, HistoryOf(e.history, m), values[m]) then Detection(noted.(lastAnomaly := now), true)
        else Detect(cfg, noted, values, order[1..], now)
  }

  // ------------------------------------------------------------------- stages

  /** Some metric of the resource is configured. */
  ghost predicate Targeted(cfg: Settings, dyn: Values, values: Values) {
    exists m :: m in values && (m in cfg.metricThresholds || (cfg.dynamicEnabled && m in dyn))
  }

  /** A value at or above the metric's threshold; a static threshold of zero admits every value. */
  predicate MeetsThreshold(cfg: Settings, dyn: Values, m: string, v: real) {
    if cfg.dynamicEnabled then m in dyn && v >= dyn[m]
    else m in cfg.metricThresholds && (cfg.metricThresholds[m] == 0.0 || v >= cfg.metricThresholds[m])
  }

  ghost predicate ExceedsThreshold(cfg: Settings, dyn: Values, values: Values) {
    exists m :: m in values && MeetsThreshold(cfg, dyn, m, values[m])
  }

  function ThresholdStage(cfg: Settings): Stage {
    if cfg.dynamicEnabled then DynamicThreshold else StaticThreshold
  }

  /** The threshold a weighted metric is measured against. */
  function ScoreThreshold(cfg: Settings, dyn: Values, values: Values, m: string): real
    requires m in values
  {
    if m !in cfg.metricThresholds then values[m] * 1.5
    else if cfg.dynamicEnabled && m in dyn && dyn[m] > 0.0 then dyn[m]
    else cfg.metricThresholds[m]
  }

  /** What one weighted metric contributes to the composite score. */
  function ScoreTerm(cfg: Settings, dyn: Values, values: Values, m: string): real {
    if m !in cfg.weights || m !in values then 0.0
    else
      var t := ScoreThreshold(cfg, dyn, values, m);
      if t <= 0.0 then 0.0 else values[m] / t * cfg.weights[m]
  }

  /** Some enumeration of a set of keys. */
  ghost function KeySeq(keys: set<string>): (order: seq<string>)
    ensures Enumerates(order, keys)
  {
    if keys == {} then []
    else
      var k :| k in keys;
      var rest := KeySeq(keys - {k});
      [k] + rest
  }

  function TermAmount(cfg: Settings, dyn: Values, values: Values): string -> Amount {
    m => Amount(0, ScoreTerm(cfg, dyn, values, m))
  }

  ghost function CompositeScore(cfg: Settings, dyn: Values, values: Values): real {
    SumOf(KeySeq(cfg.weights.Keys), TermAmount(cfg, dyn, values)).d
  }

  function CompositeThreshold(cfg: Settings): real {
    if cfg.compositeThreshold <= 0.0 then DEFAULT_COMPOSITE_THRESHOLD else cfg.compositeThreshold
  }

  ghost predicate ExceedsComposite(cfg: Settings, dyn: Values, values: Values) {
    cfg.multiEnabled && CompositeScore(cfg, dyn, values) >= CompositeThreshold(cfg)
  }

  predicate InAnomalyRetention(cfg: Settings, e: Entity, now: int) {
    cfg.anomalyEnabled && e.lastAnomaly != 0 &&
    now - e.lastAnomaly <
      (if cfg.retentionMinutes > 0 then cfg.retentionMinutes else DEFAULT_ANOMALY_RETENTION_MINUTES) * MINUTE
  }

  predicate InStandardRetention(cfg: Settings, e: Entity, now: int) {
    cfg.retentionMinutes > 0 && e.lastExceeded != 0 && now - e.lastExceeded < cfg.retentionMinutes * MINUTE
  }

  // --------------------------------------------------------------- evaluation

  datatype Evaluation = Evaluation(e: Entity, verdict: Verdict)

  /** The stages after anomaly detection, as far as they set LastExceeded. */
  ghost function CheckThresholds(cfg: Settings, dyn: Values, e: Entity, values: Values, now: int): Evaluation {
    if ExceedsThreshold(cfg, dyn, values) then Evaluation(e.(lastExceeded := now), Included(ThresholdStage(cfg)))
    else if ExceedsComposite(cfg, dyn, values) then Evaluation(e.(lastExceeded := now), Included(MultiMetric))
    else Evaluation(e, Excluded)
  }

  ghost function CheckNew(cfg: Settings, dyn: Values, e: Entity, o: Observation, now: int): Evaluation
    requires forall m :: m in o.order ==> m in o.values
  {
    if !cfg.anomalyEnabled then CheckThresholds(cfg, dyn, e, o.values, now)
    else
      var d := Detect(cfg, e, o.values, o.order, now);
      if d.spike then Evaluation(d.e, Included(AnomalyDetection))
      else CheckThresholds(cfg, dyn, d.e, o.values, now)
  }

  ghost function EvaluateExisting(cfg: Settings, dyn: Values, e: Entity, o: Observation, now: int): Evaluation
    requires forall m :: m in o.order ==> m in o.values
  {
    var r := CheckNew(cfg, dyn, UpdateValues(e, o.values), o, now);
    if r.verdict != Excluded then r
    else if InAnomalyRetention(cfg, r.e, now) then r.(verdict := Included(AnomalyRetention))
    else if InStandardRetention(cfg, r.e, now) then r.(verdict := Included(StandardRetention))
    else r
  }

  /** A new entity stores the value map twice; with anomaly detection on, each history starts with the value. */
  function NewEntity(cfg: Settings, values: Values): Entity {
    var first := if cfg.anomalyEnabled then map m | m in values :: [values[m]] else map[];
    Entity(0, 0, first, first, values, values, true)
  }

  ghost function EvaluateNew(cfg: Settings, dyn: Values, tracked: map<string, Entity>, o: Observation,
                             now: int): Outcome
    requires forall m :: m in o.order ==> m in o.values
  {
    var r := CheckNew(cfg, dyn, NewEntity(cfg, o.values), o, now);
    if r.verdict != Excluded then Outcome(tracked[o.id := r.e], r.verdict)
    else if cfg.debugShowAll then Outcome(tracked[o.id := r.e], Included(DebugNoMatch))
    else Outcome(tracked, Excluded)
  }

  /** Tracking for zombies and listed processes. */
  function Upsert(tracked: map<string, Entity>, id: string, values: Values, now: int): map<string, Entity> {
    tracked[id :=
      if id in tracked then UpdateValues(tracked[id], values).(lastExceeded := now)
      else Entity(now, 0, map[], map[], values, values, true)]
  }

  /** The decision about one resource. */
  ghost function Evaluate(cfg: Settings, dyn: Values, tracked: map<string, Entity>, o: Observation, now: int): Outcome
    requires forall m :: m in o.order ==> m in o.values
  {
    if !Targeted(cfg, dyn, o.values) then Outcome(tracked, Included(DefaultInclusion))
    else if o.zombie then Outcome(Upsert(tracked, o.id, o.values, now), Included(ZombieProcess))
    else if o.listed then Outcome(Upsert(tracked, o.id, o.values, now), Included(IncludeList))
    else if o.id in tracked then
      var r := EvaluateExisting(cfg, dyn, tracked[o.id], o, now);
      Outcome(tracked[o.id := r.e], r.verdict)
    else EvaluateNew(cfg, dyn, tracked, o, now)
  }

  /** An evaluation touches no other identity. */
  lemma EvaluateIsLocal(cfg: Settings, dyn: Values, tracked: map<string, Entity>, o: Observation, now: int)
    requires forall m :: m in o.order ==> m in o.values
    ensures forall id :: id != o.id ==>
      var after := Evaluate(cfg, dyn, tracked, o, now).tracked;
      (id in after <==> id in tracked) && (id in tracked ==> after[id] == tracked[id])
  {
  }

  /** Where the evaluated identity's entity comes from. */
  lemma EvaluatedEntity(cfg: Settings, dyn: Values, tracked: map<string, Entity>, o: Observation, now: int)
    requires forall m :: m in o.order ==> m in o.values
    ensures var r := Evaluate(cfg, dyn, tracked, o, now);
      || r.tracked == tracked
      || (o.id in r.tracked && r.tracked == Upsert(tracked, o.id, o.values, now))
      || (o.id in tracked && r.tracked == tracked[o.id := EvaluateExisting(cfg, dyn, tracked[o.id], o, now).e])
      || (o.id !in tracked && r.tracked == tracked[o.id := CheckNew(cfg, dyn, NewEntity(cfg, o.values), o, now).e])
  {
  }

  /** Cleanup drops the entities whose last exceedance lies before the retention window. */
  function Swept(cfg: Settings, tracked: map<string, Entity>, now: int): map<string, Entity> {
    if cfg.retentionMinutes <= 0 then tracked
    else map id | id in tracked && tracked[id].lastExceeded >= now - cfg.retentionMinutes * MINUTE :: tracked[id]
  }

  // --------------------------------------------------------------------- runs

  datatype State = State(tracked: map<string, Entity>, dyn: Values)

  /** A step: a resource is evaluated, expired entities are swept, or the dynamic thresholds change. */
  datatype Event = Observe(o: Observation, now: int) | Sweep(now: int) | Retune(dyn: Values)

  ghost predicate WellFormed(e: Event) {
    e.Observe? ==> Enumerates(e.o.order, e.o.values.Keys)
  }

  ghost predicate AllWellFormed(events: seq<Event>) {
    forall e :: e in events ==> WellFormed(e)
  }

  ghost function Apply(cfg: Settings, s: State, e: Event): State
    requires WellFormed(e)
  {
    match e
    case Observe(o, now) => s.(tracked := Evaluate(cfg, s.dyn, s.tracked, o, now).tracked)
    case Sweep(now) => s.(tracked := Swept(cfg, s.tracked, now))
    case Retune(dyn) => s.(dyn := dyn)
  }

  /** The verdict of one step, if it evaluates a resource. */
  ghost function VerdictsOf(cfg: Settings, s: State, e: Event): seq<Verdict>
    requires WellFormed(e)
  {
    if e.Observe? then [Evaluate(cfg, s.dyn, s.tracked, e.o, e.now).verdict] else []
  }

  ghost function Run(cfg: Settings, s: State, events: seq<Event>): State
    requires AllWellFormed(events)
    decreases |events|
  {
    if events == [] then s
    else
      assert events[0] in events;
      Run(cfg, Apply(cfg, s, events[0]), events[1..])
  }

  lemma {:induction false} RunCons(cfg: Settings, s: State, e: Event, rest: seq<Event>)
    requires WellFormed(e) && AllWellFormed(rest)
    ensures AllWellFormed([e] + rest) && Run(cfg, s, [e] + rest) == Run(cfg, Apply(cfg, s, e), rest)
  {
    assert ([e] + rest)[1..] == rest;
  }

  /** The verdicts of a run, in order. */
  ghost function Verdicts(cfg: Settings, s: State, events: seq<Event>): seq<Verdict>
    requires AllWellFormed(events)
    decreases |events|
  {
    if events == [] then []
    else
      assert events[0] in events;
      VerdictsOf(cfg, s, events[0]) + Verdicts(cfg, Apply(cfg, s, events[0]), events[1..])
  }

  /** The clock never runs backwards, starting from t. */
  predicate Timed(events: seq<Event>, t: int) {
    events == [] ||
    (if events[0].Retune? then Timed(events[1..], t) else events[0].now >= t && Timed(events[1..], events[0].now))
  }

  lemma {:induction false} RunConcat(cfg: Settings, s: State, a: seq<Event>, b: seq<Event>)
    requires AllWellFormed(a) && AllWellFormed(b)
    ensures AllWellFormed(a + b)
    ensures Run(cfg, s, a + b) == Run(cfg, Run(cfg, s, a), b)
    ensures Verdicts(cfg, s, a + b) == Verdicts(cfg, s, a) + Verdicts(cfg, Run(cfg, s, a), b)
    decreases |a|
  {
    if a == [] {
      assert a + b == b;
    } else {
      assert a[0] in a && (a + b)[0] == a[0] && (a + b)[1..] == a[1..] + b;
      RunConcat(cfg, Apply(cfg, s, a[0]), a[1..], b);
    }
  }
}
