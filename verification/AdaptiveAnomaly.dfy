/** The anomaly window over whole runs, and what does not depend on Go's map iteration order. */
module AdaptiveAnomaly {
  import opened AdaptiveConfig
  import opened AdaptiveModel
  import opened Grouping

  // ------------------------------------------------------------------ windows

  /** The last size values, or all of them if there are fewer. */
  function Window(recorded: seq<real>, size: int): seq<real>
    requires size >= 0
  {
    if |recorded| <= size then recorded else recorded[|recorded| - size..]
  }

  lemma {:induction false} SlideKeepsWindow(recorded: seq<real>, value: real, size: int)
    requires size >= 1
    ensures Slide(Window(recorded, size), value, size) == Window(recorded + [value], size)
  {
  }

  /** Every checked metric's history is the window over everything recorded for it. */
  ghost predicate Windowed(cfg: Settings, e: Entity) {
    forall m :: m in cfg.metricThresholds ==>
      HistoryOf(e.history, m) == Window(HistoryOf(e.recorded, m), HistorySize(cfg))
  }

  lemma {:induction false} RecordKeepsWindow(cfg: Settings, e: Entity, m: string, value: real)
    requires Windowed(cfg, e) && m in cfg.metricThresholds
    ensures Windowed(cfg, Record(cfg, e, m, value))
  {
    SlideKeepsWindow(HistoryOf(e.recorded, m), value, HistorySize(cfg));
  }

  lemma {:induction false} DetectKeepsWindow(cfg: Settings, e: Entity, values: Values, order: seq<string>, now: int)
    requires Windowed(cfg, e) && forall m :: m in order ==> m in values
    ensures Windowed(cfg, Detect(cfg, e, values, order, now).e)
    decreases |order|
  {
    if order != [] {
      var m := order[0];
      if m in cfg.metricThresholds {
        var noted := Record(cfg, e, m, values[m]);
        RecordKeepsWindow(cfg, e, m, values[m]);
        DetectKeepsWindow(cfg, noted, values, order[1..], now);
        assert Windowed(cfg, noted.(lastAnomaly := now));
      } else {
        DetectKeepsWindow(cfg, e, values, order[1..], now);
      }
    }
  }

  lemma {:induction false} CheckNewKeepsWindow(cfg: Settings, dyn: Values, e: Entity, o: Observation, now: int)
    requires Windowed(cfg, e) && Enumerates(o.order, o.values.Keys)
    ensures Windowed(cfg, CheckNew(cfg, dyn, e, o, now).e)
  {
    DetectKeepsWindow(cfg, e, o.values, o.order, now);
    var d := if cfg.anomalyEnabled then Detect(cfg, e, o.values, o.order, now).e else e;
    assert Windowed(cfg, d.(lastExceeded := now));
  }

  ghost predicate AllWindowed(cfg: Settings, tracked: map<string, Entity>) {
    forall id :: id in tracked ==> Windowed(cfg, tracked[id])
  }

  lemma {:induction false} ExistingKeepsWindow(cfg: Settings, dyn: Values, e: Entity, o: Observation, now: int)
    requires Windowed(cfg, e) && Enumerates(o.order, o.values.Keys)
    ensures Windowed(cfg, EvaluateExisting(cfg, dyn, e, o, now).e)
  {
    assert Windowed(cfg, UpdateValues(e, o.values));
    CheckNewKeepsWindow(cfg, dyn, UpdateValues(e, o.values), o, now);
  }

  lemma {:induction false} NewIsWindowed(cfg: Settings, values: Values)
    ensures Windowed(cfg, NewEntity(cfg, values))
  {
  }

  lemma {:induction false} UpsertKeepsWindow(cfg: Settings, tracked: map<string, Entity>, id: string, values: Values,
                                             now: int)
    requires AllWindowed(cfg, tracked)
    ensures AllWindowed(cfg, Upsert(tracked, id, values, now))
  {
    if id in tracked {
      assert Windowed(cfg, UpdateValues(tracked[id], values).(lastExceeded := now));
    }
  }

  lemma {:induction false} EvaluateKeepsWindow(cfg: Settings, dyn: Values, tracked: map<string, Entity>, o: Observation,
                                               now: int)
    requires AllWindowed(cfg, tracked) && Enumerates(o.order, o.values.Keys)
    ensures AllWindowed(cfg, Evaluate(cfg, dyn, tracked, o, now).tracked)
  {
    EvaluatedEntity(cfg, dyn, tracked, o, now);
    UpsertKeepsWindow(cfg, tracked, o.id, o.values, now);
    if o.id in tracked {
      ExistingKeepsWindow(cfg, dyn, tracked[o.id], o, now);
    } else {
      NewIsWindowed(cfg, o.values);
      CheckNewKeepsWindow(cfg, dyn, NewEntity(cfg, o.values), o, now);
    }
  }

  /** Over any run that starts with windowed histories (such as none), each history stays the last values recorded. */
  lemma {:induction false} HistoriesAreWindows(cfg: Settings, s: State, events: seq<Event>)
    requires AllWellFormed(events) && AllWindowed(cfg, s.tracked)
    ensures AllWindowed(cfg, Run(cfg, s, events).tracked)
    decreases |events|
  {
    if events != [] {
      var e := events[0];
      assert e in events;
      if e.Observe? {
        EvaluateKeepsWindow(cfg, s.dyn, s.tracked, e.o, e.now);
      }
      HistoriesAreWindows(cfg, Apply(cfg, s, e), events[1..]);
    }
  }

  // ------------------------------------------------------- map iteration order

  /**
   * A spike is found exactly when some checked metric spikes over its own history: the order of visits does not matter.
   */
  lemma {:induction false} DetectFindsAnySpike(cfg: Settings, e: Entity, values: Values, order: seq<string>, now: int)
    requires NoRepeats(order) && forall m :: m in order ==> m in values
    ensures Detect(cfg, e, values, order, now).spike <==>
      exists m :: m in order && m in cfg.metricThresholds && Spikes(cfg, HistoryOf(e.history, m), values[m])
    decreases |order|
  {
    if order != [] {
      var m, rest := order[0], order[1..];
      assert order == [m] + rest;
      var noted := if m in cfg.metricThresholds then Record(cfg, e, m, values[m]) else e;
      DetectFindsAnySpike(cfg, noted, values, rest, now);
      forall k | k in rest ensures HistoryOf(noted.history, k) == HistoryOf(e.history, k) {
        assert k != m;
      }
    }
  }

  /** Nothing is recorded for the metric k. */
  predicate SameAt(a: Entity, b: Entity, k: string) {
    HistoryOf(a.history, k) == HistoryOf(b.history, k) && HistoryOf(a.recorded, k) == HistoryOf(b.recorded, k)
  }

  /** One value is recorded for the metric k. */
  predicate NotedAt(cfg: Settings, a: Entity, b: Entity, k: string, value: real) {
    && HistoryOf(b.history, k) == Slide(HistoryOf(a.history, k), value, HistorySize(cfg))
    && HistoryOf(b.recorded, k) == HistoryOf(a.recorded, k) + [value]
  }

  lemma {:induction false} RecordNotes(cfg: Settings, e: Entity, m: string, value: real, k: string)
    ensures var noted := Record(cfg, e, m, value);
      if k == m then NotedAt(cfg, e, noted, k, value) else SameAt(e, noted, k)
  {
  }

  /** Detection records each checked metric at most once, and exactly once if nothing spiked. */
  lemma {:induction false} DetectRecordsEachOnce(cfg: Settings, e: Entity, values: Values, order: seq<string>, now: int,
                                                 k: string)
    requires NoRepeats(order) && forall m :: m in order ==> m in values
    ensures var d := Detect(cfg, e, values, order, now);
      var checked := k in order && k in cfg.metricThresholds;
      && (SameAt(e, d.e, k) || (checked && NotedAt(cfg, e, d.e, k, values[k])))
      && (!d.spike && checked ==> NotedAt(cfg, e, d.e, k, values[k]))
    decreases |order|
  {
    if order != [] {
      var m, rest := order[0], order[1..];
      assert order == [m] + rest;
      if m in cfg.metricThresholds {
        RecordNotes(cfg, e, m, values[m], k);
        DetectRecordsEachOnce(cfg, Record(cfg, e, m, values[m]), values, rest, now, k);
      } else {
        DetectRecordsEachOnce(cfg, e, values, rest, now, k);
      }
    }
  }

  /** Two entities alike but for their histories. */
  predicate AlikeButHistory(a: Entity, b: Entity) {
    a == b.(history := a.history, recorded := a.recorded)
  }

  lemma {:induction false} DetectSetsTime(cfg: Settings, e: Entity, values: Values, order: seq<string>, now: int)
    requires forall m :: m in order ==> m in values
    ensures var d := Detect(cfg, e, values, order, now);
      AlikeButHistory(d.e, e.(lastAnomaly := if d.spike then now else e.lastAnomaly))
    decreases |order|
  {
    if order != [] {
      var m := order[0];
      var noted := if m in cfg.metricThresholds then Record(cfg, e, m, values[m]) else e;
      DetectSetsTime(cfg, noted, values, order[1..], now);
    }
  }

  /** One of the two histories has the value the other has not reached. */
  predicate ReachedInOne(cfg: Settings, before: seq<real>, a: seq<real>, b: seq<real>, value: real) {
    var after := Slide(before, value, HistorySize(cfg));
    (a == before && b == after) || (a == after && b == before)
  }

  /**
   * The histories of k agree, or k is a checked metric that one order reached before the spike and the other did not.
   */
  predicate AgreeAt(cfg: Settings, before: map<string, seq<real>>, a: Entity, b: Entity, values: Values, spiked: bool,
                    k: string) {
    var h, g := HistoryOf(a.history, k), HistoryOf(b.history, k);
    h == g || (spiked && k in values && k in cfg.metricThresholds &&
      ReachedInOne(cfg, HistoryOf(before, k), h, g, values[k]))
  }

  ghost predicate AlikeUpTo(cfg: Settings, before: map<string, seq<real>>, a: Entity, b: Entity, values: Values,
                            spiked: bool) {
    AlikeButHistory(a, b) && forall k :: AgreeAt(cfg, before, a, b, values, spiked, k)
  }

  lemma {:induction false} DetectIgnoresOrder(cfg: Settings, e: Entity, values: Values, a: seq<string>, b: seq<string>,
                                              now: int)
    requires Enumerates(a, values.Keys) && Enumerates(b, values.Keys)
    ensures var r, q := Detect(cfg, e, values, a, now), Detect(cfg, e, values, b, now);
      r.spike == q.spike && AlikeUpTo(cfg, e.history, r.e, q.e, values, r.spike)
  {
    DetectFindsAnySpike(cfg, e, values, a, now);
    DetectFindsAnySpike(cfg, e, values, b, now);
    DetectSetsTime(cfg, e, values, a, now);
    DetectSetsTime(cfg, e, values, b, now);
    var r, q := Detect(cfg, e, values, a, now), Detect(cfg, e, values, b, now);
    forall k ensures AgreeAt(cfg, e.history, r.e, q.e, values, r.spike, k) {
      DetectRecordsEachOnce(cfg, e, values, a, now, k);
      DetectRecordsEachOnce(cfg, e, values, b, now, k);
    }
  }

  lemma {:induction false} CheckIgnoresHistory(cfg: Settings, dyn: Values, a: Entity, b: Entity, values: Values,
                                               now: int)
    requires AlikeButHistory(a, b)
    ensures var r, q := CheckThresholds(cfg, dyn, a, values, now), CheckThresholds(cfg, dyn, b, values, now);
      r.verdict == q.verdict && AlikeButHistory(r.e, q.e) && r.e.history == a.history && q.e.history == b.history
  {
  }

  lemma {:induction false} CheckNewIgnoresOrder(cfg: Settings, dyn: Values, e: Entity, o: Observation, p: Observation,
                                                now: int)
    requires p == o.(order := p.order) && Enumerates(o.order, o.values.Keys) && Enumerates(p.order, p.values.Keys)
    ensures var r, q := CheckNew(cfg, dyn, e, o, now), CheckNew(cfg, dyn, e, p, now);
      && r.verdict == q.verdict
      && AlikeUpTo(cfg, e.history, r.e, q.e, o.values, r.verdict == Included(AnomalyDetection))
  {
    if cfg.anomalyEnabled {
      DetectIgnoresOrder(cfg, e, o.values, o.order, p.order, now);
      var d, f := Detect(cfg, e, o.values, o.order, now), Detect(cfg, e, o.values, p.order, now);
      CheckIgnoresHistory(cfg, dyn, d.e, f.e, o.values, now);
      if !d.spike {
        var r, q := CheckThresholds(cfg, dyn, d.e, o.values, now), CheckThresholds(cfg, dyn, f.e, o.values, now);
        SameHistoriesAgree(cfg, e.history, d.e, f.e, r.e, q.e, o.values);
      }
    }
  }

  lemma {:induction false} SameHistoriesAgree(cfg: Settings, before: map<string, seq<real>>, a: Entity, b: Entity,
                                              c: Entity, d: Entity,
                           values: Values)
    requires AlikeUpTo(cfg, before, a, b, values, false) && AlikeButHistory(c, d)
    requires c.history == a.history && d.history == b.history
    ensures AlikeUpTo(cfg, before, c, d, values, false)
  {
    forall k ensures AgreeAt(cfg, before, c, d, values, false, k) {
      assert AgreeAt(cfg, before, a, b, values, false, k);
    }
  }

  lemma {:induction false} ExistingIgnoresOrder(cfg: Settings, dyn: Values, e: Entity, o: Observation, p: Observation,
                                                now: int)
    requires p == o.(order := p.order) && Enumerates(o.order, o.values.Keys) && Enumerates(p.order, p.values.Keys)
    ensures var r, q := EvaluateExisting(cfg, dyn, e, o, now), EvaluateExisting(cfg, dyn, e, p, now);
      && r.verdict == q.verdict
      && AlikeUpTo(cfg, e.history, r.e, q.e, o.values, r.verdict == Included(AnomalyDetection))
  {
    CheckNewIgnoresOrder(cfg, dyn, UpdateValues(e, o.values), o, p, now);
  }

  /** The history an evaluation starts from. */
  function HistoryBefore(cfg: Settings, tracked: map<string, Entity>, o: Observation): map<string, seq<real>> {
    if o.id in tracked then tracked[o.id].history else NewEntity(cfg, o.values).history
  }

  /**
   * Whatever order the values are visited in, the decision is the same and so are all entities; only the evaluated
   * one's histories can differ, and only where a spike kept one order from reaching a metric.
   */
  lemma {:induction false} DecisionIgnoresOrder(cfg: Settings, dyn: Values, tracked: map<string, Entity>,
                                                o: Observation, p: Observation,
                             now: int)
    requires p == o.(order := p.order) && Enumerates(o.order, o.values.Keys) && Enumerates(p.order, p.values.Keys)
    ensures var r, q := Evaluate(cfg, dyn, tracked, o, now), Evaluate(cfg, dyn, tracked, p, now);
      && r.verdict == q.verdict && r.tracked.Keys == q.tracked.Keys
      && (forall id :: id in r.tracked && id != o.id ==> r.tracked[id] == q.tracked[id])
      && (o.id in r.tracked ==>
            AlikeUpTo(cfg, HistoryBefore(cfg, tracked, o), r.tracked[o.id], q.tracked[o.id], o.values,
              r.verdict == Included(AnomalyDetection)))
  {
    if o.id in tracked {
      ExistingIgnoresOrder(cfg, dyn, tracked[o.id], o, p, now);
    } else {
      CheckNewIgnoresOrder(cfg, dyn, NewEntity(cfg, o.values), o, p, now);
    }
  }

  /** The same step but for the order in which the values are visited. */
  ghost predicate SameButOrder(e: Event, f: Event) {
    if e.Observe? then f.Observe? && f.now == e.now && f.o == e.o.(order := f.o.order) else f == e
  }

  lemma {:induction false} StepIgnoresOrder(cfg: Settings, s: State, e: Event, f: Event)
    requires !cfg.anomalyEnabled && WellFormed(e) && WellFormed(f) && SameButOrder(e, f)
    ensures Apply(cfg, s, e) == Apply(cfg, s, f) && VerdictsOf(cfg, s, e) == VerdictsOf(cfg, s, f)
  {
  }

  /** Without anomaly detection whole runs do not depend on the orders. */
  lemma {:induction false} RunIgnoresOrder(cfg: Settings, s: State, events: seq<Event>, others: seq<Event>)
    requires !cfg.anomalyEnabled && AllWellFormed(events) && AllWellFormed(others) && |events| == |others|
    requires forall i :: 0 <= i < |events| ==> SameButOrder(events[i], others[i])
    ensures Run(cfg, s, events) == Run(cfg, s, others) && Verdicts(cfg, s, events) == Verdicts(cfg, s, others)
    decreases |events|
  {
    if events != [] {
      assert events[0] in events && others[0] in others;
      StepIgnoresOrder(cfg, s, events[0], others[0]);
      RunIgnoresOrder(cfg, Apply(cfg, s, events[0]), events[1..], others[1..]);
    }
  }

  lemma {:induction false} EnumerationsAgree(a: seq<string>, b: seq<string>, keys: set<string>)
    requires Enumerates(a, keys) && Enumerates(b, keys)
    ensures multiset(a) == multiset(b)
  {
    forall k ensures multiset(a)[k] == multiset(b)[k] {
      OccursOnce(a, k);
      OccursOnce(b, k);
    }
  }

  lemma {:induction false} OccursOnce(a: seq<string>, k: string)
    requires NoRepeats(a)
    ensures multiset(a)[k] == if k in a then 1 else 0
  {
    if a != [] {
      assert a == [a[0]] + a[1..];
      OccursOnce(a[1..], k);
    }
  }

  /** The composite score is the same over every enumeration of the weighted metrics. */
  lemma {:induction false} ScoreIgnoresOrder(cfg: Settings, dyn: Values, values: Values, order: seq<string>)
    requires Enumerates(order, cfg.weights.Keys)
    ensures SumOf(order, TermAmount(cfg, dyn, values)).d == CompositeScore(cfg, dyn, values)
  {
    EnumerationsAgree(order, KeySeq(cfg.weights.Keys), cfg.weights.Keys);
    SumOfIsOrderFree(order, KeySeq(cfg.weights.Keys), TermAmount(cfg, dyn, values));
  }

  // ------------------------------------------------------ when anomalies occur

  /** The change over a history of one value, that value, is none. */
  lemma {:induction false} NoChangeOverItself(value: real)
    ensures PercentChange(value, Average([value])) == 0.0
  {
    assert SumReals([value]) == SumReals([value][..0]) + value == value;
    assert Average([value]) == value / 1.0;
  }

  /** A brand-new entity's history is its one value: too little to spike, or no change over it. */
  lemma {:induction false} NewEntityNeverSpikes(cfg: Settings, values: Values, order: seq<string>, now: int)
    requires cfg.anomalyEnabled && Enumerates(order, values.Keys)
    ensures !Detect(cfg, NewEntity(cfg, values), values, order, now).spike
  {
    var e := NewEntity(cfg, values);
    DetectFindsAnySpike(cfg, e, values, order, now);
    forall m | m in order ensures !Spikes(cfg, HistoryOf(e.history, m), values[m]) {
      NoChangeOverItself(values[m]);
    }
  }

  /** The first value of a new entity is recorded twice: once on creation and once by the detector. */
  lemma {:induction false} FirstValueIsRecordedTwice(cfg: Settings, values: Values, order: seq<string>, now: int,
                                                     m: string)
    requires cfg.anomalyEnabled && Enumerates(order, values.Keys)
    requires m in values && m in cfg.metricThresholds
    ensures HistoryOf(Detect(cfg, NewEntity(cfg, values), values, order, now).e.recorded, m) == [values[m], values[m]]
  {
    NewEntityNeverSpikes(cfg, values, order, now);
    DetectRecordsEachOnce(cfg, NewEntity(cfg, values), values, order, now, m);
  }

  predicate IsAnomaly(v: Verdict) {
    v == Included(AnomalyDetection) || v == Included(AnomalyRetention)
  }

  ghost predicate NeverMarked(tracked: map<string, Entity>) {
    forall id :: id in tracked ==> tracked[id].lastAnomaly == 0
  }

  /** Windowed and never marked anomalous. */
  ghost predicate Calm(cfg: Settings, tracked: map<string, Entity>) {
    AllWindowed(cfg, tracked) && NeverMarked(tracked)
  }

  /** No value can ever spike: detection is off, the window is too short, or no metric is checked. */
  predicate Quiet(cfg: Settings) {
    !cfg.anomalyEnabled || HistorySize(cfg) < MinPoints(cfg) || cfg.metricThresholds == map[]
  }

  lemma {:induction false} QuietDetectFindsNothing(cfg: Settings, e: Entity, o: Observation, now: int)
    requires cfg.anomalyEnabled && Quiet(cfg) && Windowed(cfg, e) && Enumerates(o.order, o.values.Keys)
    ensures var d := Detect(cfg, e, o.values, o.order, now); !d.spike && AlikeButHistory(d.e, e)
  {
    DetectFindsAnySpike(cfg, e, o.values, o.order, now);
    DetectSetsTime(cfg, e, o.values, o.order, now);
  }

  /** Then the stages before retention are the thresholds. */
  lemma {:induction false} QuietCheckIsThresholds(cfg: Settings, dyn: Values, e: Entity, o: Observation, now: int)
    requires Quiet(cfg) && (cfg.anomalyEnabled ==> Windowed(cfg, e)) && Enumerates(o.order, o.values.Keys)
    ensures var r, q := CheckNew(cfg, dyn, e, o, now), CheckThresholds(cfg, dyn, e, o.values, now);
      r.verdict == q.verdict && AlikeButHistory(r.e, q.e)
  {
    if cfg.anomalyEnabled {
      QuietDetectFindsNothing(cfg, e, o, now);
      CheckIgnoresHistory(cfg, dyn, Detect(cfg, e, o.values, o.order, now).e, e, o.values, now);
    }
  }

  lemma {:induction false} ThresholdsNeverMark(cfg: Settings, dyn: Values, e: Entity, values: Values, now: int)
    ensures var r := CheckThresholds(cfg, dyn, e, values, now);
      !IsAnomaly(r.verdict) && r.e.lastAnomaly == e.lastAnomaly
  {
  }

  lemma {:induction false} QuietCheckNeverMarks(cfg: Settings, dyn: Values, e: Entity, o: Observation, now: int)
    requires Quiet(cfg) && (cfg.anomalyEnabled ==> Windowed(cfg, e)) && Enumerates(o.order, o.values.Keys)
    ensures var r := CheckNew(cfg, dyn, e, o, now); !IsAnomaly(r.verdict) && r.e.lastAnomaly == e.lastAnomaly
  {
    QuietCheckIsThresholds(cfg, dyn, e, o, now);
    ThresholdsNeverMark(cfg, dyn, e, o.values, now);
  }

  lemma {:induction false} ExistingStaysCalm(cfg: Settings, dyn: Values, e: Entity, o: Observation, now: int)
    requires Quiet(cfg) && Windowed(cfg, e) && e.lastAnomaly == 0 && Enumerates(o.order, o.values.Keys)
    ensures var r := EvaluateExisting(cfg, dyn, e, o, now); !IsAnomaly(r.verdict) && r.e.lastAnomaly == 0
  {
    assert Windowed(cfg, UpdateValues(e, o.values));
    QuietCheckNeverMarks(cfg, dyn, UpdateValues(e, o.values), o, now);
  }

  lemma {:induction false} EvaluateStaysQuiet(cfg: Settings, dyn: Values, tracked: map<string, Entity>, o: Observation,
                                              now: int)
    requires Quiet(cfg) && Calm(cfg, tracked) && Enumerates(o.order, o.values.Keys)
    ensures !IsAnomaly(Evaluate(cfg, dyn, tracked, o, now).verdict)
  {
    if o.id in tracked {
      ExistingStaysCalm(cfg, dyn, tracked[o.id], o, now);
    } else {
      NewIsWindowed(cfg, o.values);
      QuietCheckNeverMarks(cfg, dyn, NewEntity(cfg, o.values), o, now);
    }
  }

  lemma {:induction false} MarkedOnlyBy(tracked: map<string, Entity>, id: string, e: Entity)
    requires NeverMarked(tracked) && e.lastAnomaly == 0
    ensures NeverMarked(tracked[id := e])
  {
  }

  lemma {:induction false} EvaluateNeverMarks(cfg: Settings, dyn: Values, tracked: map<string, Entity>, o: Observation,
                                              now: int)
    requires Quiet(cfg) && Calm(cfg, tracked) && Enumerates(o.order, o.values.Keys)
    ensures NeverMarked(Evaluate(cfg, dyn, tracked, o, now).tracked)
  {
    MarkedOnlyBy(tracked, o.id, Upsert(tracked, o.id, o.values, now)[o.id]);
    if o.id in tracked {
      ExistingStaysCalm(cfg, dyn, tracked[o.id], o, now);
      MarkedOnlyBy(tracked, o.id, EvaluateExisting(cfg, dyn, tracked[o.id], o, now).e);
    } else {
      NewIsWindowed(cfg, o.values);
      QuietCheckNeverMarks(cfg, dyn, NewEntity(cfg, o.values), o, now);
      MarkedOnlyBy(tracked, o.id, CheckNew(cfg, dyn, NewEntity(cfg, o.values), o, now).e);
    }
  }

  /** One evaluation keeps the entities windowed and unmarked. */
  lemma {:induction false} EvaluateKeepsCalm(cfg: Settings, dyn: Values, tracked: map<string, Entity>, o: Observation,
                                             now: int)
    requires Quiet(cfg) && Calm(cfg, tracked) && Enumerates(o.order, o.values.Keys)
    ensures Calm(cfg, Evaluate(cfg, dyn, tracked, o, now).tracked)
  {
    EvaluateNeverMarks(cfg, dyn, tracked, o, now);
    EvaluateKeepsWindow(cfg, dyn, tracked, o, now);
  }

  /** With a history shorter than the minimum number of data points, say, no run ever yields an anomaly. */
  lemma {:induction false} QuietNeverReports(cfg: Settings, s: State, events: seq<Event>)
    requires Quiet(cfg) && AllWellFormed(events) && Calm(cfg, s.tracked)
    ensures forall v :: v in Verdicts(cfg, s, events) ==> !IsAnomaly(v)
    decreases |events|
  {
    if events != [] {
      var e := events[0];
      assert e in events;
      if e.Observe? {
        EvaluateStaysQuiet(cfg, s.dyn, s.tracked, e.o, e.now);
        EvaluateKeepsCalm(cfg, s.dyn, s.tracked, e.o, e.now);
      }
      QuietNeverReports(cfg, Apply(cfg, s, e), events[1..]);
    }
  }

  // --------------------------------------------- a run that reports an anomaly

  function Ones(n: nat): seq<real> {
    seq(n, _ => 1.0)
  }

  lemma {:induction false} SumOfOnes(n: nat)
    ensures SumReals(Ones(n)) == n as real
  {
    if n > 0 {
      assert Ones(n)[..n - 1] == Ones(n - 1);
      SumOfOnes(n - 1);
    }
  }

  lemma {:induction false} ChangeOverOnes(n: nat, value: real)
    requires n > 0
    ensures PercentChange(value, Average(Ones(n))) == (value - 1.0) * 100.0
  {
    SumOfOnes(n);
    assert Average(Ones(n)) == 1.0;
  }

  /** A resource that reports the single metric m. */
  function Reading(m: string, value: real, listed: bool): Observation {
    Observation("entity", map[m := value], false, listed, [m])
  }

  /** The entity is tracked and its history of m is n ones. */
  ghost predicate HasOnes(s: State, m: string, n: nat) {
    "entity" in s.tracked && HistoryOf(s.tracked["entity"].history, m) == Ones(n)
  }

  lemma {:induction false} DetectOne(cfg: Settings, e: Entity, m: string, value: real, now: int)
    requires m in cfg.metricThresholds
    ensures var d := Detect(cfg, e, map[m := value], [m], now);
      d.spike == Spikes(cfg, HistoryOf(e.history, m), value) &&
      HistoryOf(d.e.history, m) == Slide(HistoryOf(e.history, m), value, HistorySize(cfg))
  {
    assert [m][1..] == [];
  }

  /** Only detection changes histories. */
  lemma {:induction false} ExistingHistory(cfg: Settings, dyn: Values, e: Entity, o: Observation, now: int)
    requires cfg.anomalyEnabled && forall m :: m in o.order ==> m in o.values
    ensures EvaluateExisting(cfg, dyn, e, o, now).e.history ==
      Detect(cfg, UpdateValues(e, o.values), o.values, o.order, now).e.history
  {
  }

  lemma {:induction false} ReadingIsEvaluated(cfg: Settings, s: State, m: string)
    requires m in cfg.metricThresholds && "entity" in s.tracked
    ensures var o := Reading(m, 1.0, false);
      && WellFormed(Observe(o, 1))
      && Apply(cfg, s, Observe(o, 1)).tracked ==
         s.tracked["entity" := EvaluateExisting(cfg, s.dyn, s.tracked["entity"], o, 1).e]
  {
    assert m in Reading(m, 1.0, false).values;
    assert Targeted(cfg, s.dyn, Reading(m, 1.0, false).values);
  }

  /** One more reading of 1.0 does not spike and lengthens the history. */
  lemma {:induction false} SteadyReading(cfg: Settings, s: State, m: string, n: nat)
    requires cfg.anomalyEnabled && m in cfg.metricThresholds && n < HistorySize(cfg) && HasOnes(s, m, n)
    ensures WellFormed(Observe(Reading(m, 1.0, false), 1))
    ensures HasOnes(Apply(cfg, s, Observe(Reading(m, 1.0, false), 1)), m, n + 1)
  {
    var e := s.tracked["entity"];
    ReadingIsEvaluated(cfg, s, m);
    ExistingHistory(cfg, s.dyn, e, Reading(m, 1.0, false), 1);
    DetectOne(cfg, UpdateValues(e, map[m := 1.0]), m, 1.0, 1);
    assert Ones(n) + [1.0] == Ones(n + 1);
  }

  function SteadyReadings(m: string, k: nat): seq<Event> {
    if k == 0 then [] else [Observe(Reading(m, 1.0, false), 1)] + SteadyReadings(m, k - 1)
  }

  lemma {:induction false} SteadyRun(cfg: Settings, s: State, m: string, n: nat, k: nat)
    requires cfg.anomalyEnabled && m in cfg.metricThresholds && n + k <= HistorySize(cfg) && HasOnes(s, m, n)
    ensures AllWellFormed(SteadyReadings(m, k)) && HasOnes(Run(cfg, s, SteadyReadings(m, k)), m, n + k)
    decreases k
  {
    if k > 0 {
      var e := Observe(Reading(m, 1.0, false), 1);
      SteadyReading(cfg, s, m, n);
      SteadyRun(cfg, Apply(cfg, s, e), m, n + 1, k - 1);
      RunCons(cfg, s, e, SteadyReadings(m, k - 1));
    }
  }

  lemma {:induction false} SpikeIsDetected(cfg: Settings, e: Entity, m: string, value: real, now: int)
    requires m in cfg.metricThresholds && HistoryOf(e.history, m) == Ones(MinPoints(cfg))
    requires value == 1.0 + ChangeThreshold(cfg) / 100.0
    ensures Detect(cfg, e, map[m := value], [m], now).spike
  {
    ChangeOverOnes(MinPoints(cfg), value);
    DetectOne(cfg, e, m, value, now);
  }

  /** After enough ones a reading at the change threshold is reported. */
  lemma {:induction false} SpikeIsReported(cfg: Settings, s: State, m: string, value: real, now: int)
    requires cfg.anomalyEnabled && m in cfg.metricThresholds && HasOnes(s, m, MinPoints(cfg))
    requires value == 1.0 + ChangeThreshold(cfg) / 100.0
    ensures WellFormed(Observe(Reading(m, value, false), now))
    ensures Evaluate(cfg, s.dyn, s.tracked, Reading(m, value, false), now).verdict == Included(AnomalyDetection)
  {
    var o := Reading(m, value, false);
    var e := UpdateValues(s.tracked["entity"], o.values);
    SpikeIsDetected(cfg, e, m, value, now);
    assert m in o.values;
    assert Targeted(cfg, s.dyn, o.values);
    assert CheckNew(cfg, s.dyn, e, o, now).verdict == Included(AnomalyDetection);
  }

  /** The resource is listed once and then reports ones until a spike could be told. */
  function Preparation(cfg: Settings, m: string): seq<Event>
  {
    [Observe(Reading(m, 1.0, true), 1)] + SteadyReadings(m, MinPoints(cfg))
  }

  lemma {:induction false} Prepared(cfg: Settings, dyn: Values, m: string)
    requires cfg.anomalyEnabled && m in cfg.metricThresholds && HistorySize(cfg) >= MinPoints(cfg)
    ensures AllWellFormed(Preparation(cfg, m))
    ensures HasOnes(Run(cfg, State(map[], dyn), Preparation(cfg, m)), m, MinPoints(cfg))
  {
    var s, listing := State(map[], dyn), Observe(Reading(m, 1.0, true), 1);
    assert m in listing.o.values;
    assert Targeted(cfg, dyn, listing.o.values);
    var s1 := Apply(cfg, s, listing);
    assert HasOnes(s1, m, 0);
    SteadyRun(cfg, s1, m, 0, MinPoints(cfg));
    assert Preparation(cfg, m)[0] == listing && Preparation(cfg, m)[1..] == SteadyReadings(m, MinPoints(cfg));
  }

  /** A run from nothing that ends in a reported anomaly: listed once, steady readings, then a spike. */
  lemma {:induction false} DetectorFires(cfg: Settings, dyn: Values, m: string) returns (events: seq<Event>)
    requires cfg.anomalyEnabled && m in cfg.metricThresholds && HistorySize(cfg) >= MinPoints(cfg)
    ensures AllWellFormed(events) && Included(AnomalyDetection) in Verdicts(cfg, State(map[], dyn), events)
  {
    var s := State(map[], dyn);
    var value := 1.0 + ChangeThreshold(cfg) / 100.0;
    var spike := Observe(Reading(m, value, false), 1);
    var prepare := Preparation(cfg, m);
    Prepared(cfg, dyn, m);
    SpikeIsReported(cfg, Run(cfg, s, prepare), m, value, 1);
    RunConcat(cfg, s, prepare, [spike]);
    events := prepare + [spike];
    assert [spike][1..] == [];
    var last := Included(AnomalyDetection);
    assert Verdicts(cfg, Run(cfg, s, prepare), [spike]) == [last];
    assert last in Verdicts(cfg, s, prepare) + [last];
  }

  /** Some run from nothing reports an anomaly. */
  ghost predicate CanReport(cfg: Settings, dyn: Values) {
    exists events :: AllWellFormed(events) && exists v :: v in Verdicts(cfg, State(map[], dyn), events) && IsAnomaly(v)
  }

  /**
   * Anomalies can be reported exactly when detection is on, checks a metric and its window holds the required data
   * points.
   */
  lemma {:induction false} AnomaliesNeedRoom(cfg: Settings, dyn: Values)
    ensures CanReport(cfg, dyn) <==> !Quiet(cfg)
  {
    if !Quiet(cfg) {
      var m :| m in cfg.metricThresholds;
      var events := DetectorFires(cfg, dyn, m);
      assert IsAnomaly(Included(AnomalyDetection));
    } else {
      forall events | AllWellFormed(events)
        ensures forall v :: v in Verdicts(cfg, State(map[], dyn), events) ==> !IsAnomaly(v)
      {
        QuietNeverReports(cfg, State(map[], dyn), events);
      }
    }
  }

  /** After normalization that is so for every configured history size except 1 and 2. */
  lemma {:induction false} NormalizedAnomaliesNeedRoom(s: Settings, dyn: Values)
    requires s.anomalyEnabled && s.metricThresholds != map[]
    ensures CanReport(Normalized(s), dyn) <==> !(s.historySize == 1 || s.historySize == 2)
  {
    NormalizedHistoryReachesMinimum(s);
    AnomaliesNeedRoom(Normalized(s), dyn);
  }
}
