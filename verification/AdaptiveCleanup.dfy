/** Cleanup and retention over whole runs of the adaptive telemetry processor. */
module AdaptiveCleanup {
  import opened AdaptiveConfig
  import opened AdaptiveModel
  import opened AdaptiveAnomaly
  import opened Grouping

  // ------------------------------------------------------ cleanup is invisible

  function WithoutSweeps(events: seq<Event>): (rest: seq<Event>)
    ensures forall e :: e in rest ==> e in events && !e.Sweep?
  {
    if events == [] then []
    else (if events[0].Sweep? then [] else [events[0]]) + WithoutSweeps(events[1..])
  }

  /** No evaluation from time t on can retain the entity. */
  predicate Expired(cfg: Settings, e: Entity, t: int) {
    e.lastExceeded < t - cfg.retentionMinutes * MINUTE
  }

  /** The swept map a lags behind the unswept map b in one identity at most by having forgotten it past retention. */
  ghost predicate InStep(cfg: Settings, a: map<string, Entity>, b: map<string, Entity>, t: int, id: string) {
    && (id in a ==> id in b && a[id].lastExceeded == b[id].lastExceeded)
    && (id in b && id !in a ==> Expired(cfg, b[id], t))
  }

  ghost predicate Simulates(cfg: Settings, a: State, b: State, t: int) {
    a.dyn == b.dyn && forall id :: InStep(cfg, a.tracked, b.tracked, t, id)
  }

  lemma {:induction false} SweepSimulates(cfg: Settings, a: State, b: State, t: int, now: int)
    requires Simulates(cfg, a, b, t) && t <= now
    ensures Simulates(cfg, State(Swept(cfg, a.tracked, now), a.dyn), b, now)
  {
    forall id ensures InStep(cfg, Swept(cfg, a.tracked, now), b.tracked, now, id) {
      assert InStep(cfg, a.tracked, b.tracked, t, id);
    }
  }

  lemma {:induction false} ThresholdsSetExceeded(cfg: Settings, dyn: Values, e: Entity, values: Values, now: int)
    ensures var r := CheckThresholds(cfg, dyn, e, values, now);
      && r.e.lastExceeded == (if Exceeds(r.verdict) then now else e.lastExceeded)
      && (Exceeds(r.verdict) || r.verdict == Excluded)
  {
  }

  /**
   * What the stages before retention do to an entity: the last exceedance moves to now exactly on an exceeding verdict.
   */
  lemma {:induction false} CheckNewSetsExceeded(cfg: Settings, dyn: Values, e: Entity, o: Observation, now: int)
    requires Enumerates(o.order, o.values.Keys)
    ensures var r := CheckNew(cfg, dyn, e, o, now);
      && r.e.lastExceeded == (if Exceeds(r.verdict) then now else e.lastExceeded)
      && (Exceeds(r.verdict) || r.verdict == Excluded || r.verdict == Included(AnomalyDetection))
  {
    if cfg.anomalyEnabled {
      DetectKeepsExceeded(cfg, e, o.values, o.order, now);
      ThresholdsSetExceeded(cfg, dyn, Detect(cfg, e, o.values, o.order, now).e, o.values, now);
    } else {
      ThresholdsSetExceeded(cfg, dyn, e, o.values, now);
    }
  }

  lemma {:induction false} ExistingSetsExceeded(cfg: Settings, dyn: Values, e: Entity, o: Observation, now: int)
    requires Enumerates(o.order, o.values.Keys)
    ensures var r := EvaluateExisting(cfg, dyn, e, o, now);
      r.e.lastExceeded == if Exceeds(r.verdict) then now else e.lastExceeded
  {
    CheckNewSetsExceeded(cfg, dyn, UpdateValues(e, o.values), o, now);
  }

  /** What detection would need to stay quiet: with it on, histories are windows and nothing has been marked. */
  ghost predicate Settled(cfg: Settings, tracked: map<string, Entity>) {
    cfg.anomalyEnabled ==> Calm(cfg, tracked)
  }

  /** The part of a settled entity that a quiet decision reads is its last exceedance. */
  ghost function QuietVerdict(cfg: Settings, dyn: Values, lastExceeded: int, values: Values, now: int): Verdict {
    if ExceedsThreshold(cfg, dyn, values) then Included(ThresholdStage(cfg))
    else if ExceedsComposite(cfg, dyn, values) then Included(MultiMetric)
    else if cfg.retentionMinutes > 0 && lastExceeded != 0 && now - lastExceeded < cfg.retentionMinutes * MINUTE then
      Included(StandardRetention)
    else Excluded
  }

  lemma {:induction false} QuietExisting(cfg: Settings, dyn: Values, e: Entity, o: Observation, now: int)
    requires Quiet(cfg) && (cfg.anomalyEnabled ==> Windowed(cfg, e) && e.lastAnomaly == 0) &&
      Enumerates(o.order, o.values.Keys)
    ensures EvaluateExisting(cfg, dyn, e, o, now).verdict == QuietVerdict(cfg, dyn, e.lastExceeded, o.values, now)
  {
    var u := UpdateValues(e, o.values);
    assert cfg.anomalyEnabled ==> Windowed(cfg, u);
    QuietCheckIsThresholds(cfg, dyn, u, o, now);
  }

  lemma {:induction false} QuietNew(cfg: Settings, dyn: Values, tracked: map<string, Entity>, o: Observation, now: int)
    requires Quiet(cfg) && Enumerates(o.order, o.values.Keys)
    ensures EvaluateNew(cfg, dyn, tracked, o, now).verdict ==
      var v := QuietVerdict(cfg, dyn, 0, o.values, now);
      if v == Excluded && cfg.debugShowAll then Included(DebugNoMatch) else v
  {
    NewIsWindowed(cfg, o.values);
    QuietCheckIsThresholds(cfg, dyn, NewEntity(cfg, o.values), o, now);
  }

  /** An expired entity is decided like one that was never seen, and both end up alike. */
  lemma {:induction false} ExpiredLooksNew(cfg: Settings, dyn: Values, e: Entity, tracked: map<string, Entity>,
                                           o: Observation, now: int)
    requires Quiet(cfg) && !cfg.debugShowAll && Expired(cfg, e, now) && o.id !in tracked
    requires (cfg.anomalyEnabled ==> Windowed(cfg, e) && e.lastAnomaly == 0) && Enumerates(o.order, o.values.Keys)
    ensures var r, q := EvaluateExisting(cfg, dyn, e, o, now), EvaluateNew(cfg, dyn, tracked, o, now);
      && r.verdict == q.verdict
      && (r.verdict == Excluded ==> q.tracked == tracked && r.e.lastExceeded == e.lastExceeded)
      && (r.verdict != Excluded ==> o.id in q.tracked && q.tracked[o.id].lastExceeded == now == r.e.lastExceeded)
  {
    QuietExisting(cfg, dyn, e, o, now);
    QuietNew(cfg, dyn, tracked, o, now);
    ExistingSetsExceeded(cfg, dyn, e, o, now);
    CheckNewSetsExceeded(cfg, dyn, NewEntity(cfg, o.values), o, now);
  }

  /** One evaluation in both maps gives the same verdict and keeps the evaluated identity in step. */
  lemma {:induction false} ObserveInStep(cfg: Settings, dyn: Values, a: map<string, Entity>, b: map<string, Entity>,
                                         t: int,
                      o: Observation, now: int)
    requires Quiet(cfg) && !cfg.debugShowAll && Settled(cfg, a) && Settled(cfg, b)
    requires InStep(cfg, a, b, t, o.id) && t <= now && Enumerates(o.order, o.values.Keys)
    ensures Evaluate(cfg, dyn, a, o, now).verdict == Evaluate(cfg, dyn, b, o, now).verdict
    ensures InStep(cfg, Evaluate(cfg, dyn, a, o, now).tracked, Evaluate(cfg, dyn, b, o, now).tracked, now, o.id)
  {
    if Targeted(cfg, dyn, o.values) && !o.zombie && !o.listed && o.id in b {
      if o.id in a {
        QuietExisting(cfg, dyn, a[o.id], o, now);
        QuietExisting(cfg, dyn, b[o.id], o, now);
        ExistingSetsExceeded(cfg, dyn, a[o.id], o, now);
        ExistingSetsExceeded(cfg, dyn, b[o.id], o, now);
      } else {
        ExpiredLooksNew(cfg, dyn, b[o.id], a, o, now);
      }
    }
  }

  lemma {:induction false} ObserveKeepsSettled(cfg: Settings, dyn: Values, tracked: map<string, Entity>, o: Observation,
                                               now: int)
    requires Quiet(cfg) && Settled(cfg, tracked) && Enumerates(o.order, o.values.Keys)
    ensures Settled(cfg, Evaluate(cfg, dyn, tracked, o, now).tracked)
  {
    if cfg.anomalyEnabled {
      EvaluateKeepsCalm(cfg, dyn, tracked, o, now);
    }
  }

  lemma {:induction false} ObserveSimulates(cfg: Settings, a: State, b: State, t: int, o: Observation, now: int)
    requires Quiet(cfg) && !cfg.debugShowAll && Settled(cfg, a.tracked) && Settled(cfg, b.tracked)
    requires Simulates(cfg, a, b, t) && t <= now && Enumerates(o.order, o.values.Keys)
    ensures Evaluate(cfg, a.dyn, a.tracked, o, now).verdict == Evaluate(cfg, b.dyn, b.tracked, o, now).verdict
    ensures Simulates(cfg, State(Evaluate(cfg, a.dyn, a.tracked, o, now).tracked, a.dyn),
                           State(Evaluate(cfg, b.dyn, b.tracked, o, now).tracked, b.dyn), now)
  {
    assert InStep(cfg, a.tracked, b.tracked, t, o.id);
    ObserveInStep(cfg, a.dyn, a.tracked, b.tracked, t, o, now);
    EvaluateIsLocal(cfg, a.dyn, a.tracked, o, now);
    EvaluateIsLocal(cfg, b.dyn, b.tracked, o, now);
    var r, q := Evaluate(cfg, a.dyn, a.tracked, o, now).tracked, Evaluate(cfg, b.dyn, b.tracked, o, now).tracked;
    forall id ensures InStep(cfg, r, q, now, id) {
      assert InStep(cfg, a.tracked, b.tracked, t, id);
    }
  }

  lemma {:induction false} SweptStaysSettled(cfg: Settings, tracked: map<string, Entity>, now: int)
    requires Settled(cfg, tracked)
    ensures Settled(cfg, Swept(cfg, tracked, now))
  {
  }

  /**
   * With debug mode off and nothing to detect, a run with sweeps decides every resource like the run without them: by
   * then only entities past retention may be missing.
   */
  lemma {:induction false} CleanupIsInvisible(cfg: Settings, a: State, b: State, events: seq<Event>, t: int)
    requires Quiet(cfg) && !cfg.debugShowAll && Settled(cfg, a.tracked) && Settled(cfg, b.tracked)
    requires AllWellFormed(events) && Timed(events, t) && Simulates(cfg, a, b, t)
    ensures AllWellFormed(WithoutSweeps(events))
    ensures Verdicts(cfg, a, events) == Verdicts(cfg, b, WithoutSweeps(events))
    decreases |events|
  {
    if events != [] {
      var e, later := events[0], events[1..];
      assert e in events;
      var a' := Apply(cfg, a, e);
      match e {
        case Sweep(now) =>
          SweepSimulates(cfg, a, b, t, now);
          SweptStaysSettled(cfg, a.tracked, now);
          CleanupIsInvisible(cfg, a', b, later, now);
          assert WithoutSweeps(events) == WithoutSweeps(later);
        case Retune(dyn) =>
          CleanupIsInvisible(cfg, a', Apply(cfg, b, e), later, t);
          assert WithoutSweeps(events) == [e] + WithoutSweeps(later);
          assert WithoutSweeps(events)[1..] == WithoutSweeps(later);
        case Observe(o, now) =>
          ObserveSimulates(cfg, a, b, t, o, now);
          ObserveKeepsSettled(cfg, a.dyn, a.tracked, o, now);
          ObserveKeepsSettled(cfg, b.dyn, b.tracked, o, now);
          CleanupIsInvisible(cfg, a', Apply(cfg, b, e), later, now);
          assert WithoutSweeps(events) == [e] + WithoutSweeps(later);
          assert WithoutSweeps(events)[1..] == WithoutSweeps(later);
      }
    }
  }

  /** From one and the same state; with anomaly detection off, whatever it holds. */
  lemma {:induction false} CleanupIsInvisibleFrom(cfg: Settings, s: State, events: seq<Event>, t: int)
    requires Quiet(cfg) && !cfg.debugShowAll && Settled(cfg, s.tracked)
    requires AllWellFormed(events) && Timed(events, t)
    ensures AllWellFormed(WithoutSweeps(events)) && Verdicts(cfg, s, events) == Verdicts(cfg, s, WithoutSweeps(events))
  {
    CleanupIsInvisible(cfg, s, s, events, t);
  }

  // ----------------------------------------------------------------- retention

  /** The stages that start a retention period. */
  predicate Exceeds(v: Verdict) {
    v.Included? && v.stage in {StaticThreshold, DynamicThreshold, MultiMetric, ZombieProcess, IncludeList}
  }

  /** The identity is tracked as having exceeded at t or later. */
  ghost predicate ExceededSince(s: State, id: string, t: int) {
    id in s.tracked && s.tracked[id].lastExceeded >= t
  }

  /** Anomaly detection touches neither the last exceedance nor the value maps. */
  lemma {:induction false} DetectKeepsExceeded(cfg: Settings, e: Entity, values: Values, order: seq<string>, now: int)
    requires forall m :: m in order ==> m in values
    ensures var d := Detect(cfg, e, values, order, now).e;
      d.lastExceeded == e.lastExceeded && d.current == e.current && d.max == e.max && d.shared == e.shared
    decreases |order|
  {
    if order != [] {
      var m := order[0];
      if m in cfg.metricThresholds {
        DetectKeepsExceeded(cfg, Record(cfg, e, m, values[m]), values, order[1..], now);
      } else {
        DetectKeepsExceeded(cfg, e, values, order[1..], now);
      }
    }
  }

  lemma {:induction false} EvaluateKeepsExceeded(cfg: Settings, s: State, o: Observation, now: int, id: string, t: int)
    requires Enumerates(o.order, o.values.Keys) && ExceededSince(s, id, t) && now >= t
    ensures ExceededSince(State(Evaluate(cfg, s.dyn, s.tracked, o, now).tracked, s.dyn), id, t)
  {
    EvaluateIsLocal(cfg, s.dyn, s.tracked, o, now);
    if o.id == id {
      ExistingSetsExceeded(cfg, s.dyn, s.tracked[id], o, now);
    }
  }

  lemma {:induction false} EvaluateStartsRetention(cfg: Settings, s: State, o: Observation, now: int)
    requires Enumerates(o.order, o.values.Keys) && Exceeds(Evaluate(cfg, s.dyn, s.tracked, o, now).verdict)
    ensures ExceededSince(State(Evaluate(cfg, s.dyn, s.tracked, o, now).tracked, s.dyn), o.id, now)
  {
    if o.id in s.tracked {
      ExistingSetsExceeded(cfg, s.dyn, s.tracked[o.id], o, now);
    } else {
      CheckNewSetsExceeded(cfg, s.dyn, NewEntity(cfg, o.values), o, now);
    }
  }

  /** Every step of the run happens before the given time. */
  predicate AllBefore(events: seq<Event>, end: int) {
    forall e :: e in events && !e.Retune? ==> e.now < end
  }

  /** Within the retention window no step forgets the exceedance. */
  lemma {:induction false} RunKeepsExceeded(cfg: Settings, s: State, events: seq<Event>, id: string, t: int, from: int)
    requires cfg.retentionMinutes > 0 && from >= t
    requires AllWellFormed(events) && Timed(events, from) && AllBefore(events, t + cfg.retentionMinutes * MINUTE)
    requires ExceededSince(s, id, t)
    ensures ExceededSince(Run(cfg, s, events), id, t)
    decreases |events|
  {
    if events != [] {
      var e := events[0];
      assert e in events;
      if e.Observe? {
        EvaluateKeepsExceeded(cfg, s, e.o, e.now, id, t);
      }
      assert AllBefore(events[1..], t + cfg.retentionMinutes * MINUTE);
      RunKeepsExceeded(cfg, Apply(cfg, s, e), events[1..], id, t, if e.Retune? then from else e.now);
    }
  }

  /** An identity that exceeded within the retention window is included. */
  lemma {:induction false} ExceededIsIncluded(cfg: Settings, s: State, o: Observation, now: int, t: int)
    requires cfg.retentionMinutes > 0 && t > 0 && now < t + cfg.retentionMinutes * MINUTE
    requires Enumerates(o.order, o.values.Keys) && ExceededSince(s, o.id, t)
    ensures Evaluate(cfg, s.dyn, s.tracked, o, now).verdict != Excluded
  {
    DetectKeepsExceeded(cfg, UpdateValues(s.tracked[o.id], o.values), o.values, o.order, now);
  }

  /**
   * Once a resource passes an exceeding stage at time t, every later evaluation of it before
   * t + RetentionMinutes is included, whatever evaluations, sweeps and threshold changes come between.
   */
  lemma {:induction false} RetentionHolds(cfg: Settings, s: State, first: Observation, t: int, between: seq<Event>,
                                          later: Observation,
                       now: int)
    requires cfg.retentionMinutes > 0 && t > 0 && now < t + cfg.retentionMinutes * MINUTE
    requires Enumerates(first.order, first.values.Keys) && Enumerates(later.order, later.values.Keys)
    requires Exceeds(Evaluate(cfg, s.dyn, s.tracked, first, t).verdict)
    requires AllWellFormed(between) && Timed(between, t) && AllBefore(between, now + 1) && later.id == first.id
    ensures var s1 := Run(cfg, Apply(cfg, s, Observe(first, t)), between);
      ExceededSince(s1, first.id, t) && Evaluate(cfg, s1.dyn, s1.tracked, later, now).verdict != Excluded
  {
    EvaluateStartsRetention(cfg, s, first, t);
    var s0 := Apply(cfg, s, Observe(first, t));
    RunKeepsExceeded(cfg, s0, between, first.id, t, t);
    ExceededIsIncluded(cfg, Run(cfg, s0, between), later, now, t);
  }
}
