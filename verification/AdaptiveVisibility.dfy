/** Exactly when the random cleanup of the adaptive telemetry processor can change a verdict. */
module AdaptiveVisibility {
  import opened AdaptiveConfig
  import opened AdaptiveModel
  import opened AdaptiveAnomaly
  import opened AdaptiveCleanup
  import Dynamic = DynamicThresholds
  import opened Grouping

  /** What a fresh processor starts from. */
  function Fresh(cfg: Settings): State {
    State(map[], Dynamic.Seeded(cfg))
  }

  /** Only configured metrics ever get dynamic thresholds. */
  ghost predicate Configured(cfg: Settings, dyn: Values) {
    dyn.Keys <= cfg.metricThresholds.Keys
  }

  ghost predicate Tuned(cfg: Settings, events: seq<Event>) {
    forall e :: e in events && e.Retune? ==> Configured(cfg, e.dyn)
  }

  lemma {:induction false} UpdatesStayConfigured(cfg: Settings, dyn: Values, metrics: seq<Dynamic.Metric>)
    requires Configured(cfg, dyn)
    ensures Configured(cfg, Dynamic.Seeded(cfg)) && Configured(cfg, Dynamic.Updated(cfg, dyn, metrics))
  {
  }

  /**
   * The run, from a fresh processor and with a clock that starts at 1, decides some resource unlike the run without its
   * sweeps.
   */
  ghost predicate SweepsShow(cfg: Settings, events: seq<Event>) {
    && AllWellFormed(events) && Timed(events, 1) && Tuned(cfg, events)
    && Verdicts(cfg, Fresh(cfg), events) != Verdicts(cfg, Fresh(cfg), WithoutSweeps(events))
  }

  ghost predicate CleanupShows(cfg: Settings) {
    exists events :: SweepsShow(cfg, events)
  }

  /** A metric with a threshold that a value can miss. */
  predicate Missable(cfg: Settings, m: string) {
    m in cfg.metricThresholds && (cfg.dynamicEnabled || cfg.metricThresholds[m] != 0.0)
  }

  /** Debug mode can come to bear: some resource may be looked at and match no filter. */
  ghost predicate CanMiss(cfg: Settings) {
    exists m :: Missable(cfg, m)
  }

  /** One more step in front of a run. */
  lemma {:induction false} StepAhead(cfg: Settings, s: State, e: Event, rest: seq<Event>)
    requires WellFormed(e) && AllWellFormed(rest)
    ensures AllWellFormed([e] + rest)
    ensures Verdicts(cfg, s, [e] + rest) == VerdictsOf(cfg, s, e) + Verdicts(cfg, Apply(cfg, s, e), rest)
    ensures Run(cfg, s, [e] + rest) == Run(cfg, Apply(cfg, s, e), rest)
  {
    assert ([e] + rest)[1..] == rest;
  }

  lemma {:induction false} SweepsAhead(e: Event, rest: seq<Event>)
    ensures WithoutSweeps([e] + rest) == (if e.Sweep? then [] else [e]) + WithoutSweeps(rest)
    ensures forall t :: Timed([e] + rest, t) <==>
      (if e.Retune? then Timed(rest, t) else e.now >= t && Timed(rest, e.now))
  {
    assert ([e] + rest)[1..] == rest;
  }

  // ----------------------------------------------------------- nothing shows

  /** Without retention a sweep keeps everything. */
  lemma {:induction false} NoRetentionNoSweep(cfg: Settings, s: State, events: seq<Event>)
    requires cfg.retentionMinutes <= 0 && AllWellFormed(events)
    ensures Verdicts(cfg, s, events) == Verdicts(cfg, s, WithoutSweeps(events))
    decreases |events|
  {
    if events != [] {
      var e, later := events[0], events[1..];
      assert e in events;
      assert events == [e] + later;
      SweepsAhead(e, later);
      NoRetentionNoSweep(cfg, Apply(cfg, s, e), later);
      if e.Sweep? {
        assert Apply(cfg, s, e) == s && WithoutSweeps(events) == WithoutSweeps(later);
      } else {
        StepAhead(cfg, s, e, WithoutSweeps(later));
      }
    }
  }

  /** Without a threshold to miss, every resource that is looked at exceeds one. */
  lemma {:induction false} TargetedExceeds(cfg: Settings, dyn: Values, values: Values)
    requires !CanMiss(cfg) && Configured(cfg, dyn) && Targeted(cfg, dyn, values)
    ensures ExceedsThreshold(cfg, dyn, values)
  {
    var m :| m in values && (m in cfg.metricThresholds || (cfg.dynamicEnabled && m in dyn));
    assert m in cfg.metricThresholds && !Missable(cfg, m);
    assert MeetsThreshold(cfg, dyn, m, values[m]);
  }

  /** Then the verdict depends on the resource alone. */
  ghost function FixedVerdict(cfg: Settings, o: Observation): Verdict {
    if !Targeted(cfg, map[], o.values) then Included(DefaultInclusion)
    else if o.zombie then Included(ZombieProcess)
    else if o.listed then Included(IncludeList)
    else Included(ThresholdStage(cfg))
  }

  lemma {:induction false} VerdictIsFixed(cfg: Settings, dyn: Values, tracked: map<string, Entity>, o: Observation,
                                          now: int)
    requires Quiet(cfg) && !CanMiss(cfg) && Configured(cfg, dyn) && Settled(cfg, tracked) &&
      Enumerates(o.order, o.values.Keys)
    ensures Evaluate(cfg, dyn, tracked, o, now).verdict == FixedVerdict(cfg, o)
  {
    assert Targeted(cfg, dyn, o.values) <==> Targeted(cfg, map[], o.values);
    if Targeted(cfg, dyn, o.values) {
      TargetedExceeds(cfg, dyn, o.values);
      if o.id in tracked {
        QuietExisting(cfg, dyn, tracked[o.id], o, now);
      } else {
        QuietNew(cfg, dyn, tracked, o, now);
      }
    }
  }

  lemma {:induction false} StepKeepsSettled(cfg: Settings, s: State, e: Event)
    requires Quiet(cfg) && Settled(cfg, s.tracked) && WellFormed(e)
    ensures Settled(cfg, Apply(cfg, s, e).tracked)
  {
    if e.Observe? {
      ObserveKeepsSettled(cfg, s.dyn, s.tracked, e.o, e.now);
    }
  }

  lemma {:induction false} FixedVerdictsIgnoreSweeps(cfg: Settings, a: State, b: State, events: seq<Event>)
    requires Quiet(cfg) && !CanMiss(cfg) && Settled(cfg, a.tracked) && Settled(cfg, b.tracked)
    requires Configured(cfg, a.dyn) && Configured(cfg, b.dyn) && AllWellFormed(events) && Tuned(cfg, events)
    ensures Verdicts(cfg, a, events) == Verdicts(cfg, b, WithoutSweeps(events))
    decreases |events|
  {
    if events != [] {
      var e, later := events[0], events[1..];
      assert e in events;
      StepKeepsSettled(cfg, a, e);
      if e.Sweep? {
        FixedVerdictsIgnoreSweeps(cfg, Apply(cfg, a, e), b, later);
        assert WithoutSweeps(events) == WithoutSweeps(later);
      } else {
        if e.Observe? {
          VerdictIsFixed(cfg, a.dyn, a.tracked, e.o, e.now);
          VerdictIsFixed(cfg, b.dyn, b.tracked, e.o, e.now);
        }
        StepKeepsSettled(cfg, b, e);
        FixedVerdictsIgnoreSweeps(cfg, Apply(cfg, a, e), Apply(cfg, b, e), later);
        assert WithoutSweeps(events) == [e] + WithoutSweeps(later);
        StepAhead(cfg, b, e, WithoutSweeps(later));
      }
    }
  }

  lemma {:induction false} NothingShows(cfg: Settings, events: seq<Event>)
    requires AllWellFormed(events) && Timed(events, 1) && Tuned(cfg, events)
    requires cfg.retentionMinutes <= 0 || (Quiet(cfg) && (!cfg.debugShowAll || !CanMiss(cfg)))
    ensures !SweepsShow(cfg, events)
  {
    var s := Fresh(cfg);
    if cfg.retentionMinutes <= 0 {
      NoRetentionNoSweep(cfg, s, events);
    } else if !cfg.debugShowAll {
      CleanupIsInvisibleFrom(cfg, s, events, 1);
    } else {
      UpdatesStayConfigured(cfg, s.dyn, []);
      FixedVerdictsIgnoreSweeps(cfg, s, s, events);
    }
  }

  // ------------------------------------------------- a sweep before the end

  /** Evaluations only, over by the given time. */
  ghost predicate Opening(events: seq<Event>, t: int, end: int) {
    AllWellFormed(events) && Timed(events, t) && t <= end && forall e :: e in events ==> e.Observe? && e.now <= end
  }

  lemma {:induction false} OpeningIsTimed(events: seq<Event>, t: int, end: int, rest: seq<Event>)
    requires Opening(events, t, end) && forall u :: u <= end ==> Timed(rest, u)
    ensures Timed(events + rest, t)
    decreases |events|
  {
    if events == [] {
      assert events + rest == rest;
    } else {
      var e, later := events[0], events[1..];
      assert e in events;
      OpeningIsTimed(later, e.now, end, rest);
      SweepsAhead(e, later + rest);
      assert events + rest == [e] + (later + rest);
    }
  }

  lemma {:induction false} SweepsTakenOut(events: seq<Event>, rest: seq<Event>)
    requires forall e :: e in events ==> !e.Sweep?
    ensures WithoutSweeps(events + rest) == events + WithoutSweeps(rest)
    decreases |events|
  {
    if events == [] {
      assert events + rest == rest;
    } else {
      var e, later := events[0], events[1..];
      assert e in events;
      SweepsTakenOut(later, rest);
      SweepsAhead(e, later + rest);
      Together(e, later, rest);
      Together(e, later, WithoutSweeps(rest));
      assert events == [e] + later;
    }
  }

  lemma {:induction false} Together<T>(e: T, a: seq<T>, b: seq<T>)
    ensures [e] + a + b == [e] + (a + b)
  {
  }

  function SweepThen(end: int, last: Event): seq<Event> {
    [Sweep(end)] + ([last] + [])
  }

  lemma {:induction false} SweepThenIsTimed(end: int, last: Event)
    requires last.Observe? && last.now == end
    ensures forall u :: u <= end ==> Timed(SweepThen(end, last), u)
    ensures WithoutSweeps(SweepThen(end, last)) == [last]
  {
    SweepsAhead(last, []);
    SweepsAhead(Sweep(end), [last] + []);
  }

  lemma {:induction false} LastVerdicts(cfg: Settings, s: State, end: int, last: Event)
    requires WellFormed(last)
    ensures AllWellFormed([last]) && AllWellFormed(SweepThen(end, last))
    ensures Verdicts(cfg, s, [last]) == VerdictsOf(cfg, s, last)
    ensures Verdicts(cfg, s, SweepThen(end, last)) == VerdictsOf(cfg, Apply(cfg, s, Sweep(end)), last)
  {
    var swept := Apply(cfg, s, Sweep(end));
    StepAhead(cfg, s, last, []);
    StepAhead(cfg, swept, last, []);
    StepAhead(cfg, s, Sweep(end), [last] + []);
    assert [last] + [] == [last];
  }

  lemma {:induction false} SameFrontDiffers(front: seq<Verdict>, a: Verdict, b: Verdict)
    requires a != b
    ensures front + [a] != front + [b]
  {
    assert (front + [a])[|front|] == a && (front + [b])[|front|] == b;
  }

  /** A last verdict that a sweep just before it changes. */
  lemma {:induction false} LastVerdictDiffers(cfg: Settings, opening: seq<Event>, end: int, last: Event, a: Verdict,
                                              b: Verdict)
    requires Opening(opening, 1, end) && WellFormed(last) && last.Observe? && last.now == end
    requires var s := Run(cfg, Fresh(cfg), opening);
      VerdictsOf(cfg, s, last) == [a] && VerdictsOf(cfg, Apply(cfg, s, Sweep(end)), last) == [b] && a != b
    ensures CleanupShows(cfg)
  {
    VerdictsAfterOpening(cfg, opening, end, last, a, b);
    SweepThenIsTimed(end, last);
    OpeningIsTimed(opening, 1, end, SweepThen(end, last));
    SweepsTakenOut(opening, SweepThen(end, last));
    SameFrontDiffers(Verdicts(cfg, Fresh(cfg), opening), a, b);
    var events := opening + SweepThen(end, last);
    assert WithoutSweeps(events) == opening + [last];
    assert Tuned(cfg, events);
    assert SweepsShow(cfg, events);
  }

  lemma {:induction false} VerdictsAfterOpening(cfg: Settings, opening: seq<Event>, end: int, last: Event, a: Verdict,
                                                b: Verdict)
    requires AllWellFormed(opening) && WellFormed(last)
    requires var s := Run(cfg, Fresh(cfg), opening);
      VerdictsOf(cfg, s, last) == [a] && VerdictsOf(cfg, Apply(cfg, s, Sweep(end)), last) == [b]
    ensures AllWellFormed(opening + [last]) && AllWellFormed(opening + SweepThen(end, last))
    ensures var front := Verdicts(cfg, Fresh(cfg), opening);
      && Verdicts(cfg, Fresh(cfg), opening + [last]) == front + [a]
      && Verdicts(cfg, Fresh(cfg), opening + SweepThen(end, last)) == front + [b]
  {
    var s0 := Fresh(cfg);
    LastVerdicts(cfg, Run(cfg, s0, opening), end, last);
    RunConcat(cfg, s0, opening, [last]);
    RunConcat(cfg, s0, opening, SweepThen(end, last));
  }

  // ---------------------------------------------------- a sweep in debug mode

  /** The change from a positive average to a value that is not positive is negative. */
  lemma {:induction false} DropIsNegative(value: real, avg: real)
    requires value <= 0.0 < avg
    ensures (value - avg) / avg < 0.0
  {
    var q := (value - avg) / avg;
    assert q * avg == value - avg;
    if q >= 0.0 {
      ProductIsNotNegative(q, avg);
    }
  }

  lemma {:induction false} ProductIsNotNegative(a: real, b: real)
    requires a >= 0.0 && b >= 0.0
    ensures a * b >= 0.0
  {
  }

  /** A value that is not positive never spikes, whatever came before. */
  lemma {:induction false} NonPositiveNeverSpikes(cfg: Settings, history: seq<real>, value: real)
    requires value <= 0.0
    ensures !Spikes(cfg, history, value)
  {
    if |history| >= MinPoints(cfg) {
      if Average(history) > 0.0 {
        DropIsNegative(value, Average(history));
      }
    }
  }

  /** Such a reading is not detected. */
  lemma {:induction false} NonPositiveIsNotDetected(cfg: Settings, e: Entity, o: Observation, now: int)
    requires Enumerates(o.order, o.values.Keys) && forall m :: m in o.values ==> o.values[m] <= 0.0
    ensures var d := Detect(cfg, e, o.values, o.order, now); !d.spike && AlikeButHistory(d.e, e)
  {
    DetectFindsAnySpike(cfg, e, o.values, o.order, now);
    forall m | m in o.order ensures !Spikes(cfg, HistoryOf(e.history, m), o.values[m]) {
      NonPositiveNeverSpikes(cfg, HistoryOf(e.history, m), o.values[m]);
    }
    DetectSetsTime(cfg, e, o.values, o.order, now);
  }

  lemma {:induction false} SumOfNothing(keys: seq<string>, f: string -> Amount)
    requires forall k :: k in keys ==> f(k).d == 0.0
    ensures SumOf(keys, f).d == 0.0
  {
    if keys != [] {
      SumOfNothing(keys[..|keys| - 1], f);
    }
  }

  /** A reading without a score does not reach the composite threshold. */
  lemma {:induction false} NoScoreIsNotEnough(cfg: Settings, dyn: Values, values: Values)
    requires forall k :: ScoreTerm(cfg, dyn, values, k) == 0.0
    ensures !ExceedsComposite(cfg, dyn, values)
  {
    SumOfNothing(KeySeq(cfg.weights.Keys), TermAmount(cfg, dyn, values));
  }

  /** A reading of m below its threshold, whichever threshold counts. */
  function LowValue(cfg: Settings, m: string): real {
    if cfg.dynamicEnabled || Lookup(cfg.metricThresholds, m) >= 0.0 then 0.0 else cfg.metricThresholds[m] - 1.0
  }

  function LowReading(cfg: Settings, m: string): Observation {
    Observation("entity", map[m := LowValue(cfg, m)], false, false, [m])
  }

  /** With the thresholds a processor starts from, the low reading is looked at and matches nothing. */
  lemma {:induction false} LowReadingMisses(cfg: Settings, m: string)
    requires Missable(cfg, m)
    ensures var dyn, o := Fresh(cfg).dyn, LowReading(cfg, m);
      && Enumerates(o.order, o.values.Keys) && Targeted(cfg, dyn, o.values) && LowValue(cfg, m) <= 0.0
      && !ExceedsThreshold(cfg, dyn, o.values) && !ExceedsComposite(cfg, dyn, o.values)
  {
    var dyn, o := Fresh(cfg).dyn, LowReading(cfg, m);
    assert m in o.values;
    forall k ensures ScoreTerm(cfg, dyn, o.values, k) == 0.0 {
      if k == m && k in cfg.weights {
        assert LowValue(cfg, m) == 0.0 || ScoreThreshold(cfg, dyn, o.values, m) <= 0.0;
      }
    }
    NoScoreIsNotEnough(cfg, dyn, o.values);
  }

  /** First seen, such a reading is kept in debug mode; seen again it is excluded. */
  lemma {:induction false} LowReadingVerdicts(cfg: Settings, m: string, e: Entity, now: int)
    requires cfg.debugShowAll && Missable(cfg, m) && e.lastExceeded == 0 && e.lastAnomaly == 0
    ensures var dyn, o := Fresh(cfg).dyn, LowReading(cfg, m);
      && Enumerates(o.order, o.values.Keys) && Targeted(cfg, dyn, o.values)
      && EvaluateNew(cfg, dyn, map[], o, now).verdict == Included(DebugNoMatch)
      && (var r := EvaluateNew(cfg, dyn, map[], o, now).tracked;
          o.id in r && r[o.id].lastExceeded == 0 && r[o.id].lastAnomaly == 0 && r.Keys == {o.id})
      && EvaluateExisting(cfg, dyn, e, o, now).verdict == Excluded
  {
    var o := LowReading(cfg, m);
    LowReadingMisses(cfg, m);
    NonPositiveIsNotDetected(cfg, NewEntity(cfg, o.values), o, now);
    NonPositiveIsNotDetected(cfg, UpdateValues(e, o.values), o, now);
  }

  /** The verdicts on two readings, with and without a sweep in between. */
  lemma {:induction false} LowReadingsInARow(cfg: Settings, m: string)
    requires cfg.retentionMinutes > 0 && cfg.debugShowAll && Missable(cfg, m)
    ensures var s, end := Fresh(cfg), 1 + cfg.retentionMinutes * MINUTE;
      var first, again := Observe(LowReading(cfg, m), 1), Observe(LowReading(cfg, m), end);
      && WellFormed(first) && WellFormed(again)
      && VerdictsOf(cfg, Apply(cfg, s, first), again) == [Excluded]
      && Apply(cfg, Apply(cfg, s, first), Sweep(end)) == s
      && VerdictsOf(cfg, s, again) == [Included(DebugNoMatch)]
  {
    var s, end := Fresh(cfg), 1 + cfg.retentionMinutes * MINUTE;
    LowReadingVerdicts(cfg, m, NewEntity(cfg, map[]), 1);
    var s1 := Apply(cfg, s, Observe(LowReading(cfg, m), 1));
    LowReadingVerdicts(cfg, m, s1.tracked["entity"], end);
    assert Swept(cfg, s1.tracked, end) == map[];
  }

  /**
   * In debug mode a sweep shows: a resource that matches nothing is kept when first seen and after a sweep, else
   * excluded.
   */
  lemma {:induction false} DebugModeShowsCleanup(cfg: Settings)
    requires cfg.retentionMinutes > 0 && cfg.debugShowAll && CanMiss(cfg)
    ensures CleanupShows(cfg)
  {
    var m :| Missable(cfg, m);
    var end := 1 + cfg.retentionMinutes * MINUTE;
    var first, again := Observe(LowReading(cfg, m), 1), Observe(LowReading(cfg, m), end);
    LowReadingsInARow(cfg, m);
    SweepsAhead(first, []);
    StepAhead(cfg, Fresh(cfg), first, []);
    LastVerdictDiffers(cfg, [first] + [], end, again, Excluded, Included(DebugNoMatch));
  }

  // ----------------------------------------------- a sweep before an anomaly

  /** Tracked, and last exceeded no later than at 1. */
  ghost predicate SeenEarly(s: State) {
    "entity" in s.tracked && s.tracked["entity"].lastExceeded <= 1
  }

  lemma {:induction false} SteadyReadingIsEarly(cfg: Settings, s: State, m: string)
    requires m in cfg.metricThresholds && SeenEarly(s)
    ensures var e := Observe(Reading(m, 1.0, false), 1); WellFormed(e) && SeenEarly(Apply(cfg, s, e))
  {
    ReadingIsEvaluated(cfg, s, m);
    ExistingSetsExceeded(cfg, s.dyn, s.tracked["entity"], Reading(m, 1.0, false), 1);
  }

  lemma {:induction false} SteadyReadingsAreEarly(cfg: Settings, s: State, m: string, k: nat)
    requires m in cfg.metricThresholds && SeenEarly(s)
    ensures AllWellFormed(SteadyReadings(m, k)) && SeenEarly(Run(cfg, s, SteadyReadings(m, k)))
    decreases k
  {
    if k > 0 {
      var e := Observe(Reading(m, 1.0, false), 1);
      SteadyReadingIsEarly(cfg, s, m);
      SteadyReadingsAreEarly(cfg, Apply(cfg, s, e), m, k - 1);
      RunCons(cfg, s, e, SteadyReadings(m, k - 1));
    }
  }

  lemma {:induction false} PreparedEarly(cfg: Settings, dyn: Values, m: string)
    requires m in cfg.metricThresholds
    ensures AllWellFormed(Preparation(cfg, m)) && SeenEarly(Run(cfg, State(map[], dyn), Preparation(cfg, m)))
  {
    var s, listing := State(map[], dyn), Observe(Reading(m, 1.0, true), 1);
    assert m in listing.o.values;
    assert Targeted(cfg, dyn, listing.o.values);
    assert SeenEarly(Apply(cfg, s, listing));
    SteadyReadingsAreEarly(cfg, Apply(cfg, s, listing), m, MinPoints(cfg));
    assert Preparation(cfg, m)[0] == listing && Preparation(cfg, m)[1..] == SteadyReadings(m, MinPoints(cfg));
  }

  lemma {:induction false} SteadyIsOpening(m: string, k: nat, end: int)
    requires end >= 1
    ensures Opening(SteadyReadings(m, k), 1, end)
    decreases k
  {
    if k > 0 {
      SteadyIsOpening(m, k - 1, end);
      SweepsAhead(Observe(Reading(m, 1.0, false), 1), SteadyReadings(m, k - 1));
    }
  }

  lemma {:induction false} PreparationIsOpening(cfg: Settings, m: string, end: int)
    requires end >= 1
    ensures Opening(Preparation(cfg, m), 1, end)
  {
    SteadyIsOpening(m, MinPoints(cfg), end);
    SweepsAhead(Observe(Reading(m, 1.0, true), 1), SteadyReadings(m, MinPoints(cfg)));
  }

  /** A resource that was just forgotten is not reported as an anomaly. */
  lemma {:induction false} ForgottenIsNotReported(cfg: Settings, s: State, o: Observation, now: int)
    requires cfg.anomalyEnabled && o.id !in s.tracked && Enumerates(o.order, o.values.Keys)
    ensures Evaluate(cfg, s.dyn, s.tracked, o, now).verdict != Included(AnomalyDetection)
  {
    NewEntityNeverSpikes(cfg, o.values, o.order, now);
  }

  /** The verdict on a spike, with and without a sweep before it. */
  lemma {:induction false} SpikeAfterPreparation(cfg: Settings, s: State, m: string, value: real, end: int)
    returns (b: Verdict)
    requires cfg.anomalyEnabled && m in cfg.metricThresholds && HasOnes(s, m, MinPoints(cfg)) && SeenEarly(s)
    requires value == 1.0 + ChangeThreshold(cfg) / 100.0
    requires cfg.retentionMinutes > 0 && end == 2 + cfg.retentionMinutes * MINUTE
    ensures var spike := Observe(Reading(m, value, false), end);
      && WellFormed(spike) && VerdictsOf(cfg, s, spike) == [Included(AnomalyDetection)]
      && VerdictsOf(cfg, Apply(cfg, s, Sweep(end)), spike) == [b] && b != Included(AnomalyDetection)
  {
    SpikeIsReported(cfg, s, m, value, end);
    var swept := Apply(cfg, s, Sweep(end));
    assert "entity" !in swept.tracked;
    ForgottenIsNotReported(cfg, swept, Reading(m, value, false), end);
    b := Evaluate(cfg, swept.dyn, swept.tracked, Reading(m, value, false), end).verdict;
  }

  /**
   * With detection at work a sweep shows: it forgets the history that a later spike would have been measured against.
   */
  lemma {:induction false} DetectionShowsCleanup(cfg: Settings)
    requires cfg.retentionMinutes > 0 && !Quiet(cfg)
    ensures CleanupShows(cfg)
  {
    var m :| m in cfg.metricThresholds;
    var end, value := 2 + cfg.retentionMinutes * MINUTE, 1.0 + ChangeThreshold(cfg) / 100.0;
    Prepared(cfg, Dynamic.Seeded(cfg), m);
    PreparedEarly(cfg, Dynamic.Seeded(cfg), m);
    var b := SpikeAfterPreparation(cfg, Run(cfg, Fresh(cfg), Preparation(cfg, m)), m, value, end);
    PreparationIsOpening(cfg, m, end);
    LastVerdictDiffers(cfg, Preparation(cfg, m), end, Observe(Reading(m, value, false), end),
                       Included(AnomalyDetection), b);
  }

  /** Whatever the settings: cleanup can change a verdict exactly under these. */
  lemma {:induction false} CleanupShowsExactly(cfg: Settings)
    ensures CleanupShows(cfg) <==> cfg.retentionMinutes > 0 && (!Quiet(cfg) || (cfg.debugShowAll && CanMiss(cfg)))
  {
    if cfg.retentionMinutes > 0 && !Quiet(cfg) {
      DetectionShowsCleanup(cfg);
    } else if cfg.retentionMinutes > 0 && cfg.debugShowAll && CanMiss(cfg) {
      DebugModeShowsCleanup(cfg);
    } else {
      forall events | AllWellFormed(events) && Timed(events, 1) && Tuned(cfg, events) ensures !SweepsShow(cfg, events) {
        NothingShows(cfg, events);
      }
    }
  }

  /**
   * After normalization: in debug mode with a threshold to miss, or with detection on and a history size other than 1
   * and 2.
   */
  lemma {:induction false} NormalizedCleanupShows(s: Settings)
    ensures CleanupShows(Normalized(s)) <==>
      || (s.debugShowAll && CanMiss(s))
      || (s.anomalyEnabled && s.metricThresholds != map[] && !(s.historySize == 1 || s.historySize == 2))
  {
    if s.anomalyEnabled {
      NormalizedHistoryReachesMinimum(s);
    }
    assert forall m :: Missable(Normalized(s), m) == Missable(s, m);
    CleanupShowsExactly(Normalized(s));
  }
}
