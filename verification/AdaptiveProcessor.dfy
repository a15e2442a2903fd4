/** The processor object: tracked entities on the heap, batches and their cancellation. */
module AdaptiveProcessor {
  import opened AdaptiveConfig
  import opened AdaptiveModel
  import opened AdaptiveEntities
  import Dynamic = DynamicThresholds
  import opened Grouping

  const UPDATE_INTERVAL := 60_000_000_000

  /** The stage attribute of a resource. */
  datatype Mark = Unmarked | Marked(stage: Stage)

  /**
   * One resource of a batch: its identity, metrics and process facts are given, its stage attribute is set in place.
   */
  class Resource {
    const id: string
    const metrics: seq<Dynamic.Metric>
    const zombie: bool
    const listed: bool
    var mark: Mark

    constructor (id: string, metrics: seq<Dynamic.Metric>, zombie: bool, listed: bool)
      ensures this.id == id && this.metrics == metrics && this.zombie == zombie && this.listed == listed &&
        mark == Unmarked
    {
      this.id, this.metrics, this.zombie, this.listed, mark := id, metrics, zombie, listed, Unmarked;
    }
  }

  /** Metrics with a threshold, or with a weight when composite scoring is on. */
  predicate ShouldProcess(cfg: Settings, name: string) {
    name in cfg.metricThresholds || (cfg.multiEnabled && name in cfg.weights)
  }

  /** The values of the processed gauges and sums; a later metric of the same name wins. */
  function Extracted(cfg: Settings, metrics: seq<Dynamic.Metric>): Values {
    if metrics == [] then map[]
    else
      var before, m := Extracted(cfg, metrics[..|metrics| - 1]), metrics[|metrics| - 1];
      if ShouldProcess(cfg, m.name) && !m.kind.Other? then before[m.name := SumReals(m.points)] else before
  }

  /** The metric is read: a gauge or sum that has a threshold, or a weight while composite scoring is on. */
  predicate IsRead(cfg: Settings, m: Dynamic.Metric, name: string) {
    && m.name == name && (m.kind == Dynamic.Gauge || m.kind == Dynamic.Sum)
    && (name in cfg.metricThresholds || (cfg.multiEnabled && name in cfg.weights))
  }

  /** Metric i is read, and no later one of that name is. */
  predicate IsLastRead(cfg: Settings, metrics: seq<Dynamic.Metric>, i: nat, name: string) {
    i < |metrics| && IsRead(cfg, metrics[i], name) && forall j :: i < j < |metrics| ==> !IsRead(cfg, metrics[j], name)
  }

  /** A name has a value exactly when some metric of that name is read, and then it is that of the last one. */
  lemma {:induction false} LastMetricWins(cfg: Settings, metrics: seq<Dynamic.Metric>, name: string) returns (i: nat)
    ensures name in Extracted(cfg, metrics) <==> exists k :: 0 <= k < |metrics| && IsRead(cfg, metrics[k], name)
    ensures name in Extracted(cfg, metrics) ==>
      IsLastRead(cfg, metrics, i, name) && Extracted(cfg, metrics)[name] == SumReals(metrics[i].points)
    decreases |metrics|
  {
    i := 0;
    if metrics != [] {
      var init, last := metrics[..|metrics| - 1], |metrics| - 1;
      i := LastMetricWins(cfg, init, name);
      if IsRead(cfg, metrics[last], name) {
        i := last;
      }
    }
  }

  method ExtractMetricValues(cfg: Settings, ghost id: string, metrics: seq<Dynamic.Metric>) returns (values: ValueMap)
    ensures fresh(values) && values.id == id && values.m == Extracted(cfg, metrics)
  {
    values := new ValueMap(id, map[]);
    var j := 0;
    while j < |metrics|
      invariant 0 <= j <= |metrics| && values.m == Extracted(cfg, metrics[..j])
    {
      assert metrics[..j + 1][..j] == metrics[..j];
      var m := metrics[j];
      if ShouldProcess(cfg, m.name) && !m.kind.Other? {
        var value := Dynamic.SumPoints(m.points);
        values.m := values.m[m.name := value];
      }
      j := j + 1;
    }
    assert metrics[..j] == metrics;
  }

  /** What the model sees of a resource, given an order of visiting its values. */
  function Seen(cfg: Settings, r: Resource, order: seq<string>): Observation {
    Observation(r.id, Extracted(cfg, r.metrics), r.zombie, r.listed, order)
  }

  class Processor {
    const cfg: Settings
    var trackedEntities: map<string, TrackedEntity>
    var dynamicCustomThresholds: Values
    var lastThresholdUpdate: int
    ghost var owned: set<object>

    constructor (cfg: Settings, now: int)
      ensures Valid() && fresh(owned) && this.cfg == cfg
      ensures View() == State(map[], Dynamic.Seeded(cfg)) && lastThresholdUpdate == now
    {
      this.cfg := cfg;
      trackedEntities, owned := map[], {};
      dynamicCustomThresholds := Dynamic.Seeded(cfg);
      lastThresholdUpdate := now;
    }

    /** Each tracked entity and its value maps are owned and belong to the identity they are tracked under. */
    ghost predicate Valid()
      reads this, owned
    {
      this !in owned && forall id :: id in trackedEntities ==> Holds(owned, id, trackedEntities[id])
    }

    static ghost predicate Holds(owned: set<object>, id: string, e: TrackedEntity) {
      && e in owned && e.currentValues in owned && e.maxValues in owned
      && e.id == e.currentValues.id == e.maxValues.id == id
    }

    ghost function Tracked(): map<string, Entity>
      requires Valid()
      reads this, owned
    {
      map id | id in trackedEntities :: trackedEntities[id].View()
    }

    ghost function View(): State
      requires Valid()
      reads this, owned
    {
      State(Tracked(), dynamicCustomThresholds)
    }

    /** Starts tracking an entity made of new objects. */
    method Track(id: string, e: TrackedEntity)
      requires Valid() && id !in trackedEntities && e.id == e.currentValues.id == e.maxValues.id == id
      modifies `trackedEntities, `owned
      ensures Valid() && owned == old(owned) + {e, e.currentValues, e.maxValues}
      ensures Tracked() == old(Tracked())[id := e.View()]
    {
      forall k | k in trackedEntities ensures Holds(owned + {e, e.currentValues, e.maxValues}, k, trackedEntities[k]) {
        assert Holds(owned, k, trackedEntities[k]);
      }
      owned := owned + {e, e.currentValues, e.maxValues};
      trackedEntities := trackedEntities[id := e];
    }

    /** Changing one entity and its maps leaves the views of the others alone. */
    twostate lemma OthersUnchanged(te: TrackedEntity)
      requires old(Valid()) && old(te.id in trackedEntities && trackedEntities[te.id] == te)
      requires unchanged(this)
      requires forall o: object ::
        old(allocated(o)) && o in owned && o != te && o != te.currentValues && o != te.maxValues ==> unchanged(o)
      ensures Valid() && Tracked() == old(Tracked())[te.id := te.View()]
    {
      forall k | k in trackedEntities && k != te.id
        ensures trackedEntities[k].View() == old(trackedEntities[k].View())
      {
        assert Holds(owned, k, trackedEntities[k]) && Holds(owned, te.id, te);
      }
    }

    /** Tracking for zombies and listed processes. */
    method UpsertTracked(id: string, values: ValueMap, now: int)
      requires Valid() && values !in owned && values.id == id
      modifies `trackedEntities, `owned, owned
      ensures Valid() && old(owned) <= owned && fresh(owned - old(owned) - {values})
      ensures Tracked() == Upsert(old(Tracked()), id, values.m, now) && values.m == old(values.m)
    {
      if id !in trackedEntities {
        var e := new TrackedEntity(now, map[], values);
        Track(id, e);
      } else {
        var te := trackedEntities[id];
        assert Holds(owned, id, te);
        te.Touch(values.m, now);
        OthersUnchanged(te);
      }
    }

    /** All stages for a resource whose identity is tracked. */
    method EvaluateExistingEntity(o: Observation, now: int) returns (verdict: Verdict)
      requires Valid() && o.id in trackedEntities && Enumerates(o.order, o.values.Keys)
      modifies owned
      ensures Valid()
      ensures var r := EvaluateExisting(cfg, dynamicCustomThresholds, old(Tracked())[o.id], o, now);
        Tracked() == old(Tracked())[o.id := r.e] && verdict == r.verdict
    {
      var te := trackedEntities[o.id];
      assert Holds(owned, o.id, te);
      verdict := te.EvaluateTracked(cfg, dynamicCustomThresholds, o, now);
      OthersUnchanged(te);
    }

    /** All stages for a resource that is not tracked; it becomes tracked if included, or in debug mode. */
    method EvaluateNewEntity(o: Observation, values: ValueMap, now: int) returns (verdict: Verdict)
      requires Valid() && o.id !in trackedEntities && values.id == o.id && values !in owned && values.m == o.values
      requires Enumerates(o.order, o.values.Keys)
      modifies `trackedEntities, `owned
      ensures Valid() && old(owned) <= owned && fresh(owned - old(owned) - {values})
      ensures Outcome(Tracked(), verdict) == EvaluateNew(cfg, dynamicCustomThresholds, old(Tracked()), o, now)
    {
      var first: map<string, seq<real>> := map[];
      if cfg.anomalyEnabled {
        first := map m | m in values.m :: [values.m[m]];
      }
      var e := new TrackedEntity(0, first, values);
      assert e.View() == NewEntity(cfg, o.values);
      verdict := e.CheckStages(cfg, dynamicCustomThresholds, o, now);
      assert Tracked() == old(Tracked());
      if verdict != Excluded || cfg.debugShowAll {
        Track(o.id, e);
        if verdict == Excluded {
          verdict := Included(DebugNoMatch);
        }
      }
    }

    /** The decision about one resource whose values have been extracted. */
    method Decide(o: Observation, values: ValueMap, now: int) returns (verdict: Verdict)
      requires Valid() && values.id == o.id && values !in owned && values.m == o.values &&
        Enumerates(o.order, o.values.Keys)
      modifies `trackedEntities, `owned, owned
      ensures Valid() && old(owned) <= owned && fresh(owned - old(owned) - {values})
      ensures View() == Apply(cfg, old(View()), Observe(o, now)) &&
        VerdictsOf(cfg, old(View()), Observe(o, now)) == [verdict]
    {
      verdict := Evaluated(o, values, now);
      StepOf(cfg, old(View()), o, now, Tracked(), verdict);
    }

    method Evaluated(o: Observation, values: ValueMap, now: int) returns (verdict: Verdict)
      requires Valid() && values.id == o.id && values !in owned && values.m == o.values &&
        Enumerates(o.order, o.values.Keys)
      modifies `trackedEntities, `owned, owned
      ensures Valid() && old(owned) <= owned && fresh(owned - old(owned) - {values})
      ensures Outcome(Tracked(), verdict) == Evaluate(cfg, dynamicCustomThresholds, old(Tracked()), o, now)
    {
      var targeted := AnyTargeted(cfg, dynamicCustomThresholds, values.m);
      if !targeted {
        return Included(DefaultInclusion);
      }
      if o.zombie {
        UpsertTracked(o.id, values, now);
        return Included(ZombieProcess);
      }
      if o.listed {
        UpsertTracked(o.id, values, now);
        return Included(IncludeList);
      }
      if o.id in trackedEntities {
        verdict := EvaluateExistingEntity(o, now);
      } else {
        verdict := EvaluateNewEntity(o, values, now);
      }
    }

    /** The decision about one resource; an included resource is marked with its stage. */
    method ShouldIncludeResource(r: Resource, now: int) returns (included: bool, ghost e: Event, ghost verdict: Verdict)
      requires Valid() && r !in owned
      modifies `trackedEntities, `owned, owned, r
      ensures Valid() && old(owned) <= owned && fresh(owned - old(owned))
      ensures WellFormed(e) && e.Observe? && e.o == Seen(cfg, r, e.o.order) && e.now == now
      ensures View() == Apply(cfg, old(View()), e) && VerdictsOf(cfg, old(View()), e) == [verdict]
      ensures included <==> verdict.Included?
      ensures r.mark == MarkAfter(verdict, old(r.mark))
    {
      var values := ExtractMetricValues(cfg, r.id, r.metrics);
      var order := RangeOrder(values.m.Keys);
      var o := Seen(cfg, r, order);
      assert View() == old(View());
      var decision := Decide(o, values, now);
      ghost var after := View();
      assert after == Apply(cfg, old(View()), Observe(o, now));
      if decision.Included? {
        r.mark := Marked(decision.stage);
      }
      included, verdict, e := decision.Included?, decision, Observe(o, now);
    }

    /** One resource of a batch: what it adds to the output and to the stage hits. */
    method ProcessSingleResource(r: Resource, now: int, out: seq<Output>, hits: multiset<Stage>)
      returns (out': seq<Output>, hits': multiset<Stage>, ghost e: Event, ghost verdict: Verdict)
      requires Valid() && r !in owned
      modifies `trackedEntities, `owned, owned, r
      ensures Valid() && old(owned) <= owned && fresh(owned - old(owned))
      ensures WellFormed(e) && e.Observe? && e.o == Seen(cfg, r, e.o.order) && e.now == now
      ensures View() == Apply(cfg, old(View()), e) && VerdictsOf(cfg, old(View()), e) == [verdict]
      ensures r.mark == MarkAfter(verdict, old(r.mark))
      ensures out' == out + (if verdict.Included? then [OutputOf(cfg, r, verdict.stage)] else [])
      ensures hits' == hits + (if verdict.Included? then multiset{verdict.stage} else multiset{})
    {
      var included;
      included, e, verdict := ShouldIncludeResource(r, now);
      out', hits' := out, hits;
      if included {
        var includeReason := r.mark.stage;
        out' := out' + [OutputOf(cfg, r, includeReason)];
        hits' := hits' + multiset{includeReason};
      }
    }

    /** Deletes the entities whose last exceedance lies before the retention window. */
    method CleanupExpiredEntities(now: int)
      requires Valid()
      modifies `trackedEntities
      ensures Valid() && Tracked() == Swept(cfg, old(Tracked()), now)
    {
      if cfg.retentionMinutes <= 0 {
        return;
      }
      SweptButEnds(cfg, Tracked(), now);
      ForgetExpired(now - cfg.retentionMinutes * MINUTE);
    }

    method ForgetExpired(exp: int)
      requires Valid()
      modifies `trackedEntities
      ensures Valid() && Tracked() == SweptBut(old(Tracked()), {}, exp)
    {
      ghost var was := Tracked();
      var rest := trackedEntities.Keys;
      assert was == SweptBut(was, rest, exp);
      while rest != {}
        invariant Valid() && rest <= trackedEntities.Keys
        invariant Tracked() == SweptBut(was, rest, exp)
        decreases rest
      {
        var id :| id in rest;
        ForgetIfExpired(id, exp);
        SweptButStep(was, rest, exp, id);
        rest := rest - {id};
      }
    }

    method ForgetIfExpired(id: string, exp: int)
      requires Valid() && id in trackedEntities
      modifies `trackedEntities
      ensures Valid()
      ensures var was := old(Tracked()); Tracked() == if was[id].lastExceeded < exp then was - {id} else was
      ensures old(trackedEntities.Keys) - {id} <= trackedEntities.Keys
    {
      if trackedEntities[id].lastExceeded < exp {
        trackedEntities := trackedEntities - {id};
      }
    }

    /** Recomputes the dynamic thresholds, unless they were recomputed within half an interval. */
    method UpdateDynamicThresholds(metrics: seq<Dynamic.Metric>, now: int)
      modifies `dynamicCustomThresholds, `lastThresholdUpdate
      ensures var skip := !cfg.dynamicEnabled || now - old(lastThresholdUpdate) < UPDATE_INTERVAL / 2;
        && lastThresholdUpdate == (if skip then old(lastThresholdUpdate) else now)
        && dynamicCustomThresholds ==
           if skip then old(dynamicCustomThresholds) else Dynamic.Updated(cfg, old(dynamicCustomThresholds), metrics)
    {
      if !cfg.dynamicEnabled || now - lastThresholdUpdate < UPDATE_INTERVAL / 2 {
        return;
      }
      lastThresholdUpdate := now;
      dynamicCustomThresholds := Dynamic.UpdateThresholds(cfg, dynamicCustomThresholds, metrics);
    }

    /** The update a batch triggers when a whole interval has passed. */
    method UpdateDynamicThresholdsIfNeeded(metrics: seq<Dynamic.Metric>, now: int)
      modifies `dynamicCustomThresholds, `lastThresholdUpdate
      ensures var due := cfg.dynamicEnabled && now - old(lastThresholdUpdate) >= UPDATE_INTERVAL;
        && lastThresholdUpdate == (if due then now else old(lastThresholdUpdate))
        && dynamicCustomThresholds ==
           if due then Dynamic.Updated(cfg, old(dynamicCustomThresholds), metrics) else old(dynamicCustomThresholds)
    {
      if !cfg.dynamicEnabled || now - lastThresholdUpdate < UPDATE_INTERVAL {
        return;
      }
      UpdateDynamicThresholds(metrics, now);
      lastThresholdUpdate := now;
    }

    /** The same for resource i of a batch, whose other resources keep their marks. */
    method ProcessResourceAt(rms: seq<Resource>, i: nat, now: int, out: seq<Output>, hits: multiset<Stage>)
      returns (out': seq<Output>, hits': multiset<Stage>, ghost e: Event, ghost verdict: Verdict)
      requires Valid() && i < |rms| && Distinct(rms) && forall r :: r in rms ==> r !in owned
      modifies `trackedEntities, `owned, owned, rms[i]
      ensures Valid() && old(owned) <= owned && fresh(owned - old(owned))
      ensures WellFormed(e) && e.Observe? && e.o == Seen(cfg, rms[i], e.o.order) && e.now == now
      ensures View() == Apply(cfg, old(View()), e) && VerdictsOf(cfg, old(View()), e) == [verdict]
      ensures Marks(rms) == old(Marks(rms))[i := MarkAfter(verdict, old(Marks(rms))[i])]
      ensures out' == out + (if verdict.Included? then [OutputOf(cfg, rms[i], verdict.stage)] else [])
      ensures hits' == hits + (if verdict.Included? then multiset{verdict.stage} else multiset{})
    {
      assert forall k :: 0 <= k < |rms| ==> rms[k] in rms;
      out', hits', e, verdict := ProcessSingleResource(rms[i], now, out, hits);
    }

    /** The processor, the batch and the loop's variables show the progress p. */
    ghost predicate BatchAt(rms: seq<Resource>, clock: seq<int>, s0: State, m0: seq<Mark>, p: Progress,
                            out: seq<Output>, hits: multiset<Stage>)
      reads this, owned, rms
    {
      Valid() && Reached(cfg, s0, m0, rms, clock, p) && p.Shows(View(), Marks(rms), out, hits)
    }

    lemma {:induction false} BatchStarts(rms: seq<Resource>, clock: seq<int>)
      requires Valid() && |rms| == |clock|
      ensures BatchAt(rms, clock, View(), Marks(rms), Progress(View(), [], [], [], multiset{}, Marks(rms)), [],
                      multiset{})
    {
      NothingReached(cfg, View(), Marks(rms), rms, clock);
    }

    /** One turn of the loop over a batch, with the progress it makes. */
    method AdvanceBatch(rms: seq<Resource>, clock: seq<int>, out: seq<Output>, hits: multiset<Stage>,
                        ghost s0: State, ghost m0: seq<Mark>, ghost p: Progress, i: nat)
      returns (out': seq<Output>, hits': multiset<Stage>, ghost q: Progress)
      requires BatchAt(rms, clock, s0, m0, p, out, hits) && |p.events| == i < |rms|
      requires Distinct(rms) && forall r :: r in rms ==> r !in owned
      modifies `trackedEntities, `owned, owned, rms[i]
      ensures old(owned) <= owned && fresh(owned - old(owned))
      ensures BatchAt(rms, clock, s0, m0, q, out', hits') && |q.events| == i + 1
    {
      ghost var e, verdict;
      out', hits', e, verdict := ProcessResourceAt(rms, i, clock[i], out, hits);
      q := Advanced(cfg, rms, p, e, verdict);
      ReachedStep(cfg, s0, m0, rms, clock, p, e, verdict);
    }

    /** The loop over the resources; it stops early when the context, looked at every 25 resources, is cancelled. */
    method EvaluateInOrder(rms: seq<Resource>, clock: seq<int>, cancelled: nat -> bool, ghost s0: State,
                           ghost m0: seq<Mark>)
      returns (finished: bool, out: seq<Output>, stageHits: multiset<Stage>, ghost p: Progress)
      requires Valid() && |clock| == |rms| && Distinct(rms) && (forall r :: r in rms ==> r !in owned)
      requires s0 == View() && m0 == Marks(rms)
      modifies `trackedEntities, `owned, owned, rms
      ensures old(owned) <= owned && fresh(owned - old(owned))
      ensures BatchAt(rms, clock, s0, m0, p, out, stageHits)
      ensures RunsThrough(|p.events|, cancelled)
      ensures if finished then |p.events| == |rms| else |p.events| < |rms| && StopsAt(|p.events|, cancelled)
    {
      out, stageHits := [], multiset{};
      p := Progress(s0, [], [], [], multiset{}, m0);
      BatchStarts(rms, clock);
      var i := 0;
      while i < |rms|
        invariant 0 <= i <= |rms| && |p.events| == i
        invariant old(owned) <= owned && forall o :: o in owned ==> o in old(owned) || fresh(o)
        invariant BatchAt(rms, clock, s0, m0, p, out, stageHits)
        invariant RunsThrough(i, cancelled)
      {
        if StopsAt(i, cancelled) {
          finished := false;
          return;
        }
        RunsPast(i, cancelled);
        out, stageHits, p := AdvanceBatch(rms, clock, out, stageHits, s0, m0, p, i);
        i := i + 1;
      }
      finished := true;
    }

    /** The batch after the loop: the filtered copies, or on cancellation the whole batch with every resource marked. */
    method ProcessAllResources(rms: seq<Resource>, clock: seq<int>, cancelled: nat -> bool)
      returns (result: BatchResult, stageHits: multiset<Stage>, ghost events: seq<Event>, ghost verdicts: seq<Verdict>)
      requires Valid() && |clock| == |rms| && Distinct(rms) && forall r :: r in rms ==> r !in owned
      modifies `trackedEntities, `owned, owned, rms
      ensures Valid() && old(owned) <= owned && fresh(owned - old(owned))
      ensures Observes(cfg, events, rms, clock) && View() == Run(cfg, old(View()), events)
      ensures verdicts == Verdicts(cfg, old(View()), events)
      ensures Concluded(cfg, rms, cancelled, verdicts, result, stageHits)
      ensures Marks(rms) == FinalMarks(result, verdicts, old(Marks(rms)))
      ensures result.Original? ==> forall s :: s != ProcessingTimeout ==> stageHits[s] == StagesOf(verdicts)[s]
      ensures result.Original? && (forall m :: m in old(Marks(rms)) ==> m == Unmarked) ==> |stageHits| == |rms|
    {
      var finished, out;
      ghost var p;
      finished, out, stageHits, p := EvaluateInOrder(rms, clock, cancelled, View(), Marks(rms));
      events, verdicts := p.events, p.verdicts;
      if finished {
        assert rms[..|rms|] == rms;
        return Filtered(out), stageHits, events, verdicts;
      }
      ghost var after := View();
      stageHits := MarkRemaining(rms, stageHits, verdicts, old(Marks(rms)));
      assert View() == after;
      result := Original;
    }

    /** The sweep that one batch in a hundred does at its end. */
    method PerformPostProcessingTasks(sweep: bool, now: int)
      requires Valid()
      modifies `trackedEntities
      ensures Valid() && View() == Run(cfg, old(View()), SweepEvents(cfg, sweep, now))
    {
      if cfg.retentionMinutes > 0 && sweep {
        CleanupExpiredEntities(now);
      }
    }

    /** The thresholds move if they are due. */
    method Tune(rms: seq<Resource>, start: int) returns (ghost tune: seq<Event>)
      requires Valid()
      modifies `dynamicCustomThresholds, `lastThresholdUpdate
      ensures Valid() && AllWellFormed(tune) && View() == Run(cfg, old(View()), tune)
      ensures tune == TuneEvents(cfg, rms, start, old(lastThresholdUpdate), old(dynamicCustomThresholds))
    {
      tune := TuneEvents(cfg, rms, start, lastThresholdUpdate, dynamicCustomThresholds);
      UpdateDynamicThresholdsIfNeeded(AllMetrics(rms), start);
    }

    /** The thresholds move first if they are due; then the resources are evaluated. */
    method TuneAndProcess(rms: seq<Resource>, start: int, clock: seq<int>, cancelled: nat -> bool)
      returns (result: BatchResult, stageHits: multiset<Stage>, ghost tune: seq<Event>, ghost evaluations: seq<Event>,
               ghost verdicts: seq<Verdict>)
      requires Valid() && |clock| == |rms| && Distinct(rms) && forall r :: r in rms ==> r !in owned
      modifies `trackedEntities, `dynamicCustomThresholds, `lastThresholdUpdate, `owned, owned, rms
      ensures Valid() && old(owned) <= owned && fresh(owned - old(owned))
      ensures tune == TuneEvents(cfg, rms, start, old(lastThresholdUpdate), old(dynamicCustomThresholds))
      ensures Observes(cfg, evaluations, rms, clock)
      ensures View() == Run(cfg, Run(cfg, old(View()), tune), evaluations)
      ensures verdicts == Verdicts(cfg, Run(cfg, old(View()), tune), evaluations)
      ensures Concluded(cfg, rms, cancelled, verdicts, result, stageHits)
      ensures Marks(rms) == FinalMarks(result, verdicts, old(Marks(rms)))
    {
      tune := Tune(rms, start);
      result, stageHits, evaluations, verdicts := ProcessAllResources(rms, clock, cancelled);
    }

    /**
     * One batch. A batch without resources and a batch whose context is already cancelled come back as they are,
     * the latter as an error; any other batch is a run of the state machine whose verdicts give the output.
     */
    method ProcessMetrics(rms: seq<Resource>, start: int, clock: seq<int>, end: int,
                          cancelledEarly: bool, cancelled: nat -> bool, sweep: bool)
      returns (result: BatchResult, err: bool, stageHits: multiset<Stage>, ghost events: seq<Event>,
               ghost verdicts: seq<Verdict>)
      requires Valid() && |clock| == |rms| && Distinct(rms) && forall r :: r in rms ==> r !in owned
      modifies `trackedEntities, `dynamicCustomThresholds, `lastThresholdUpdate, `owned, owned, rms
      ensures Valid() && old(owned) <= owned && fresh(owned - old(owned))
      ensures err <==> rms != [] && cancelledEarly
      ensures rms == [] || err ==> result == Original && events == [] && Marks(rms) == old(Marks(rms))
      ensures rms != [] && !err ==>
        BatchSteps(cfg, events, rms, clock, start, old(lastThresholdUpdate), old(dynamicCustomThresholds), sweep, end)
      ensures AllWellFormed(events) && View() == Run(cfg, old(View()), events) &&
        verdicts == Verdicts(cfg, old(View()), events)
      ensures rms != [] && !err ==> Concluded(cfg, rms, cancelled, verdicts, result, stageHits)
      ensures rms != [] && !err ==> Marks(rms) == FinalMarks(result, verdicts, old(Marks(rms)))
    {
      stageHits, events, verdicts, err, result := multiset{}, [], [], false, Original;
      if rms == [] {
        return;
      }
      if cancelledEarly {
        err := true;
        return;
      }
      ghost var s0 := View();
      ghost var tune, evaluations;
      result, stageHits, tune, evaluations, verdicts := TuneAndProcess(rms, start, clock, cancelled);
      PerformPostProcessingTasks(sweep, end);
      events := tune + evaluations + SweepEvents(cfg, sweep, end);
      BatchRuns(cfg, s0, tune, evaluations, SweepEvents(cfg, sweep, end));
    }
  }

  /** What a batch turns into: the filtered copies, or the batch itself when the context was cancelled. */
  datatype BatchResult = Filtered(out: seq<Output>) | Original

  /** The copy of an included resource: evaluated ones are flagged, and the stage stays visible in debug mode only. */
  datatype Output = Output(resource: Resource, atpEnabled: bool, shown: Mark)

  function OutputOf(cfg: Settings, r: Resource, stage: Stage): Output {
    Output(r, stage != DefaultInclusion, if cfg.debugShowAll then Marked(stage) else Unmarked)
  }

  /** The copies of the included resources, in order. */
  function Outputs(cfg: Settings, rms: seq<Resource>, verdicts: seq<Verdict>): seq<Output>
    requires |verdicts| == |rms|
  {
    if rms == [] then []
    else
      var last := |rms| - 1;
      Outputs(cfg, rms[..last], verdicts[..last]) +
      if verdicts[last].Included? then [OutputOf(cfg, rms[last], verdicts[last].stage)] else []
  }

  /** The stages of the included verdicts, counted. */
  function StagesOf(verdicts: seq<Verdict>): multiset<Stage> {
    if verdicts == [] then multiset{}
    else
      var last := verdicts[|verdicts| - 1];
      StagesOf(verdicts[..|verdicts| - 1]) + if last.Included? then multiset{last.stage} else multiset{}
  }

  /** The loop looks at the context before resource k, and finds it cancelled. */
  predicate StopsAt(k: nat, cancelled: nat -> bool) {
    k > 0 && k % 25 == 0 && cancelled(k)
  }

  /** It does not stop before any of the first n resources. */
  ghost predicate RunsThrough(n: nat, cancelled: nat -> bool) {
    forall k: nat :: k < n ==> !StopsAt(k, cancelled)
  }

  lemma {:induction false} RunsPast(i: nat, cancelled: nat -> bool)
    requires RunsThrough(i, cancelled) && !StopsAt(i, cancelled)
    ensures RunsThrough(i + 1, cancelled)
  {
  }

  /** Resources without a stage get the timeout stage. */
  function TimedOut(marks: seq<Mark>): seq<Mark> {
    seq(|marks|, k requires 0 <= k < |marks| => if marks[k] == Unmarked then Marked(ProcessingTimeout) else marks[k])
  }

  function MarkAfter(v: Verdict, before: Mark): Mark {
    if v.Included? then Marked(v.stage) else before
  }

  ghost predicate Distinct(rms: seq<Resource>) {
    forall a, b :: 0 <= a < b < |rms| ==> rms[a] != rms[b]
  }

  /** Every metric of the batch, in order. */
  function AllMetrics(rms: seq<Resource>): seq<Dynamic.Metric> {
    if rms == [] then [] else AllMetrics(rms[..|rms| - 1]) + rms[|rms| - 1].metrics
  }

  /** The change of the thresholds a batch starts with, if a whole interval has passed. */
  function TuneEvents(cfg: Settings, rms: seq<Resource>, start: int, lastUpdate: int, dyn: Values): seq<Event> {
    if cfg.dynamicEnabled && start - lastUpdate >= UPDATE_INTERVAL then
      [Retune(Dynamic.Updated(cfg, dyn, AllMetrics(rms)))]
    else []
  }

  function SweepEvents(cfg: Settings, sweep: bool, now: int): seq<Event> {
    if cfg.retentionMinutes > 0 && sweep then [Sweep(now)] else []
  }

  /** The steps of one batch: at most one change of the thresholds, evaluations in order, at most one sweep. */
  ghost predicate BatchSteps(cfg: Settings, events: seq<Event>, rms: seq<Resource>, clock: seq<int>,
                             start: int, lastUpdate: int, dyn: Values, sweep: bool, end: int) {
    exists evaluations {:trigger Observes(cfg, evaluations, rms, clock)} ::
      && Observes(cfg, evaluations, rms, clock)
      && events == TuneEvents(cfg, rms, start, lastUpdate, dyn) + evaluations + SweepEvents(cfg, sweep, end)
  }

  /** Only the evaluations of a batch give verdicts. */
  lemma {:induction false} BatchRuns(cfg: Settings, s: State, tune: seq<Event>, evaluations: seq<Event>,
                                     swept: seq<Event>)
    requires AllWellFormed(tune) && AllWellFormed(evaluations) && AllWellFormed(swept)
    requires |tune| <= 1 && |swept| <= 1 && (forall e :: e in tune + swept ==> !e.Observe?)
    ensures var events := tune + evaluations + swept;
      && AllWellFormed(events)
      && Run(cfg, s, events) == Run(cfg, Run(cfg, Run(cfg, s, tune), evaluations), swept)
      && Verdicts(cfg, s, events) == Verdicts(cfg, Run(cfg, s, tune), evaluations)
  {
    Silent(cfg, s, tune);
    RunConcat(cfg, s, tune, evaluations);
    RunConcat(cfg, s, tune + evaluations, swept);
    Silent(cfg, Run(cfg, s, tune + evaluations), swept);
  }

  lemma {:induction false} Silent(cfg: Settings, s: State, events: seq<Event>)
    requires AllWellFormed(events) && |events| <= 1 && forall e :: e in events ==> !e.Observe?
    ensures Verdicts(cfg, s, events) == []
  {
  }

  /** The events are evaluations of the first resources, in order, at the clock's times. */
  ghost predicate Observes(cfg: Settings, events: seq<Event>, rms: seq<Resource>, clock: seq<int>) {
    && |events| <= |rms| <= |clock| && AllWellFormed(events)
    && forall k :: 0 <= k < |events| ==>
         events[k].Observe? && events[k].o == Seen(cfg, rms[k], events[k].o.order) && events[k].now == clock[k]
  }

  /** The entities a sweep keeps when it has yet to look at the rest. */
  ghost function SweptBut(was: map<string, Entity>, rest: set<string>, exp: int): map<string, Entity> {
    map id | id in was && (id in rest || was[id].lastExceeded >= exp) :: was[id]
  }

  lemma {:induction false} SweptButStep(was: map<string, Entity>, rest: set<string>, exp: int, id: string)
    requires id in rest && id in was
    ensures id in SweptBut(was, rest, exp) && SweptBut(was, rest, exp)[id] == was[id]
    ensures SweptBut(was, rest - {id}, exp) ==
      if was[id].lastExceeded < exp then SweptBut(was, rest, exp) - {id} else SweptBut(was, rest, exp)
  {
  }

  lemma {:induction false} SweptButEnds(cfg: Settings, was: map<string, Entity>, now: int)
    requires cfg.retentionMinutes > 0
    ensures var exp := now - cfg.retentionMinutes * MINUTE;
      SweptBut(was, was.Keys, exp) == was && SweptBut(was, {}, exp) == Swept(cfg, was, now)
  {
  }

  lemma {:induction false} StepOf(cfg: Settings, s: State, o: Observation, now: int, tracked: map<string, Entity>,
                                  verdict: Verdict)
    requires Enumerates(o.order, o.values.Keys)
    requires Outcome(tracked, verdict) == Evaluate(cfg, s.dyn, s.tracked, o, now)
    ensures Apply(cfg, s, Observe(o, now)) == State(tracked, s.dyn)
    ensures VerdictsOf(cfg, s, Observe(o, now)) == [verdict]
  {
  }

  ghost function Marks(rms: seq<Resource>): seq<Mark>
    reads rms
  {
    seq(|rms|, k requires 0 <= k < |rms| reads rms => rms[k].mark)
  }

  lemma {:induction false} MarksByIndex(rms: seq<Resource>)
    ensures forall k :: 0 <= k < |rms| ==> Marks(rms)[k] == rms[k].mark
  {
  }

  function MarksAfter(verdicts: seq<Verdict>, marks: seq<Mark>): seq<Mark>
    requires |verdicts| <= |marks|
  {
    seq(|marks|, k requires 0 <= k < |marks| => if k < |verdicts| then MarkAfter(verdicts[k], marks[k]) else marks[k])
  }

  /** The marks a batch ends with. */
  function FinalMarks(result: BatchResult, verdicts: seq<Verdict>, before: seq<Mark>): seq<Mark>
    requires |verdicts| <= |before|
  {
    if result.Filtered? then MarksAfter(verdicts, before) else TimedOut(MarksAfter(verdicts, before))
  }

  /**
   * The output of a batch whose loop gave these verdicts: it ran through all resources, and the output is the
   * included ones with their stages counted; or it stopped at a cancelled context, and the batch comes back.
   */
  ghost predicate Concluded(cfg: Settings, rms: seq<Resource>, cancelled: nat -> bool, verdicts: seq<Verdict>,
                            result: BatchResult, stageHits: multiset<Stage>) {
    && |verdicts| <= |rms| && RunsThrough(|verdicts|, cancelled)
    && match result
       case Original => |verdicts| < |rms| && StopsAt(|verdicts|, cancelled)
       case Filtered(out) =>
         |verdicts| == |rms| && out == Outputs(cfg, rms, verdicts) && stageHits == StagesOf(verdicts)
  }

  /** How far the loop over a batch has come. */
  datatype Progress = Progress(state: State, events: seq<Event>, verdicts: seq<Verdict>,
                               out: seq<Output>, hits: multiset<Stage>, marks: seq<Mark>) {
    ghost predicate Shows(view: State, marks: seq<Mark>, out: seq<Output>, hits: multiset<Stage>) {
      view == state && marks == this.marks && out == this.out && hits == this.hits
    }
  }

  ghost predicate ReachedByRun(cfg: Settings, s0: State, rms: seq<Resource>, clock: seq<int>, p: Progress) {
    && Observes(cfg, p.events, rms, clock) && p.state == Run(cfg, s0, p.events)
    && p.verdicts == Verdicts(cfg, s0, p.events) && |p.verdicts| == |p.events|
  }

  ghost predicate Tallied(cfg: Settings, rms: seq<Resource>, p: Progress)
    requires |p.verdicts| == |p.events| <= |rms|
  {
    p.out == Outputs(cfg, rms[..|p.events|], p.verdicts) && p.hits == StagesOf(p.verdicts)
  }

  /** The progress follows from evaluating the first resources in order. */
  ghost predicate Reached(cfg: Settings, s0: State, m0: seq<Mark>, rms: seq<Resource>, clock: seq<int>, p: Progress) {
    && ReachedByRun(cfg, s0, rms, clock, p) && Tallied(cfg, rms, p)
    && |m0| == |rms| && p.marks == MarksAfter(p.verdicts, m0)
  }

  ghost function Advanced(cfg: Settings, rms: seq<Resource>, p: Progress, e: Event, v: Verdict): Progress
    requires |p.events| < |rms| == |p.marks| && WellFormed(e)
  {
    var i := |p.events|;
    Progress(Apply(cfg, p.state, e), p.events + [e], p.verdicts + [v],
      p.out + (if v.Included? then [OutputOf(cfg, rms[i], v.stage)] else []),
      p.hits + (if v.Included? then multiset{v.stage} else multiset{}),
      p.marks[i := MarkAfter(v, p.marks[i])])
  }

  lemma {:induction false} NothingReached(cfg: Settings, s0: State, m0: seq<Mark>, rms: seq<Resource>, clock: seq<int>)
    requires |m0| == |rms| == |clock|
    ensures Reached(cfg, s0, m0, rms, clock, Progress(s0, [], [], [], multiset{}, m0))
  {
    assert rms[..0] == [] && MarksAfter([], m0) == m0;
  }

  lemma {:induction false} ReachedByRunStep(cfg: Settings, s0: State, rms: seq<Resource>, clock: seq<int>, p: Progress,
                                            q: Progress,
                         e: Event, v: Verdict)
    requires ReachedByRun(cfg, s0, rms, clock, p) && |p.events| < |rms|
    requires WellFormed(e) && e.Observe? && e.o == Seen(cfg, rms[|p.events|], e.o.order) && e.now == clock[|p.events|]
    requires VerdictsOf(cfg, p.state, e) == [v]
    requires q.state == Apply(cfg, p.state, e) && q.events == p.events + [e] && q.verdicts == p.verdicts + [v]
    ensures ReachedByRun(cfg, s0, rms, clock, q)
  {
    RunExtends(cfg, s0, p.events, e);
    ObservesStep(cfg, p.events, e, rms, clock);
  }

  lemma {:induction false} ReachedStep(cfg: Settings, s0: State, m0: seq<Mark>, rms: seq<Resource>, clock: seq<int>,
                                       p: Progress, e: Event,
                    v: Verdict)
    requires Reached(cfg, s0, m0, rms, clock, p) && |p.events| < |rms|
    requires WellFormed(e) && e.Observe? && e.o == Seen(cfg, rms[|p.events|], e.o.order) && e.now == clock[|p.events|]
    requires VerdictsOf(cfg, p.state, e) == [v]
    ensures Reached(cfg, s0, m0, rms, clock, Advanced(cfg, rms, p, e, v))
  {
    var q := Advanced(cfg, rms, p, e, v);
    ReachedByRunStep(cfg, s0, rms, clock, p, q, e, v);
    TalliedStep(cfg, rms, p, q, e, v);
    MarksAfterStep(p.verdicts, m0, v);
  }

  lemma {:induction false} MarksAfterStep(verdicts: seq<Verdict>, marks: seq<Mark>, v: Verdict)
    requires |verdicts| < |marks|
    ensures var i, now := |verdicts|, MarksAfter(verdicts, marks);
      MarksAfter(verdicts + [v], marks) == now[i := MarkAfter(v, now[i])]
  {
  }

  lemma {:induction false} ObservesStep(cfg: Settings, events: seq<Event>, e: Event, rms: seq<Resource>,
                                        clock: seq<int>)
    requires Observes(cfg, events, rms, clock) && |events| < |rms|
    requires WellFormed(e) && e.Observe? && e.o == Seen(cfg, rms[|events|], e.o.order) && e.now == clock[|events|]
    ensures Observes(cfg, events + [e], rms, clock)
  {
  }

  lemma {:induction false} TalliesStep(cfg: Settings, rms: seq<Resource>, verdicts: seq<Verdict>, v: Verdict)
    requires |verdicts| < |rms|
    ensures Outputs(cfg, rms[..|verdicts| + 1], verdicts + [v]) == Outputs(cfg, rms[..|verdicts|], verdicts) +
      if v.Included? then [OutputOf(cfg, rms[|verdicts|], v.stage)] else []
    ensures StagesOf(verdicts + [v]) == StagesOf(verdicts) + if v.Included? then multiset{v.stage} else multiset{}
  {
    assert rms[..|verdicts| + 1][..|verdicts|] == rms[..|verdicts|] && (verdicts + [v])[..|verdicts|] == verdicts;
  }

  lemma {:induction false} TalliedStep(cfg: Settings, rms: seq<Resource>, p: Progress, q: Progress, e: Event,
                                       v: Verdict)
    requires |p.verdicts| == |p.events| < |rms| == |p.marks| && Tallied(cfg, rms, p)
    requires WellFormed(e) && q == Advanced(cfg, rms, p, e, v)
    ensures Tallied(cfg, rms, q)
  {
    TalliesStep(cfg, rms, p.verdicts, v);
  }

  lemma {:induction false} RunExtends(cfg: Settings, s: State, events: seq<Event>, e: Event)
    requires AllWellFormed(events) && WellFormed(e)
    ensures AllWellFormed(events + [e])
    ensures Run(cfg, s, events + [e]) == Apply(cfg, Run(cfg, s, events), e)
    ensures Verdicts(cfg, s, events + [e]) == Verdicts(cfg, s, events) + VerdictsOf(cfg, Run(cfg, s, events), e)
  {
    assert AllWellFormed([e]);
    RunConcat(cfg, s, events, [e]);
    assert [e][1..] == [];
  }

  // ------------------------------------------------------ cancelled batches

  /** How many of the first k resources were excluded or not reached. */
  function Leftover(verdicts: seq<Verdict>, k: nat): nat {
    if k == 0 then 0
    else Leftover(verdicts, k - 1) + if k - 1 < |verdicts| && verdicts[k - 1].Included? then 0 else 1
  }

  lemma {:induction false} HitsAndLeftovers(verdicts: seq<Verdict>, k: nat)
    requires k >= |verdicts|
    ensures |StagesOf(verdicts)| + Leftover(verdicts, k) == k
    decreases k
  {
    if k > |verdicts| {
      HitsAndLeftovers(verdicts, k - 1);
    } else if k > 0 {
      var init := verdicts[..k - 1];
      HitsAndLeftovers(init, k - 1);
      LeftoverOfPrefix(verdicts, k - 1);
    }
  }

  lemma {:induction false} LeftoverOfPrefix(verdicts: seq<Verdict>, k: nat)
    requires k <= |verdicts|
    ensures Leftover(verdicts[..k], k) == Leftover(verdicts, k)
  {
    LeftoverAgrees(verdicts[..k], verdicts, k);
  }

  lemma {:induction false} LeftoverAgrees(a: seq<Verdict>, b: seq<Verdict>, k: nat)
    requires k <= |a| && k <= |b| && forall j :: 0 <= j < k ==> a[j] == b[j]
    ensures Leftover(a, k) == Leftover(b, k)
  {
    if k > 0 {
      LeftoverAgrees(a, b, k - 1);
    }
  }

  /** Marks every resource that has no stage yet with the timeout stage. */
  method MarkRemaining(rms: seq<Resource>, hitsSoFar: multiset<Stage>, ghost verdicts: seq<Verdict>,
                       ghost before: seq<Mark>)
    returns (stageHits: multiset<Stage>)
    requires Distinct(rms) && |verdicts| <= |rms| == |before| && hitsSoFar == StagesOf(verdicts)
    requires Marks(rms) == MarksAfter(verdicts, before)
    modifies rms
    ensures Marks(rms) == TimedOut(MarksAfter(verdicts, before))
    ensures forall s :: s != ProcessingTimeout ==> stageHits[s] == hitsSoFar[s]
    ensures (forall m :: m in before ==> m == Unmarked) ==> |stageHits| == |rms|
  {
    MarksByIndex(rms);
    stageHits := hitsSoFar;
    ghost var clean := forall m :: m in before ==> m == Unmarked;
    var k := 0;
    while k < |rms|
      invariant 0 <= k <= |rms|
      invariant forall j :: 0 <= j < |rms| ==>
        rms[j].mark == if j < k && old(rms[j].mark) == Unmarked then Marked(ProcessingTimeout) else old(rms[j].mark)
      invariant forall s :: s != ProcessingTimeout ==> stageHits[s] == hitsSoFar[s]
      invariant clean ==> |stageHits| == |hitsSoFar| + Leftover(verdicts, k)
    {
      assert before[k] in before;
      if rms[k].mark == Unmarked {
        rms[k].mark := Marked(ProcessingTimeout);
        stageHits := stageHits + multiset{ProcessingTimeout};
      }
      k := k + 1;
    }
    HitsAndLeftovers(verdicts, |rms|);
  }
}
