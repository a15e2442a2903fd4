/** The running maximum of tracked entities over whole runs. */
module AdaptiveMaxima {
  import opened AdaptiveConfig
  import opened AdaptiveModel
  import opened AdaptiveCleanup
  import opened Grouping

  function Greater(a: real, b: real): real {
    if a < b then b else a
  }

  /** The stored maximum after one update, for a metric that is absent counting as zero. */
  lemma {:induction false} RaisedIsGreater(max: Values, values: Values, m: string)
    ensures Lookup(Raised(max, values), m) == if m in values then Greater(Lookup(max, m), values[m]) else Lookup(max, m)
  {
  }

  // ------------------------------------------------ entities that share one map

  /** A shared map is its own maximum. */
  ghost predicate SharedAgree(tracked: map<string, Entity>) {
    forall id :: id in tracked && tracked[id].shared ==> tracked[id].current == tracked[id].max
  }

  lemma {:induction false} CheckKeepsMaps(cfg: Settings, dyn: Values, e: Entity, o: Observation, now: int)
    requires Enumerates(o.order, o.values.Keys)
    ensures var r := CheckNew(cfg, dyn, e, o, now).e; r.current == e.current && r.max == e.max && r.shared == e.shared
  {
    if cfg.anomalyEnabled {
      DetectKeepsExceeded(cfg, e, o.values, o.order, now);
      ThresholdsKeepMaps(cfg, dyn, Detect(cfg, e, o.values, o.order, now).e, o.values, now);
    } else {
      ThresholdsKeepMaps(cfg, dyn, e, o.values, now);
    }
  }

  lemma {:induction false} ThresholdsKeepMaps(cfg: Settings, dyn: Values, e: Entity, values: Values, now: int)
    ensures var r := CheckThresholds(cfg, dyn, e, values, now).e;
      r.current == e.current && r.max == e.max && r.shared == e.shared
  {
  }

  lemma {:induction false} ExistingUpdatesMaps(cfg: Settings, dyn: Values, e: Entity, o: Observation, now: int)
    requires Enumerates(o.order, o.values.Keys)
    ensures var r, u := EvaluateExisting(cfg, dyn, e, o, now).e, UpdateValues(e, o.values);
      r.current == u.current && r.max == u.max && r.shared == u.shared
  {
    CheckKeepsMaps(cfg, dyn, UpdateValues(e, o.values), o, now);
  }

  lemma {:induction false} EvaluateKeepsSharedAgree(cfg: Settings, dyn: Values, tracked: map<string, Entity>,
                                                    o: Observation, now: int)
    requires Enumerates(o.order, o.values.Keys) && SharedAgree(tracked)
    ensures SharedAgree(Evaluate(cfg, dyn, tracked, o, now).tracked)
  {
    EvaluatedEntity(cfg, dyn, tracked, o, now);
    assert SharedAgree(Upsert(tracked, o.id, o.values, now));
    if o.id in tracked {
      ExistingUpdatesMaps(cfg, dyn, tracked[o.id], o, now);
      assert SharedAgree(tracked[o.id := EvaluateExisting(cfg, dyn, tracked[o.id], o, now).e]);
    } else {
      CheckKeepsMaps(cfg, dyn, NewEntity(cfg, o.values), o, now);
      assert SharedAgree(tracked[o.id := CheckNew(cfg, dyn, NewEntity(cfg, o.values), o, now).e]);
    }
  }

  /** For entities created in this process the recorded maxima are just the current values, through every run. */
  lemma {:induction false} SharedMapsStayEqual(cfg: Settings, s: State, events: seq<Event>)
    requires AllWellFormed(events) && SharedAgree(s.tracked)
    ensures SharedAgree(Run(cfg, s, events).tracked)
    decreases |events|
  {
    if events != [] {
      var e := events[0];
      assert e in events;
      if e.Observe? {
        EvaluateKeepsSharedAgree(cfg, s.dyn, s.tracked, e.o, e.now);
      }
      SharedMapsStayEqual(cfg, Apply(cfg, s, e), events[1..]);
    }
  }

  // --------------------------------------------- entities with two distinct maps

  /** The values of metric m that reach the entity's maps during a run, in order. */
  ghost function ValuesSeen(cfg: Settings, s: State, events: seq<Event>, id: string, m: string): seq<real>
    requires AllWellFormed(events)
    decreases |events|
  {
    if events == [] then []
    else
      var e := events[0];
      assert e in events;
      (if e.Observe? && e.o.id == id && Targeted(cfg, s.dyn, e.o.values) && m in e.o.values then [e.o.values[m]]
       else []) +
      ValuesSeen(cfg, Apply(cfg, s, e), events[1..], id, m)
  }

  function GreatestOf(start: real, values: seq<real>): real
    decreases |values|
  {
    if values == [] then start else GreatestOf(Greater(start, values[0]), values[1..])
  }

  lemma {:induction false} GreatestOfIsGreatest(start: real, values: seq<real>)
    ensures start <= GreatestOf(start, values) && forall i :: 0 <= i < |values| ==>
      values[i] <= GreatestOf(start, values)
    ensures GreatestOf(start, values) == start || GreatestOf(start, values) in values
    decreases |values|
  {
    if values != [] {
      GreatestOfIsGreatest(Greater(start, values[0]), values[1..]);
      assert values == [values[0]] + values[1..];
    }
  }

  /** The entity is tracked with two distinct maps, as after loading it from storage. */
  ghost predicate TrackedApart(s: State, id: string) {
    id in s.tracked && !s.tracked[id].shared
  }

  lemma {:induction false} ObserveRaises(cfg: Settings, s: State, o: Observation, now: int, id: string, m: string)
    requires Enumerates(o.order, o.values.Keys) && TrackedApart(s, id)
    ensures var after := Apply(cfg, s, Observe(o, now));
      TrackedApart(after, id) &&
      Lookup(after.tracked[id].max, m) ==
      if o.id == id && Targeted(cfg, s.dyn, o.values) && m in o.values
      then Greater(Lookup(s.tracked[id].max, m), o.values[m]) else Lookup(s.tracked[id].max, m)
  {
    EvaluateIsLocal(cfg, s.dyn, s.tracked, o, now);
    if o.id == id {
      ExistingUpdatesMaps(cfg, s.dyn, s.tracked[id], o, now);
      RaisedIsGreater(s.tracked[id].max, o.values, m);
    }
  }

  /** No step of the run drops the identity. */
  ghost predicate StaysTracked(cfg: Settings, s: State, events: seq<Event>, id: string)
    requires AllWellFormed(events)
    decreases |events|
  {
    id in s.tracked &&
      (events == [] || (assert events[0] in events; StaysTracked(cfg, Apply(cfg, s, events[0]), events[1..], id)))
  }

  /** While it stays tracked, each recorded maximum is the greatest of its start value and all values seen since. */
  lemma {:induction false} MaximumIsRunning(cfg: Settings, s: State, events: seq<Event>, id: string, m: string)
    requires AllWellFormed(events) && StaysTracked(cfg, s, events, id) && TrackedApart(s, id)
    ensures TrackedApart(Run(cfg, s, events), id)
    ensures Lookup(Run(cfg, s, events).tracked[id].max, m) ==
            GreatestOf(Lookup(s.tracked[id].max, m), ValuesSeen(cfg, s, events, id, m))
    decreases |events|
  {
    if events != [] {
      var e := events[0];
      assert e in events;
      var after := Apply(cfg, s, e);
      var later := ValuesSeen(cfg, after, events[1..], id, m);
      if e.Observe? {
        ObserveRaises(cfg, s, e.o, e.now, id, m);
      }
      MaximumIsRunning(cfg, after, events[1..], id, m);
      if e.Observe? && e.o.id == id && Targeted(cfg, s.dyn, e.o.values) && m in e.o.values {
        assert ValuesSeen(cfg, s, events, id, m) == [e.o.values[m]] + later;
      } else {
        assert ValuesSeen(cfg, s, events, id, m) == later;
      }
    }
  }
}
