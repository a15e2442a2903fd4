/**
 * What a batch shows from outside: when cancellation is noticed, what the copies carry, and how often thresholds move.
 */
module AdaptiveBatches {
  import opened AdaptiveConfig
  import opened AdaptiveModel
  import opened AdaptiveProcessor
  import Dynamic = DynamicThresholds

  // -------------------------------------------------------------- cancellation

  /** A batch of at most 25 resources is never stopped. */
  lemma SmallBatchesFinish(cfg: Settings, rms: seq<Resource>, cancelled: nat -> bool, verdicts: seq<Verdict>,
                           result: BatchResult, hits: multiset<Stage>)
    requires Concluded(cfg, rms, cancelled, verdicts, result, hits) && |rms| <= 25
    ensures result.Filtered? && |verdicts| == |rms|
  {
  }

  /** A cancellation that stays is noticed after at most 25 more resources. */
  lemma CancellationIsNoticed(cfg: Settings, rms: seq<Resource>, cancelled: nat -> bool, verdicts: seq<Verdict>,
                              result: BatchResult, hits: multiset<Stage>, since: nat)
    requires Concluded(cfg, rms, cancelled, verdicts, result, hits) && forall k :: k >= since ==> cancelled(k)
    ensures |verdicts| <= since + 25
    ensures |rms| > since + 25 ==> result.Original?
  {
    var next := if since == 0 then 25 else (since + 24) / 25 * 25;
    assert since <= next <= since + 25 && next % 25 == 0;
    if next < |verdicts| {
      assert StopsAt(next, cancelled);
    }
  }

  /**
   * A batch comes back whole only because the context was found cancelled, after a positive multiple of 25 resources.
   */
  lemma StoppedForACause(cfg: Settings, rms: seq<Resource>, cancelled: nat -> bool, verdicts: seq<Verdict>,
                         result: BatchResult, hits: multiset<Stage>)
    requires Concluded(cfg, rms, cancelled, verdicts, result, hits) && result.Original?
    ensures 25 <= |verdicts| < |rms| && |verdicts| % 25 == 0 && cancelled(|verdicts|)
  {
  }

  /**
   * In a stopped batch every resource ends up with a stage: its own if it was admitted, else the timeout unless it had
   * one.
   */
  lemma StoppedBatchIsMarked(verdicts: seq<Verdict>, before: seq<Mark>, k: nat)
    requires |verdicts| <= |before| && k < |before|
    ensures var after := FinalMarks(Original, verdicts, before);
      |after| == |before| && after[k] ==
      if k < |verdicts| && verdicts[k].Included? then Marked(verdicts[k].stage)
      else if before[k] == Unmarked then Marked(ProcessingTimeout)
      else before[k]
  {
  }

  // -------------------------------------------------------------------- copies

  /**
   * The copy of resource i, admitted at that stage: flagged if it was filtered at all, the stage shown in debug mode.
   */
  predicate CopyOf(cfg: Settings, o: Output, rms: seq<Resource>, verdicts: seq<Verdict>, i: nat)
    requires |verdicts| == |rms|
  {
    && i < |rms| && verdicts[i].Included? && o.resource == rms[i]
    && (o.atpEnabled <==> verdicts[i] != Included(DefaultInclusion))
    && (o.shown != Unmarked <==> cfg.debugShowAll) && (cfg.debugShowAll ==> o.shown == Marked(verdicts[i].stage))
  }

  /** Every copy is that of some admitted resource. */
  lemma {:induction false} CopiesCarryTheirStage(cfg: Settings, rms: seq<Resource>, verdicts: seq<Verdict>, k: nat)
    returns (i: nat)
    requires |verdicts| == |rms| && k < |Outputs(cfg, rms, verdicts)|
    ensures CopyOf(cfg, Outputs(cfg, rms, verdicts)[k], rms, verdicts, i)
    decreases |rms|
  {
    var last := |rms| - 1;
    var before := Outputs(cfg, rms[..last], verdicts[..last]);
    if k < |before| {
      i := CopiesCarryTheirStage(cfg, rms[..last], verdicts[..last], k);
    } else {
      i := last;
    }
  }

  // ---------------------------------------------------------- threshold updates

  /** The times of the batches that move the thresholds, and the last such time. */
  function TunedAt(cfg: Settings, rms: seq<Resource>, dyn: Values, last: int, starts: seq<int>): seq<int>
    decreases |starts|
  {
    if starts == [] then []
    else if TuneEvents(cfg, rms, starts[0], last, dyn) != [] then
      [starts[0]] + TunedAt(cfg, rms, dyn, starts[0], starts[1..])
    else TunedAt(cfg, rms, dyn, last, starts[1..])
  }

  /** Each is a minute or more after the one before. */
  predicate MinutesApart(last: int, times: seq<int>)
    decreases |times|
  {
    times == [] || (times[0] - last >= 60 * 1_000_000_000 && MinutesApart(times[0], times[1..]))
  }

  /** However often batches come, the thresholds move at most once a minute. */
  lemma {:induction false} TunedOnceAMinute(cfg: Settings, rms: seq<Resource>, dyn: Values, last: int, starts: seq<int>)
    ensures MinutesApart(last, TunedAt(cfg, rms, dyn, last, starts))
    ensures !cfg.dynamicEnabled ==> TunedAt(cfg, rms, dyn, last, starts) == []
    decreases |starts|
  {
    if starts != [] {
      var now := if TuneEvents(cfg, rms, starts[0], last, dyn) != [] then starts[0] else last;
      TunedOnceAMinute(cfg, rms, dyn, now, starts[1..]);
      assert ([starts[0]] + TunedAt(cfg, rms, dyn, starts[0], starts[1..]))[1..] ==
        TunedAt(cfg, rms, dyn, starts[0], starts[1..]);
    }
  }

  /** A batch moves them if they are on and a minute has passed. */
  lemma DueAfterAMinute(cfg: Settings, rms: seq<Resource>, dyn: Values, last: int, start: int)
    ensures TuneEvents(cfg, rms, start, last, dyn) != [] <==> cfg.dynamicEnabled && start - last >= 60 * 1_000_000_000
  {
  }

  /** The sums of a metric's gauges, resource by resource. */
  function GaugeSumsOf(rms: seq<Resource>, name: string): seq<real> {
    if rms == [] then []
    else GaugeSumsOf(rms[..|rms| - 1], name) + Dynamic.GaugeSums(rms[|rms| - 1].metrics, name)
  }

  lemma {:induction false} GaugesOfBoth(a: seq<Dynamic.Metric>, b: seq<Dynamic.Metric>, name: string)
    ensures Dynamic.GaugeSums(a + b, name) == Dynamic.GaugeSums(a, name) + Dynamic.GaugeSums(b, name)
    decreases |b|
  {
    if b == [] {
      assert a + b == a;
    } else {
      var init := b[..|b| - 1];
      assert (a + b)[..|a + b| - 1] == a + init && (a + b)[|a + b| - 1] == b[|b| - 1];
      GaugesOfBoth(a, init, name);
    }
  }

  /** The average that moves a threshold is taken over the gauges of all resources of the batch. */
  lemma {:induction false} EveryResourceCounts(rms: seq<Resource>, name: string)
    ensures Dynamic.GaugeSums(AllMetrics(rms), name) == GaugeSumsOf(rms, name)
    decreases |rms|
  {
    if rms != [] {
      EveryResourceCounts(rms[..|rms| - 1], name);
      GaugesOfBoth(AllMetrics(rms[..|rms| - 1]), rms[|rms| - 1].metrics, name);
    }
  }

  // -------------------------------------------------------------------- sweeps

  predicate Retained(cfg: Settings, e: Entity, now: int) {
    cfg.retentionMinutes <= 0 || now - e.lastExceeded <= cfg.retentionMinutes * 60 * 1_000_000_000
  }

  /** After a batch that sweeps, exactly the entities exceeded within the retention are left; otherwise all stay. */
  lemma SweepLeavesTheRetained(cfg: Settings, s: State, sweep: bool, now: int, id: string)
    ensures AllWellFormed(SweepEvents(cfg, sweep, now))
    ensures var after := Run(cfg, s, SweepEvents(cfg, sweep, now));
      && after.dyn == s.dyn
      && (id in after.tracked <==> id in s.tracked && (sweep ==> Retained(cfg, s.tracked[id], now)))
      && (id in after.tracked ==> after.tracked[id] == s.tracked[id])
  {
  }
}
