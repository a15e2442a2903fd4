/** What one batch sends downstream (processor/adaptivetelemetryprocessor/consume_metrics.go). */
module AdaptiveDelivery {
  import opened AdaptiveConfig
  import opened AdaptiveModel
  import opened AdaptiveProcessor

  /** The next consumer: it remembers what it was handed; whether the n-th call succeeds is up to it. */
  class NextConsumer {
    const answers: nat -> bool
    var calls: seq<BatchResult>

    constructor (answers: nat -> bool)
      ensures this.answers == answers && calls == []
    {
      this.answers, calls := answers, [];
    }

    method ConsumeMetrics(b: BatchResult) returns (ok: bool)
      modifies this
      ensures calls == old(calls) + [b] && ok == answers(|old(calls)|)
    {
      ok := answers(|calls|);
      calls := calls + [b];
    }
  }

  /**
   * One call of the processor: an error falls back to the batch itself; an empty result does too, and if that
   * succeeds the empty result is still forwarded.
   */
  method ConsumeMetrics(p: Processor, next: NextConsumer, rms: seq<Resource>, start: int, clock: seq<int>, end: int,
                        cancelledEarly: bool, cancelled: nat -> bool, sweep: bool)
    returns (ok: bool, ghost result: BatchResult, ghost events: seq<Event>, ghost verdicts: seq<Verdict>)
    requires p.Valid() && |clock| == |rms| && Distinct(rms) && (forall r :: r in rms ==> r !in p.owned) &&
      next !in p.owned
    modifies p, p.owned, rms, next
    ensures p.Valid()
    ensures var err := rms != [] && cancelledEarly;
      && (err || rms == [] ==> result == Original)
      && next.calls == old(next.calls) + SentFor(rms, result, err, next.answers(|old(next.calls)|))
    ensures result.Filtered? ==> |verdicts| == |rms| && result.out == Outputs(p.cfg, rms, verdicts)
    ensures result.Original? && rms != [] ==> cancelledEarly || StopsAt(|verdicts|, cancelled)
    ensures ok <==> AllSucceed(next.answers, |old(next.calls)|, |next.calls|)
    ensures rms != [] ==>
      HandedOver(rms, verdicts, result, rms != [] && cancelledEarly, ok,
                 next.calls[|old(next.calls)|..], next.answers, |old(next.calls)|)
    ensures AllWellFormed(events) && p.View() == Run(p.cfg, old(p.View()), events)
    ensures verdicts == Verdicts(p.cfg, old(p.View()), events)
  {
    var batch, err, stageHits;
    batch, err, stageHits, events, verdicts :=
      p.ProcessMetrics(rms, start, clock, end, cancelledEarly, cancelled, sweep);
    result := batch;
    ghost var s1 := p.View();
    ghost var before := next.calls;
    ok := Forward(next, rms, batch, err);
    assert p.View() == s1;
    if rms != [] {
      HandedOverByForward(p.cfg, rms, verdicts, result, err, ok, next.answers, |before|);
      assert next.calls[|before|..] == SentFor(rms, result, err, next.answers(|before|));
    }
  }

  /** The calls from number n up to number m all succeed. */
  ghost predicate AllSucceed(answers: nat -> bool, n: nat, m: nat) {
    forall k: nat :: n <= k < m ==> answers(k)
  }

  /**
   * What the calls of a batch with resources have brought about: on success all that was due, which is something, was
   * delivered, nothing twice; on failure all that was due was taken only where forwarding an empty result failed.
   */
  ghost predicate HandedOver(rms: seq<Resource>, verdicts: seq<Verdict>, result: BatchResult, err: bool, ok: bool,
                             sent: seq<BatchResult>, answers: nat -> bool, n: nat)
    requires result.Filtered? ==> |verdicts| == |rms|
  {
    && (ok ==> Delivered(rms, sent) == Due(rms, verdicts, result) != [] && Distinct(Delivered(rms, sent)))
    && (!ok ==>
      (Taken(rms, sent, answers, n) == Due(rms, verdicts, result) <==> EmptyForwardFails(rms, result, err, answers, n)))
  }

  lemma {:induction false} HandedOverByForward(cfg: Settings, rms: seq<Resource>, verdicts: seq<Verdict>,
                                               result: BatchResult, err: bool,
                            ok: bool, answers: nat -> bool, n: nat)
    requires rms != [] && Distinct(rms) && (err ==> result == Original)
    requires result.Filtered? ==> |verdicts| == |rms| && result.out == Outputs(cfg, rms, verdicts)
    requires ok <==> AllSucceed(answers, n, n + |SentFor(rms, result, err, answers(n))|)
    ensures HandedOver(rms, verdicts, result, err, ok, SentFor(rms, result, err, answers(n)), answers, n)
  {
    if ok {
      assert answers(n);
      SomethingIsDeliveredOnce(cfg, rms, verdicts, result, err);
    } else {
      FailureAfterFullDelivery(cfg, rms, verdicts, result, err, answers, n);
    }
  }

  /** The calls made once the batch has been processed. */
  method Forward(next: NextConsumer, rms: seq<Resource>, result: BatchResult, err: bool) returns (ok: bool)
    modifies next
    ensures next.calls == old(next.calls) + SentFor(rms, result, err, next.answers(|old(next.calls)|))
    ensures ok <==> AllSucceed(next.answers, |old(next.calls)|, |next.calls|)
  {
    if err {
      ok := next.ConsumeMetrics(Original);
      return;
    }
    if |ResourcesOf(rms, result)| == 0 && |rms| > 0 {
      ok := next.ConsumeMetrics(Original);
      if !ok {
        return;
      }
    }
    var fine := next.ConsumeMetrics(result);
    ok := fine;
  }

  /** The resources a payload carries. */
  function ResourcesOf(rms: seq<Resource>, b: BatchResult): seq<Resource> {
    match b
    case Original => rms
    case Filtered(out) => seq(|out|, k requires 0 <= k < |out| => out[k].resource)
  }

  /** What is handed downstream, given whether the first call succeeds. */
  function SentFor(rms: seq<Resource>, result: BatchResult, err: bool, firstSucceeds: bool): seq<BatchResult> {
    if err then [Original]
    else if ResourcesOf(rms, result) == [] && rms != [] then
      if firstSucceeds then [Original, result] else [Original]
    else [result]
  }

  /** Every resource handed downstream, call after call. */
  function Delivered(rms: seq<Resource>, sent: seq<BatchResult>): seq<Resource> {
    if sent == [] then [] else Delivered(rms, sent[..|sent| - 1]) + ResourcesOf(rms, sent[|sent| - 1])
  }

  /** The included resources of a batch, in order. */
  function IncludedOf(rms: seq<Resource>, verdicts: seq<Verdict>): seq<Resource>
    requires |verdicts| == |rms|
  {
    if rms == [] then []
    else
      var last := |rms| - 1;
      IncludedOf(rms[..last], verdicts[..last]) + if verdicts[last].Included? then [rms[last]] else []
  }

  lemma {:induction false} OutputsCarryTheIncluded(cfg: Settings, rms: seq<Resource>, verdicts: seq<Verdict>)
    requires |verdicts| == |rms|
    ensures ResourcesOf(rms, Filtered(Outputs(cfg, rms, verdicts))) == IncludedOf(rms, verdicts)
  {
    if rms != [] {
      var last := |rms| - 1;
      OutputsCarryTheIncluded(cfg, rms[..last], verdicts[..last]);
      var head := Outputs(cfg, rms[..last], verdicts[..last]);
      var tail := if verdicts[last].Included? then [OutputOf(cfg, rms[last], verdicts[last].stage)] else [];
      assert Outputs(cfg, rms, verdicts) == head + tail;
      assert ResourcesOf(rms, Filtered(head + tail)) ==
        ResourcesOf(rms[..last], Filtered(head)) + if verdicts[last].Included? then [rms[last]] else [];
    }
  }

  /** The positions of the including verdicts. */
  function IncludedAt(verdicts: seq<Verdict>): seq<nat> {
    if verdicts == [] then []
    else
      var last := |verdicts| - 1;
      IncludedAt(verdicts[..last]) + if verdicts[last].Included? then [last] else []
  }

  lemma {:induction false} PositionsInOrder(verdicts: seq<Verdict>)
    ensures var at := IncludedAt(verdicts);
      && |at| == |StagesOf(verdicts)|
      && (forall j :: 0 <= j < |at| ==> at[j] < |verdicts| && verdicts[at[j]].Included?)
      && (forall i, j :: 0 <= i < j < |at| ==> at[i] < at[j])
  {
    if verdicts != [] {
      PositionsInOrder(verdicts[..|verdicts| - 1]);
    }
  }

  lemma {:induction false} PositionsCover(verdicts: seq<Verdict>, k: nat)
    requires k < |verdicts| && verdicts[k].Included?
    ensures k in IncludedAt(verdicts)
    decreases |verdicts|
  {
    var last := |verdicts| - 1;
    if k == last {
      assert IncludedAt(verdicts)[|IncludedAt(verdicts[..last])|] == last;
    } else {
      PositionsCover(verdicts[..last], k);
    }
  }

  lemma {:induction false} IncludedByPosition(rms: seq<Resource>, verdicts: seq<Verdict>)
    requires |verdicts| == |rms|
    ensures var at := IncludedAt(verdicts);
      |IncludedOf(rms, verdicts)| == |at| &&
      forall j :: 0 <= j < |at| ==> at[j] < |rms| && IncludedOf(rms, verdicts)[j] == rms[at[j]]
  {
    if rms != [] {
      IncludedByPosition(rms[..|rms| - 1], verdicts[..|rms| - 1]);
    }
  }

  /** The included resources are exactly the batch's resources with an including verdict, each once, in batch order. */
  lemma {:induction false} IncludedInOrder(rms: seq<Resource>, verdicts: seq<Verdict>) returns (at: seq<nat>)
    requires |verdicts| == |rms|
    ensures |at| == |IncludedOf(rms, verdicts)| == |StagesOf(verdicts)|
    ensures forall j :: 0 <= j < |at| ==>
      at[j] < |rms| && verdicts[at[j]].Included? && IncludedOf(rms, verdicts)[j] == rms[at[j]]
    ensures forall i, j :: 0 <= i < j < |at| ==> at[i] < at[j]
    ensures forall k :: 0 <= k < |rms| && verdicts[k].Included? ==> k in at
  {
    at := IncludedAt(verdicts);
    PositionsInOrder(verdicts);
    IncludedByPosition(rms, verdicts);
    forall k | 0 <= k < |rms| && verdicts[k].Included? ensures k in at {
      PositionsCover(verdicts, k);
    }
  }

  /**
   * Data keeps flowing: when the consumer succeeds, a batch with resources is delivered either whole or as its
   * included resources, of which there is then at least one; nothing is delivered twice.
   */
  lemma {:induction false} SomethingIsDeliveredOnce(cfg: Settings, rms: seq<Resource>, verdicts: seq<Verdict>,
                                                    result: BatchResult,
                                 err: bool)
    requires rms != [] && Distinct(rms) && (err ==> result == Original)
    requires result.Filtered? ==> |verdicts| == |rms| && result.out == Outputs(cfg, rms, verdicts)
    ensures var d := Delivered(rms, SentFor(rms, result, err, true));
      && d != [] && Distinct(d)
      && d == Due(rms, verdicts, result)
  {
    if result.Filtered? {
      OutputsCarryTheIncluded(cfg, rms, verdicts);
      var at := IncludedInOrder(rms, verdicts);
      var sent := SentFor(rms, result, err, true);
      assert [Original, result][..1] == [Original] && [Original][..0] == [] && [result][..0] == [];
      DeliveredOne(rms, Original);
      DeliveredOne(rms, result);
      if IncludedOf(rms, verdicts) == [] {
        assert Delivered(rms, sent) == Delivered(rms, [Original]) + ResourcesOf(rms, result);
      }
    } else {
      DeliveredOne(rms, Original);
    }
  }

  lemma {:induction false} DeliveredOne(rms: seq<Resource>, b: BatchResult)
    ensures Delivered(rms, [b]) == ResourcesOf(rms, b)
  {
    assert [b][..0] == [];
  }

  /** The resources of the calls that succeeded; call j of the batch is call n + j of the consumer. */
  function Taken(rms: seq<Resource>, sent: seq<BatchResult>, answers: nat -> bool, n: nat): seq<Resource> {
    if sent == [] then []
    else
      var last := |sent| - 1;
      Taken(rms, sent[..last], answers, n) + if answers(n + last) then ResourcesOf(rms, sent[last]) else []
  }

  /** What a batch should deliver. */
  function Due(rms: seq<Resource>, verdicts: seq<Verdict>, result: BatchResult): seq<Resource>
    requires result.Filtered? ==> |verdicts| == |rms|
  {
    if result.Filtered? && IncludedOf(rms, verdicts) != [] then IncludedOf(rms, verdicts) else rms
  }

  lemma {:induction false} TakenOfOne(rms: seq<Resource>, b: BatchResult, answers: nat -> bool, n: nat)
    ensures Taken(rms, [b], answers, n) == if answers(n) then ResourcesOf(rms, b) else []
  {
    assert [b][..0] == [];
  }

  lemma {:induction false} TakenOfTwo(rms: seq<Resource>, a: BatchResult, b: BatchResult, answers: nat -> bool, n: nat)
    ensures Taken(rms, [a, b], answers, n) ==
      (if answers(n) then ResourcesOf(rms, a) else []) + if answers(n + 1) then ResourcesOf(rms, b) else []
  {
    assert [a, b][..1] == [a];
    TakenOfOne(rms, a, answers, n);
  }

  /** The calls are for an empty result whose fallback succeeds and whose own forwarding fails. */
  predicate EmptyForwardFails(rms: seq<Resource>, result: BatchResult, err: bool, answers: nat -> bool, n: nat) {
    !err && ResourcesOf(rms, result) == [] && answers(n) && !answers(n + 1)
  }

  /**
   * The price of the fallback: a batch is reported as failed although all that was due has been taken exactly when
   * everything was excluded, the fallback succeeded and the empty result, forwarded after it, failed.
   */
  lemma {:induction false} FailureAfterFullDelivery(cfg: Settings, rms: seq<Resource>, verdicts: seq<Verdict>,
                                                    result: BatchResult,
                                 err: bool, answers: nat -> bool, n: nat)
    requires rms != [] && (err ==> result == Original)
    requires result.Filtered? ==> |verdicts| == |rms| && result.out == Outputs(cfg, rms, verdicts)
    ensures var sent := SentFor(rms, result, err, answers(n));
      !AllSucceed(answers, n, n + |sent|) && Taken(rms, sent, answers, n) == Due(rms, verdicts, result) <==>
      EmptyForwardFails(rms, result, err, answers, n)
  {
    if result.Filtered? {
      OutputsCarryTheIncluded(cfg, rms, verdicts);
    }
    var sent := SentFor(rms, result, err, answers(n));
    if |sent| == 1 {
      TakenOfOne(rms, sent[0], answers, n);
      assert AllSucceed(answers, n, n + 1) <==> answers(n);
      assert !answers(n) ==> Taken(rms, sent, answers, n) == [];
    } else {
      TakenOfTwo(rms, Original, result, answers, n);
      assert AllSucceed(answers, n, n + 2) <==> answers(n) && answers(n + 1);
    }
  }
}
