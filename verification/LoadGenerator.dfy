/**
 * The load generator (testbed/testbed/load_generator.go, data_providers.go): concurrent workers that number items with
 * a shared counter, send them in batches and count what becomes of them.
 */
module LoadGenerator {
  /** A worker between ticks, filling the batch of one trace item by item, sending it, or gone. */
  datatype Worker = Idle | Building(trace: nat, batch: seq<nat>) | Sending(trace: nat, batch: seq<nat>) | Exited

  /**
   * traces is the trace sequence; sent, permanentErrors and nonPermanentErrors are the generator's counters. The rest
   * is bookkeeping: the numbers handed out, in order, with their traces, where they ended up, and how often a test
   * raised the counter on its own.
   */
  datatype State = State(
    workers: seq<Worker>, stopping: bool, traces: nat, sent: nat, permanentErrors: nat, nonPermanentErrors: nat,
    issued: seq<nat>, labels: seq<nat>, delivered: seq<nat>, refused: seq<nat>, abandoned: seq<nat>, bypassed: nat)

  /** What can happen next. Between two actions of one worker any others may happen. */
  datatype Action =
    | Tick(w: nat) | NextItem(w: nat) | Filled(w: nat)
    | Accept(w: nat) | Refuse(w: nat) | Retry(w: nat) | TimeOut(w: nat)
    | Exit(w: nat) | Stop | Bypass

  function Start(n: nat): State {
    State(seq(n, _ => Idle), false, 0, 0, 0, 0, [], [], [], [], [], 0)
  }

  /** A worker whose ticker and stop signal are both ready may still choose the tick. */
  predicate Enabled(size: nat, s: State, a: Action) {
    if a.Stop? || a.Bypass? then true
    else
      a.w < |s.workers| &&
      match a
      case Tick(w) => s.workers[w].Idle?
      case NextItem(w) => s.workers[w].Building? && |s.workers[w].batch| < size
      case Filled(w) => s.workers[w].Building? && |s.workers[w].batch| == size
      case Exit(w) => s.workers[w].Idle? && s.stopping
      case _ => s.workers[a.w].Sending?
  }

  function At(s: State, w: nat, worker: Worker): State
    requires w < |s.workers|
  {
    s.(workers := s.workers[w := worker])
  }

  function After(size: nat, s: State, a: Action): State
    requires Enabled(size, s, a)
  {
    match a
    case Tick(w) => At(s, w, Building(s.traces + 1, [])).(traces := s.traces + 1)
    case NextItem(w) =>
      var id, trace := s.sent + 1, s.workers[w].trace;
      At(s, w, Building(trace, s.workers[w].batch + [id])).(
        sent := id, issued := s.issued + [id], labels := s.labels + [trace])
    case Filled(w) => At(s, w, Sending(s.workers[w].trace, s.workers[w].batch))
    case Accept(w) => At(s, w, Idle).(delivered := s.delivered + s.workers[w].batch)
    case Refuse(w) =>
      At(s, w, Idle).(refused := s.refused + s.workers[w].batch,
        permanentErrors := s.permanentErrors + |s.workers[w].batch|)
    case Retry(w) => s.(nonPermanentErrors := s.nonPermanentErrors + |s.workers[w].batch|)
    case TimeOut(w) =>
      At(s, w, Idle).(abandoned := s.abandoned + s.workers[w].batch,
        nonPermanentErrors := s.nonPermanentErrors + |s.workers[w].batch|)
    case Exit(w) => At(s, w, Exited)
    case Stop => s.(stopping := true)
    case Bypass => s.(sent := s.sent + 1, bypassed := s.bypassed + 1)
  }

  /** The actions can happen one after the other. */
  predicate Possible(size: nat, s: State, actions: seq<Action>)
    decreases |actions|
  {
    actions == [] || (Enabled(size, s, actions[0]) && Possible(size, After(size, s, actions[0]), actions[1..]))
  }

  function Run(size: nat, s: State, actions: seq<Action>): State
    requires Possible(size, s, actions)
    decreases |actions|
  {
    if actions == [] then s else Run(size, After(size, s, actions[0]), actions[1..])
  }

  // ---------------------------------------------------------------- accounting

  function Held(w: Worker): seq<nat> {
    if w.Building? || w.Sending? then w.batch else []
  }

  function Total(workers: seq<Worker>, f: Worker -> nat): nat {
    if workers == [] then 0 else Total(workers[..|workers| - 1], f) + f(workers[|workers| - 1])
  }

  lemma {:induction false} TotalUpdate(workers: seq<Worker>, w: nat, worker: Worker, f: Worker -> nat)
    requires w < |workers|
    ensures Total(workers[w := worker], f) + f(workers[w]) == Total(workers, f) + f(worker)
    decreases |workers|
  {
    var last := |workers| - 1;
    if w < last {
      assert workers[w := worker][..last] == workers[..last][w := worker];
      TotalUpdate(workers[..last], w, worker, f);
    } else {
      assert workers[w := worker][..last] == workers[..last];
    }
  }

  lemma {:induction false} TotalOfNone(workers: seq<Worker>, f: Worker -> nat)
    requires forall w :: w in workers ==> f(w) == 0
    ensures Total(workers, f) == 0
    decreases |workers|
  {
    if workers != [] {
      TotalOfNone(workers[..|workers| - 1], f);
    }
  }

  /** How often an item occurs in a list. */
  function Times(ids: seq<nat>, id: nat): nat {
    if ids == [] then 0 else Times(ids[..|ids| - 1], id) + if ids[|ids| - 1] == id then 1 else 0
  }

  function HeldSize(): Worker -> nat {
    w => |Held(w)|
  }

  function HeldTimes(id: nat): Worker -> nat {
    w => Times(Held(w), id)
  }

  /** How many items are on their way: in a batch that is being filled or sent. */
  function InFlight(s: State): nat {
    Total(s.workers, HeldSize())
  }

  /** How many of the places an item can be in hold it. */
  function Places(s: State, id: nat): nat {
    Times(s.delivered, id) + Times(s.refused, id) + Times(s.abandoned, id) + Total(s.workers, HeldTimes(id))
  }

  /** Every item handed out is in exactly one place. */
  ghost predicate Conserved(s: State) {
    && |s.issued| == |s.delivered| + |s.refused| + |s.abandoned| + InFlight(s)
    && forall id :: Times(s.issued, id) == Places(s, id)
  }

  /** The counter counts the items handed out and the bypasses; no number is handed out twice. */
  ghost predicate Numbered(s: State) {
    && s.sent == |s.issued| + s.bypassed && s.permanentErrors == |s.refused| && s.nonPermanentErrors >= |s.abandoned|
    && (forall i :: 0 <= i < |s.issued| ==> 0 < s.issued[i] <= s.sent)
    && forall i, j :: 0 <= i < j < |s.issued| ==> s.issued[i] < s.issued[j]
  }

  lemma {:induction false} TimesInBoth(a: seq<nat>, b: seq<nat>, id: nat)
    ensures Times(a + b, id) == Times(a, id) + Times(b, id)
    decreases |b|
  {
    if b == [] {
      assert a + b == a;
    } else {
      assert (a + b)[..|a + b| - 1] == a + b[..|b| - 1];
      TimesInBoth(a, b[..|b| - 1], id);
    }
  }

  lemma {:induction false} AbsentIsZeroTimes(ids: seq<nat>, id: nat)
    requires id !in ids
    ensures Times(ids, id) == 0
    decreases |ids|
  {
    if ids != [] {
      AbsentIsZeroTimes(ids[..|ids| - 1], id);
    }
  }

  lemma {:induction false} EndingMovesItem(size: nat, s: State, a: Action, id: nat)
    requires Enabled(size, s, a) && (a.Accept? || a.Refuse? || a.TimeOut?)
    ensures Places(After(size, s, a), id) == Places(s, id)
  {
    var batch := s.workers[a.w].batch;
    TotalUpdate(s.workers, a.w, Idle, HeldTimes(id));
    TimesInBoth(if a.Accept? then s.delivered else if a.Refuse? then s.refused else s.abandoned, batch, id);
  }

  lemma {:induction false} NextMovesItem(size: nat, s: State, w: nat, id: nat)
    requires Enabled(size, s, NextItem(w))
    ensures var t := After(size, s, NextItem(w));
      Times(t.issued, id) - Times(s.issued, id) == Places(t, id) - Places(s, id)
  {
    var batch, next := s.workers[w].batch, [s.sent + 1];
    var t := After(size, s, NextItem(w));
    OneMoreHeld(s.workers, w, next, id);
    assert Total(t.workers, HeldTimes(id)) == Total(s.workers, HeldTimes(id)) + Times(next, id);
    TimesInBoth(s.issued, next, id);
    assert Times(t.issued, id) == Times(s.issued, id) + Times(next, id);
  }

  lemma OneMoreHeld(workers: seq<Worker>, w: nat, next: seq<nat>, id: nat)
    requires w < |workers| && workers[w].Building?
    ensures Total(workers[w := Building(workers[w].trace, workers[w].batch + next)], HeldTimes(id)) ==
      Total(workers, HeldTimes(id)) + Times(next, id)
  {
    TotalUpdate(workers, w, Building(workers[w].trace, workers[w].batch + next), HeldTimes(id));
    TimesInBoth(workers[w].batch, next, id);
  }

  lemma {:induction false} SameHeld(workers: seq<Worker>, w: nat, worker: Worker, id: nat)
    requires w < |workers| && Held(workers[w]) == Held(worker)
    ensures Total(workers[w := worker], HeldTimes(id)) == Total(workers, HeldTimes(id))
  {
    TotalUpdate(workers, w, worker, HeldTimes(id));
  }

  lemma {:induction false} StepMovesItem(size: nat, s: State, a: Action, id: nat)
    requires Enabled(size, s, a)
    ensures Times(After(size, s, a).issued, id) - Times(s.issued, id) == Places(After(size, s, a), id) - Places(s, id)
  {
    match a
    case NextItem(w) => NextMovesItem(size, s, w, id);
    case Accept(_) => EndingMovesItem(size, s, a, id);
    case Refuse(_) => EndingMovesItem(size, s, a, id);
    case TimeOut(_) => EndingMovesItem(size, s, a, id);
    case Tick(w) => SameHeld(s.workers, w, Building(s.traces + 1, []), id);
    case Filled(w) => SameHeld(s.workers, w, Sending(s.workers[w].trace, s.workers[w].batch), id);
    case Exit(w) => SameHeld(s.workers, w, Exited, id);
    case _ =>
  }

  lemma {:induction false} StepConserves(size: nat, s: State, a: Action)
    requires Enabled(size, s, a) && Conserved(s)
    ensures Conserved(After(size, s, a))
  {
    if !a.Stop? && !a.Bypass? && !a.Retry? {
      TotalUpdate(s.workers, a.w, After(size, s, a).workers[a.w], HeldSize());
    }
    forall id ensures Times(After(size, s, a).issued, id) == Places(After(size, s, a), id) {
      StepMovesItem(size, s, a, id);
    }
  }

  lemma StepNumbers(size: nat, s: State, a: Action)
    requires Enabled(size, s, a) && Numbered(s)
    ensures Numbered(After(size, s, a))
  {
  }

  lemma {:induction false} RunKeeps(size: nat, s: State, actions: seq<Action>)
    requires Possible(size, s, actions) && Conserved(s) && Numbered(s)
    ensures Conserved(Run(size, s, actions)) && Numbered(Run(size, s, actions))
    decreases |actions|
  {
    if actions != [] {
      StepConserves(size, s, actions[0]);
      StepNumbers(size, s, actions[0]);
      RunKeeps(size, After(size, s, actions[0]), actions[1..]);
    }
  }

  lemma StartIsSound(n: nat)
    ensures Conserved(Start(n)) && Numbered(Start(n))
  {
    TotalOfNone(Start(n).workers, HeldSize());
    forall id ensures Times(Start(n).issued, id) == Places(Start(n), id) {
      TotalOfNone(Start(n).workers, HeldTimes(id));
    }
  }

  /** The balance of the counters in every interleaving; once the workers have joined, nothing is in flight. */
  lemma CountersBalance(n: nat, size: nat, actions: seq<Action>)
    requires Possible(size, Start(n), actions)
    ensures var s := Run(size, Start(n), actions);
      && s.sent == |s.delivered| + s.permanentErrors + |s.abandoned| + InFlight(s) + s.bypassed
      && ((forall w :: w in s.workers ==> w.Exited?) ==> InFlight(s) == 0)
  {
    var s := Run(size, Start(n), actions);
    StartIsSound(n);
    RunKeeps(size, Start(n), actions);
    if forall w :: w in s.workers ==> w.Exited? {
      TotalOfNone(s.workers, HeldSize());
    }
  }

  lemma {:induction false} IncreasingWithinBound(ids: seq<nat>, bound: nat)
    requires forall i :: 0 <= i < |ids| ==> 0 < ids[i] <= bound
    requires forall i, j :: 0 <= i < j < |ids| ==> ids[i] < ids[j]
    ensures |ids| <= bound
    ensures |ids| == bound ==> forall i :: 0 <= i < |ids| ==> ids[i] == i + 1
    decreases |ids|
  {
    if ids != [] {
      var last := |ids| - 1;
      IncreasingWithinBound(ids[..last], ids[last] - 1);
    }
  }

  /** Without bypasses the numbers handed out are 1, 2, ..., sent: none is skipped and none is used twice. */
  lemma ItemsAreNumberedInOrder(n: nat, size: nat, actions: seq<Action>)
    requires Possible(size, Start(n), actions)
    ensures var s := Run(size, Start(n), actions);
      (forall i :: 0 <= i < |s.issued| ==> s.issued[i] == i + 1) && |s.issued| == s.sent <==> s.bypassed == 0
  {
    var s := Run(size, Start(n), actions);
    StartIsSound(n);
    RunKeeps(size, Start(n), actions);
    IncreasingWithinBound(s.issued, s.sent);
  }

  /** No item is delivered twice, or both delivered and given up. */
  lemma NothingTwice(n: nat, size: nat, actions: seq<Action>, id: nat)
    requires Possible(size, Start(n), actions)
    ensures var s := Run(size, Start(n), actions);
      Places(s, id) <= 1
  {
    var s := Run(size, Start(n), actions);
    StartIsSound(n);
    RunKeeps(size, Start(n), actions);
    IncreasingOnce(s.issued, id);
  }

  lemma {:induction false} IncreasingOnce(ids: seq<nat>, id: nat)
    requires forall i, j :: 0 <= i < j < |ids| ==> ids[i] < ids[j]
    ensures Times(ids, id) <= 1
    decreases |ids|
  {
    if ids != [] {
      var last := |ids| - 1;
      IncreasingOnce(ids[..last], id);
      AbsentIsZeroTimes(ids[..last], ids[last]);
    }
  }

  // ------------------------------------------------------------ traces

  /** The numbers handed out for one trace, in order. */
  function Spans(issued: seq<nat>, labels: seq<nat>, trace: nat): seq<nat>
    requires |labels| == |issued|
  {
    if issued == [] then []
    else
      var last := |issued| - 1;
      Spans(issued[..last], labels[..last], trace) + if labels[last] == trace then [issued[last]] else []
  }

  predicate HasBatch(w: Worker) {
    w.Building? || w.Sending?
  }

  predicate Holds(w: Worker, trace: nat) {
    HasBatch(w) && w.trace == trace
  }

  /** A worker's batch is all of its trace, and it is full before it is sent. */
  predicate BatchIsTrace(size: nat, s: State, w: Worker)
    requires |s.labels| == |s.issued|
  {
    HasBatch(w) ==>
      && 0 < w.trace <= s.traces && w.batch == Spans(s.issued, s.labels, w.trace)
      && (if w.Sending? then |w.batch| == size else |w.batch| <= size)
  }

  predicate HeldBySome(s: State, trace: nat) {
    exists w :: 0 <= w < |s.workers| && Holds(s.workers[w], trace)
  }

  /** Every item has a trace that was started. */
  predicate Labelled(s: State) {
    |s.labels| == |s.issued| && forall i :: 0 <= i < |s.labels| ==> 0 < s.labels[i] <= s.traces
  }

  predicate HeldOnce(s: State) {
    forall v, w :: 0 <= v < w < |s.workers| && HasBatch(s.workers[v]) && HasBatch(s.workers[w]) ==>
      s.workers[v].trace != s.workers[w].trace
  }

  predicate FullUnlessHeld(size: nat, s: State)
    requires |s.labels| == |s.issued|
  {
    forall t :: 0 < t <= s.traces && !HeldBySome(s, t) ==> |Spans(s.issued, s.labels, t)| == size
  }

  /** A trace is one batch, held by at most one worker, and full once no worker holds it. */
  predicate Traced(size: nat, s: State) {
    && Labelled(s) && HeldOnce(s) && FullUnlessHeld(size, s)
    && forall w :: 0 <= w < |s.workers| ==> BatchIsTrace(size, s, s.workers[w])
  }

  lemma SpansSnoc(issued: seq<nat>, labels: seq<nat>, id: nat, made: nat, trace: nat)
    requires |labels| == |issued|
    ensures Spans(issued + [id], labels + [made], trace) ==
            Spans(issued, labels, trace) + if made == trace then [id] else []
  {
    assert (issued + [id])[..|issued|] == issued && (labels + [made])[..|labels|] == labels;
  }

  lemma {:induction false} NoSpansYet(issued: seq<nat>, labels: seq<nat>, trace: nat)
    requires |labels| == |issued| && forall i :: 0 <= i < |labels| ==> labels[i] < trace
    ensures Spans(issued, labels, trace) == []
    decreases |issued|
  {
    if issued != [] {
      NoSpansYet(issued[..|issued| - 1], labels[..|labels| - 1], trace);
    }
  }

  /** Whoever holds a trace still does, unless the action is the holder's. */
  lemma OthersHold(size: nat, s: State, a: Action, trace: nat)
    requires Enabled(size, s, a) && HeldBySome(s, trace)
    requires a.Stop? || a.Bypass? || !Holds(s.workers[a.w], trace) || Holds(After(size, s, a).workers[a.w], trace)
    ensures HeldBySome(After(size, s, a), trace)
  {
    var w :| 0 <= w < |s.workers| && Holds(s.workers[w], trace);
    assert Holds(After(size, s, a).workers[w], trace);
  }

  lemma {:induction false} TickTraces(size: nat, s: State, w: nat)
    requires Enabled(size, s, Tick(w)) && Traced(size, s)
    ensures Traced(size, After(size, s, Tick(w)))
  {
    var a := Tick(w);
    NoSpansYet(s.issued, s.labels, s.traces + 1);
    assert Holds(After(size, s, a).workers[w], s.traces + 1);
    forall t | 0 < t <= s.traces && !HeldBySome(After(size, s, a), t) ensures !HeldBySome(s, t) {
      if HeldBySome(s, t) {
        OthersHold(size, s, a, t);
      }
    }
  }

  lemma {:induction false} NextTraces(size: nat, s: State, w: nat)
    requires Enabled(size, s, NextItem(w)) && Traced(size, s)
    ensures Traced(size, After(size, s, NextItem(w)))
  {
    var a, t := NextItem(w), After(size, s, NextItem(w));
    var own := s.workers[w].trace;
    assert BatchIsTrace(size, s, s.workers[w]);
    SpansSnoc(s.issued, s.labels, s.sent + 1, own, own);
    forall v | 0 <= v < |t.workers| ensures BatchIsTrace(size, t, t.workers[v]) {
      assert BatchIsTrace(size, s, s.workers[v]);
      if v != w && HasBatch(s.workers[v]) {
        SpansSnoc(s.issued, s.labels, s.sent + 1, own, s.workers[v].trace);
      }
    }
    forall k | 0 < k <= t.traces && !HeldBySome(t, k) ensures |Spans(t.issued, t.labels, k)| == size {
      if HeldBySome(s, k) {
        OthersHold(size, s, a, k);
      }
      assert Holds(t.workers[w], own);
      SpansSnoc(s.issued, s.labels, s.sent + 1, own, k);
    }
  }

  /** The other actions of a worker let go of full batches only. */
  lemma {:induction false} OtherTraces(size: nat, s: State, a: Action)
    requires Enabled(size, s, a) && Traced(size, s) && !a.Tick? && !a.NextItem?
    ensures Traced(size, After(size, s, a))
  {
    var t := After(size, s, a);
    forall v | 0 <= v < |t.workers| ensures BatchIsTrace(size, t, t.workers[v]) {
      assert BatchIsTrace(size, s, s.workers[v]);
    }
    forall k | 0 < k <= t.traces && !HeldBySome(t, k) ensures |Spans(t.issued, t.labels, k)| == size {
      if HeldBySome(s, k) {
        if a.Stop? || a.Bypass? || !Holds(s.workers[a.w], k) || Holds(t.workers[a.w], k) {
          OthersHold(size, s, a, k);
        } else {
          assert BatchIsTrace(size, s, s.workers[a.w]);
        }
      }
    }
  }

  lemma StepTraces(size: nat, s: State, a: Action)
    requires Enabled(size, s, a) && Traced(size, s)
    ensures Traced(size, After(size, s, a))
  {
    match a
    case Tick(w) => TickTraces(size, s, w);
    case NextItem(w) => NextTraces(size, s, w);
    case _ => OtherTraces(size, s, a);
  }

  lemma {:induction false} RunTraces(size: nat, s: State, actions: seq<Action>)
    requires Possible(size, s, actions) && Traced(size, s)
    ensures Traced(size, Run(size, s, actions))
    decreases |actions|
  {
    if actions != [] {
      StepTraces(size, s, actions[0]);
      RunTraces(size, After(size, s, actions[0]), actions[1..]);
    }
  }

  /**
   * In every interleaving a trace is one batch: its items are a full batch, unless some worker is still filling it,
   * and no two workers ever hold batches of the same trace.
   */
  lemma TracesAreBatches(n: nat, size: nat, actions: seq<Action>, trace: nat)
    requires Possible(size, Start(n), actions) && 0 < trace <= Run(size, Start(n), actions).traces
    ensures var s := Run(size, Start(n), actions);
      && HeldOnce(s) && |s.labels| == |s.issued|
      && var spans := Spans(s.issued, s.labels, trace);
         |spans| == size || (|spans| < size && Building(trace, spans) in s.workers)
  {
    RunTraces(size, Start(n), actions);
    var s := Run(size, Start(n), actions);
    if w :| 0 <= w < |s.workers| && Holds(s.workers[w], trace) {
      assert BatchIsTrace(size, s, s.workers[w]);
      assert s.workers[w] in s.workers;
    }
  }

  // ------------------------------------------------------------ errors

  /** How many of the actions are failed attempts of that kind. */
  function Failures(actions: seq<Action>, permanent: bool): nat {
    if actions == [] then 0
    else
      var last := actions[|actions| - 1];
      var fails := if permanent then last.Refuse? else last.Retry? || last.TimeOut?;
      Failures(actions[..|actions| - 1], permanent) + if fails then 1 else 0
  }

  lemma {:induction false} FailuresOfNext(a: Action, rest: seq<Action>, permanent: bool)
    ensures Failures([a] + rest, permanent) == Failures([a], permanent) + Failures(rest, permanent)
    decreases |rest|
  {
    if rest == [] {
      assert [a] + rest == [a];
    } else {
      var init, last := rest[..|rest| - 1], rest[|rest| - 1];
      assert ([a] + rest)[..|rest|] == [a] + init && ([a] + rest)[|rest|] == last;
      FailuresOfNext(a, init, permanent);
    }
  }

  function Multiple(n: nat, size: nat): nat {
    n * size
  }

  lemma MultipleOfSum(m: nat, n: nat, size: nat)
    ensures Multiple(m + n, size) == Multiple(m, size) + Multiple(n, size)
  {
  }

  lemma {:induction false} StepCountsFailures(size: nat, s: State, a: Action)
    requires Enabled(size, s, a) && Traced(size, s)
    ensures var t := After(size, s, a);
      && t.permanentErrors == s.permanentErrors + Multiple(Failures([a], true), size)
      && t.nonPermanentErrors == s.nonPermanentErrors + Multiple(Failures([a], false), size)
  {
    assert [a][..0] == [];
    assert Failures([a], true) == if a.Refuse? then 1 else 0;
    assert Failures([a], false) == if a.Retry? || a.TimeOut? then 1 else 0;
    if a.Refuse? || a.Retry? || a.TimeOut? {
      assert BatchIsTrace(size, s, s.workers[a.w]);
    }
  }

  lemma {:induction false} RunCountsFailures(size: nat, s: State, actions: seq<Action>)
    requires Possible(size, s, actions) && Traced(size, s)
    ensures var t := Run(size, s, actions);
      && t.permanentErrors == s.permanentErrors + Multiple(Failures(actions, true), size)
      && t.nonPermanentErrors == s.nonPermanentErrors + Multiple(Failures(actions, false), size)
    decreases |actions|
  {
    if actions != [] {
      var a, rest := actions[0], actions[1..];
      StepCountsFailures(size, s, a);
      StepTraces(size, s, a);
      RunCountsFailures(size, After(size, s, a), rest);
      assert actions == [a] + rest;
      FailuresOfNext(a, rest, true);
      FailuresOfNext(a, rest, false);
      MultipleOfSum(Failures([a], true), Failures(rest, true), size);
      MultipleOfSum(Failures([a], false), Failures(rest, false), size);
    }
  }

  /** In every interleaving the error counters are the failed attempts times the batch size, each attempt counted. */
  lemma ErrorsAreCounted(n: nat, size: nat, actions: seq<Action>)
    requires Possible(size, Start(n), actions)
    ensures var s := Run(size, Start(n), actions);
      s.permanentErrors == Failures(actions, true) * size && s.nonPermanentErrors == Failures(actions, false) * size
  {
    RunCountsFailures(size, Start(n), actions);
  }

  // ------------------------------------------------------------ one worker

  lemma {:induction false} RunConcat(size: nat, s: State, a: seq<Action>, b: seq<Action>)
    requires Possible(size, s, a) && Possible(size, Run(size, s, a), b)
    ensures Possible(size, s, a + b) && Run(size, s, a + b) == Run(size, Run(size, s, a), b)
    decreases |a|
  {
    if a == [] {
      assert a + b == b;
    } else {
      assert (a + b)[0] == a[0] && (a + b)[1..] == a[1..] + b;
      RunConcat(size, After(size, s, a[0]), a[1..], b);
    }
  }

  /** How the receiver answers one attempt, and whether the time for retries is over after a failure. */
  datatype Attempt = Success | PermanentError | Failure(expired: bool)

  /** The numbers that come after the given one. */
  function NextIds(sent: nat, k: nat): seq<nat> {
    seq(k, i requires 0 <= i < k => sent + i + 1)
  }

  function Copies(trace: nat, k: nat): seq<nat> {
    seq(k, _ => trace)
  }

  /** The attempt that ends the retries. */
  function Final(attempts: seq<Attempt>): (k: nat)
    requires attempts != [] && attempts[|attempts| - 1] != Failure(false)
    ensures k < |attempts| && attempts[k] != Failure(false) && forall j :: 0 <= j < k ==> attempts[j] == Failure(false)
  {
    if attempts[0] != Failure(false) then 0 else Final(attempts[1..]) + 1
  }

  /** The generator as the code holds it: its counters; state is what they stand for. */
  class ProviderSender {
    const size: nat
    var traceIDSequence: nat
    var dataItemsSent: nat
    var permanentErrors: nat
    var nonPermanentErrors: nat
    ghost var state: State

    constructor (size: nat, n: nat)
      ensures this.size == size && Valid() && state == Start(n)
    {
      this.size := size;
      traceIDSequence, dataItemsSent, permanentErrors, nonPermanentErrors, state := 0, 0, 0, 0, Start(n);
    }

    ghost predicate Valid()
      reads this
    {
      && traceIDSequence == state.traces && dataItemsSent == state.sent
      && permanentErrors == state.permanentErrors && nonPermanentErrors == state.nonPermanentErrors
    }

    /** The state was reached from the one before by these actions. */
    ghost predicate Reached(before: State, done: seq<Action>)
      reads this
    {
      Valid() && Possible(size, before, done) && state == Run(size, before, done)
    }

    /** Nothing has ended since the state before. */
    ghost predicate SameEnds(before: State)
      reads this
    {
      state.delivered == before.delivered && state.refused == before.refused && state.abandoned == before.abandoned
    }

    /** Worker w is sending the batch of the trace it started. */
    ghost predicate Sends(w: nat, before: State, batch: seq<nat>)
      reads this
    {
      && w < |state.workers| && state.workers[w] == Sending(before.traces + 1, batch)
      && batch == NextIds(before.sent, size) && dataItemsSent == before.sent + size && SameEnds(before)
    }

    /** Worker w is idle again, and its batch went where the attempt says. */
    ghost predicate Ended(w: nat, before: State, batch: seq<nat>, end: Attempt)
      reads this
    {
      && w < |state.workers| && state.workers[w].Idle? && dataItemsSent == before.sent + size
      && permanentErrors == before.permanentErrors + (if end.PermanentError? then size else 0)
      && state.delivered == before.delivered + (if end.Success? then batch else [])
      && state.refused == before.refused + (if end.PermanentError? then batch else [])
      && state.abandoned == before.abandoned + (if end.Failure? then batch else [])
    }

    ghost method Do(a: Action, before: State, done: seq<Action>) returns (done': seq<Action>)
      requires Possible(size, before, done) && state == Run(size, before, done) && Enabled(size, state, a)
      modifies `state
      ensures done' == done + [a] && state == After(size, old(state), a)
      ensures Possible(size, before, done') && state == Run(size, before, done')
    {
      assert [a][1..] == [];
      RunConcat(size, before, done, [a]);
      done' := done + [a];
      state := After(size, state, a);
    }

    /** One more item of worker w's batch. */
    method AddSpan(w: nat, batch: seq<nat>, ghost before: State, ghost done: seq<Action>)
      returns (batch': seq<nat>, ghost done': seq<Action>)
      requires Reached(before, done) && w < |state.workers|
      requires state.workers[w].Building? && state.workers[w].batch == batch && |batch| < size
      modifies `dataItemsSent, `state
      ensures Reached(before, done') && SameEnds(old(state)) && dataItemsSent == old(dataItemsSent) + 1
      ensures batch' == batch + [dataItemsSent] && w < |state.workers|
      ensures var trace := old(state.workers[w].trace);
        state.workers[w] == Building(trace, batch') && state.labels == old(state.labels) + [trace]
    {
      done' := Do(NextItem(w), before, done);
      dataItemsSent := dataItemsSent + 1;
      batch' := batch + [dataItemsSent];
    }

    /** Starts the next trace and numbers its batch with the shared counter. */
    method GenerateTraces(w: nat, ghost before: State) returns (batch: seq<nat>, ghost done: seq<Action>)
      requires Valid() && w < |state.workers| && state.workers[w].Idle? && before == state
      modifies `traceIDSequence, `dataItemsSent, `state
      ensures Reached(before, done) && Sends(w, before, batch)
      ensures traceIDSequence == before.traces + 1 && state.labels == before.labels + Copies(before.traces + 1, size)
    {
      batch := [];
      done := Do(Tick(w), before, []);
      traceIDSequence := traceIDSequence + 1;
      var i := 0;
      while i < size
        invariant 0 <= i <= size && Reached(before, done) && SameEnds(before)
        invariant w < |state.workers| && state.workers[w] == Building(before.traces + 1, batch) && |batch| == i
        invariant traceIDSequence == before.traces + 1 && state.labels == before.labels + Copies(before.traces + 1, i)
        invariant dataItemsSent == before.sent + i && batch == NextIds(before.sent, i)
      {
        batch, done := AddSpan(w, batch, before, done);
        i := i + 1;
      }
      done := Do(Filled(w), before, done);
    }

    /** One attempt at sending the batch, and whether it was the last. */
    method ConsumeTraces(w: nat, batch: seq<nat>, attempt: Attempt, ghost before: State, ghost done: seq<Action>)
      returns (over: bool, ghost done': seq<Action>)
      requires Reached(before, done) && Sends(w, before, batch) && permanentErrors == before.permanentErrors
      modifies `permanentErrors, `nonPermanentErrors, `state
      ensures Reached(before, done') && (over <==> attempt != Failure(false))
      ensures over ==> Ended(w, before, batch, attempt)
      ensures !over ==> Sends(w, before, batch) && permanentErrors == before.permanentErrors
    {
      match attempt
      case Success =>
        done' := Do(Accept(w), before, done);
        over := true;
      case PermanentError =>
        done' := Do(Refuse(w), before, done);
        permanentErrors := permanentErrors + |batch|;
        over := true;
      case Failure(expired) =>
        nonPermanentErrors := nonPermanentErrors + |batch|;
        done' := Do(if expired then TimeOut(w) else Retry(w), before, done);
        over := expired;
    }

    /** One tick of a worker nothing interrupts: a batch is sent until it is taken, refused for good, or out of time. */
    method GenerateTrace(w: nat, attempts: seq<Attempt>) returns (err: bool, ghost done: seq<Action>)
      requires Valid() && w < |state.workers| && state.workers[w].Idle?
      requires attempts != [] && attempts[|attempts| - 1] != Failure(false)
      modifies this
      ensures Reached(old(state), done)
      ensures var end := attempts[Final(attempts)];
        err == end.PermanentError? && Ended(w, old(state), NextIds(old(dataItemsSent), size), end)
    {
      ghost var before := state;
      var batch;
      batch, done := GenerateTraces(w, before);
      var k := 0;
      while true
        invariant 0 <= k < |attempts| && k <= Final(attempts)
        invariant Reached(before, done) && Sends(w, before, batch) && permanentErrors == before.permanentErrors
        decreases |attempts| - k
      {
        var over;
        over, done := ConsumeTraces(w, batch, attempts[k], before, done);
        if over {
          return attempts[k].PermanentError?, done;
        }
        k := k + 1;
      }
    }
  }
}
