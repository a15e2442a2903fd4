/** Retrying a batch of logs (internal/coreinternal/consumerretry/logs.go, testutil.go). */
module LogRetry {
  /** A batch: for each resource its records. */
  type Logs<R> = seq<seq<R>>

  /** What the next consumer answers; a partial error carries the data that is still to be sent. */
  datatype Answer<R> = Ok | Permanent | Partial(rejected: Logs<R>) | Other

  /** An answer, and the records that were taken although nothing may have been said about it. */
  datatype Response<R> = Response(accepted: seq<R>, answer: Answer<R>)

  /** One call of the next consumer. */
  datatype Exchange<R> = Exchange(sent: Logs<R>, response: Response<R>)

  class Consumer<R> {
    const respond: (nat, Logs<R>) -> Response<R>
    var calls: seq<Exchange<R>>

    constructor (respond: (nat, Logs<R>) -> Response<R>)
      ensures this.respond == respond && calls == []
    {
      this.respond, calls := respond, [];
    }

    method ConsumeLogs(logs: Logs<R>) returns (answer: Answer<R>)
      modifies this
      ensures var r := respond(|old(calls)|, logs);
        calls == old(calls) + [Exchange(logs, r)] && answer == r.answer
    {
      var r := respond(|calls|, logs);
      calls := calls + [Exchange(logs, r)];
      answer := r.answer;
    }
  }

  /** After a failed attempt the loop waits, or finds its context cancelled. */
  datatype Wait = Elapsed | Interrupted

  /** dropped: what was still to be sent when the loop gave up. */
  datatype Result<R> = Delivered | Refused(dropped: Logs<R>) | GaveUp(dropped: Logs<R>) | Cancelled(dropped: Logs<R>)

  /** What is left to send after a call. */
  function Pending<R>(x: Exchange<R>): Logs<R> {
    match x.response.answer
    case Ok => []
    case Partial(rejected) => rejected
    case _ => x.sent
  }

  predicate Retryable<R>(x: Exchange<R>) {
    x.response.answer.Partial? || x.response.answer.Other?
  }

  /** Each call sends what the one before it left, and only the last one may end the loop. */
  ghost predicate Chained<R>(input: Logs<R>, xs: seq<Exchange<R>>) {
    && (xs != [] ==> xs[0].sent == input)
    && forall k :: 0 <= k < |xs| - 1 ==> Follows(xs[k], xs[k + 1])
  }

  predicate Follows<R(==)>(x: Exchange<R>, y: Exchange<R>) {
    Retryable(x) && y.sent == Pending(x)
  }

  /** The responses are the consumer's, from its given call on. */
  ghost predicate Answered<R>(respond: (nat, Logs<R>) -> Response<R>, base: nat, xs: seq<Exchange<R>>) {
    forall k :: 0 <= k < |xs| ==> xs[k].response == respond(base + k, xs[k].sent)
  }

  /** What is left to send after all calls. */
  function Left<R>(input: Logs<R>, xs: seq<Exchange<R>>): Logs<R> {
    if xs == [] then input else Pending(xs[|xs| - 1])
  }

  lemma {:induction false} ChainedSnoc<R>(input: Logs<R>, xs: seq<Exchange<R>>, x: Exchange<R>)
    requires Chained(input, xs) && x.sent == Left(input, xs) && (xs != [] ==> Retryable(xs[|xs| - 1]))
    ensures Chained(input, xs + [x]) && Left(input, xs + [x]) == Pending(x)
  {
    var ys := xs + [x];
    forall k | 0 <= k < |ys| - 1 ensures Follows(ys[k], ys[k + 1]) {
      if k < |xs| - 1 {
        assert Follows(xs[k], xs[k + 1]);
      }
    }
  }

  /** How the last call, the waits and the switch decide the result. */
  ghost predicate Decided<R>(enabled: bool, xs: seq<Exchange<R>>, waits: seq<Wait>, r: Result<R>) {
    xs != [] &&
    var last := xs[|xs| - 1];
    match r
    case Delivered => last.response.answer.Ok?
    case Refused(dropped) =>
      dropped == Pending(last) && (last.response.answer.Permanent? || (!enabled && !last.response.answer.Ok?))
    case GaveUp(dropped) => dropped == Pending(last) && Retryable(last) && |xs| == |waits| + 1
    case Cancelled(dropped) =>
      dropped == Pending(last) && Retryable(last) && |xs| <= |waits| && waits[|xs| - 1] == Interrupted
  }

  /** One call, added to the calls made so far. */
  method Attempt<R>(next: Consumer<R>, logs: Logs<R>, ghost input: Logs<R>, ghost xs: seq<Exchange<R>>)
    returns (err: Answer<R>, ghost ys: seq<Exchange<R>>)
    requires Chained(input, xs) && logs == Left(input, xs) && (xs != [] ==> Retryable(xs[|xs| - 1]))
    requires |xs| <= |next.calls| && xs == next.calls[|next.calls| - |xs|..]
    requires Answered(next.respond, |next.calls| - |xs|, xs)
    modifies next
    ensures var x := Exchange(logs, next.respond(|old(next.calls)|, logs));
      && ys == xs + [x] && next.calls == old(next.calls) + [x]
      && err == x.response.answer && Left(input, ys) == Pending(x)
    ensures Chained(input, ys) && Answered(next.respond, |old(next.calls)| - |xs|, ys)
  {
    err := next.ConsumeLogs(logs);
    ghost var x := next.calls[|next.calls| - 1];
    ChainedSnoc(input, xs, x);
    ys := xs + [x];
  }

  /** Without retries. */
  method ConsumeOnce<R>(next: Consumer<R>, input: Logs<R>, ghost waits: seq<Wait>)
    returns (r: Result<R>, ghost xs: seq<Exchange<R>>)
    modifies next
    ensures next.calls == old(next.calls) + xs && |xs| == 1
    ensures Answered(next.respond, |old(next.calls)|, xs) && Chained(input, xs) && Decided(false, xs, waits, r)
  {
    var err := next.ConsumeLogs(input);
    xs := [next.calls[|next.calls| - 1]];
    r := if err.Ok? then Delivered else Refused(if err.Partial? then err.rejected else input);
  }

  /** The loop. waits is how long the backoff allows it to go on: when they are used up it stops. */
  method ConsumeLogs<R>(enabled: bool, next: Consumer<R>, input: Logs<R>, waits: seq<Wait>)
    returns (r: Result<R>, ghost xs: seq<Exchange<R>>)
    modifies next
    ensures next.calls == old(next.calls) + xs
    ensures Answered(next.respond, |old(next.calls)|, xs)
    ensures Chained(input, xs) && Decided(enabled, xs, waits, r)
    ensures !enabled ==> |xs| == 1
    ensures |xs| <= |waits| + 1 && forall k :: 0 <= k < |xs| - 1 ==> waits[k] == Elapsed
  {
    xs := [];
    if !enabled {
      r, xs := ConsumeOnce(next, input, waits);
      return;
    }
    var logs := input;
    var retryNum := 0;
    while true
      invariant 0 <= retryNum <= |waits| && |xs| == retryNum
      invariant next.calls == old(next.calls) + xs && Chained(input, xs) && logs == Left(input, xs)
      invariant Answered(next.respond, |old(next.calls)|, xs)
      invariant forall k :: 0 <= k < |xs| ==> Retryable(xs[k]) && waits[k] == Elapsed
      decreases |waits| - retryNum
    {
      var err;
      err, xs := Attempt(next, logs, input, xs);
      if err.Ok? {
        return Delivered, xs;
      }
      if err.Permanent? {
        return Refused(logs), xs;
      }
      if err.Partial? {
        logs := err.rejected;
      }
      if retryNum == |waits| {
        return GaveUp(logs), xs;
      }
      retryNum := retryNum + 1;
      if waits[retryNum - 1] == Interrupted {
        return Cancelled(logs), xs;
      }
    }
  }

  // ------------------------------------------------------------ conservation

  /** All records of a batch. */
  function Records<R>(logs: Logs<R>): seq<R> {
    if logs == [] then [] else Records(logs[..|logs| - 1]) + logs[|logs| - 1]
  }

  /** All records taken by the next consumer, call after call. */
  function Accepted<R>(xs: seq<Exchange<R>>): seq<R> {
    if xs == [] then [] else Accepted(xs[..|xs| - 1]) + xs[|xs| - 1].response.accepted
  }

  ghost function Count<R>(s: seq<R>, x: R): nat {
    if s == [] then 0 else Count(s[..|s| - 1], x) + if s[|s| - 1] == x then 1 else 0
  }

  lemma {:induction false} CountInBoth<R>(a: seq<R>, b: seq<R>, x: R)
    ensures Count(a + b, x) == Count(a, x) + Count(b, x)
    decreases |b|
  {
    if b == [] {
      assert a + b == a;
    } else {
      assert (a + b)[..|a + b| - 1] == a + b[..|b| - 1];
      CountInBoth(a, b[..|b| - 1], x);
    }
  }

  /** By how much the copies of a record taken by a call and left after it exceed those sent. */
  ghost function Surplus<R>(x: Exchange<R>, record: R): int {
    Count(x.response.accepted, record) + Count(Records(Pending(x)), record) - Count(Records(x.sent), record)
  }

  ghost function TotalSurplus<R>(xs: seq<Exchange<R>>, record: R): int {
    if xs == [] then 0 else TotalSurplus(xs[..|xs| - 1], record) + Surplus(xs[|xs| - 1], record)
  }

  lemma {:induction false} ChainedPrefix<R>(input: Logs<R>, xs: seq<Exchange<R>>)
    requires xs != [] && Chained(input, xs)
    ensures Chained(input, xs[..|xs| - 1]) && xs[|xs| - 1].sent == Left(input, xs[..|xs| - 1])
  {
  }

  /** Whatever the consumer does, at every loop head accepted and pending exceed the input by the calls' surplus. */
  lemma {:induction false} Balance<R>(input: Logs<R>, xs: seq<Exchange<R>>, record: R)
    requires Chained(input, xs)
    ensures Count(Accepted(xs), record) + Count(Records(Left(input, xs)), record) ==
      Count(Records(input), record) + TotalSurplus(xs, record)
    decreases |xs|
  {
    if xs != [] {
      var last := xs[|xs| - 1];
      ChainedPrefix(input, xs);
      Balance(input, xs[..|xs| - 1], record);
      CountInBoth(Accepted(xs[..|xs| - 1]), last.response.accepted, record);
    }
  }

  /** After success every record has been delivered as often as it was sent in, exactly if the surpluses cancel out. */
  lemma {:induction false} DeliveredExactlyOnce<R>(input: Logs<R>, xs: seq<Exchange<R>>, record: R)
    requires Chained(input, xs) && xs != [] && xs[|xs| - 1].response.answer.Ok?
    ensures Count(Accepted(xs), record) == Count(Records(input), record) <==> TotalSurplus(xs, record) == 0
  {
    Balance(input, xs, record);
  }

  /** The consumer takes all of a batch, or what a partial error leaves out, or nothing. */
  ghost predicate Honest<R(!new)>(x: Exchange<R>) {
    match x.response.answer
    case Ok => forall r :: Count(x.response.accepted, r) == Count(Records(x.sent), r)
    case Partial(rejected) => forall r ::
      Count(x.response.accepted, r) + Count(Records(rejected), r) == Count(Records(x.sent), r)
    case _ => x.response.accepted == []
  }

  lemma {:induction false} HonestHasNoSurplus<R(!new)>(xs: seq<Exchange<R>>, record: R)
    requires forall x :: x in xs ==> Honest(x)
    ensures TotalSurplus(xs, record) == 0
    decreases |xs|
  {
    if xs != [] {
      HonestHasNoSurplus(xs[..|xs| - 1], record);
      assert Honest(xs[|xs| - 1]);
    }
  }

  /** With such a consumer nothing is lost or doubled: what was not delivered is exactly what the loop dropped. */
  lemma {:induction false} NothingLostOrDoubled<R(!new)>(input: Logs<R>, xs: seq<Exchange<R>>, enabled: bool,
                                                         waits: seq<Wait>,
                                      r: Result<R>, record: R)
    requires Chained(input, xs) && Decided(enabled, xs, waits, r) && forall x :: x in xs ==> Honest(x)
    ensures Count(Records(input), record) ==
      Count(Accepted(xs), record) + Count(Records(if r.Delivered? then [] else r.dropped), record)
  {
    Balance(input, xs, record);
    HonestHasNoSurplus(xs, record);
  }

  /** A consumer that takes every batch, but answers its first calls with a plain error. */
  function TakesButFails<R>(fails: nat): (nat, Logs<R>) -> Response<R> {
    (n: nat, logs: Logs<R>) => Response(Records(logs), if n < fails then Other else Ok)
  }

  /** Such a consumer is sent the whole batch in every call. */
  lemma {:induction false} SentWhole<R>(input: Logs<R>, xs: seq<Exchange<R>>, fails: nat)
    requires Chained(input, xs) && Answered(TakesButFails(fails), 0, xs)
    ensures |xs| <= fails + 1 && forall k :: 0 <= k < |xs| ==> xs[k].sent == input
    decreases |xs|
  {
    if xs != [] {
      ChainedPrefix(input, xs);
      SentWhole(input, xs[..|xs| - 1], fails);
      if |xs| > 1 {
        var k := |xs| - 2;
        assert Follows(xs[k], xs[k + 1]) && xs[k] == xs[..k + 1][k];
      }
    }
  }

  lemma {:induction false} AcceptedWhole<R>(input: Logs<R>, xs: seq<Exchange<R>>, record: R)
    requires forall k :: 0 <= k < |xs| ==> xs[k].response.accepted == Records(input)
    ensures Count(Accepted(xs), record) == Times(|xs|, Count(Records(input), record))
    decreases |xs|
  {
    if xs != [] {
      AcceptedWhole(input, xs[..|xs| - 1], record);
      CountInBoth(Accepted(xs[..|xs| - 1]), Records(input), record);
      OneMoreTime(|xs| - 1, Count(Records(input), record));
    }
  }

  function Times(n: nat, c: nat): nat {
    n * c
  }

  lemma {:induction false} OneMoreTime(n: nat, c: nat)
    ensures Times(n + 1, c) == Times(n, c) + c
  {
  }

  /** If the loop is not stopped before, each plain error has every record delivered once more. */
  lemma {:induction false} PlainErrorsMultiply<R>(input: Logs<R>, fails: nat, xs: seq<Exchange<R>>, waits: seq<Wait>,
                                                  r: Result<R>,
                               record: R)
    requires Chained(input, xs) && Answered(TakesButFails(fails), 0, xs) && Decided(true, xs, waits, r)
    requires Interrupted !in waits && |waits| >= fails
    ensures r == Delivered && Count(Accepted(xs), record) == Times(fails + 1, Count(Records(input), record))
  {
    SentWhole(input, xs, fails);
    assert |xs| == fails + 1;
    AcceptedWhole(input, xs, record);
  }

  /** A consumer that takes a batch but answers with a plain error makes the retry deliver it twice. */
  method PlainErrorAfterTakingDoubles<R>(input: Logs<R>, waits: seq<Wait>, ghost record: R)
    returns (r: Result<R>, next: Consumer<R>)
    requires Interrupted !in waits && waits != []
    ensures fresh(next) && r == Delivered && Count(Accepted(next.calls), record) == 2 * Count(Records(input), record)
  {
    next := new Consumer(TakesButFails(1));
    ghost var xs;
    r, xs := ConsumeLogs(true, next, input, waits);
    PlainErrorsMultiply(input, 1, xs, waits, r, record);
    assert next.calls == xs;
  }

  // -------------------------------------------------- one resource per call

  /** The mock consumer that takes one resource and hands the others back. */
  function TakesOne<R>(logs: Logs<R>): Response<R> {
    if |logs| <= 1 then Response(Records(logs), Ok) else Response(logs[0], Partial(logs[1..]))
  }

  /** With it, call k sends the resources from k on, so n resources take n calls, and they arrive in order. */
  lemma {:induction false} OneByOne<R>(input: Logs<R>, xs: seq<Exchange<R>>)
    requires Chained(input, xs) && forall k :: 0 <= k < |xs| ==> xs[k].response == TakesOne(xs[k].sent)
    ensures |xs| <= if input == [] then 1 else |input|
    ensures forall k :: 0 <= k < |xs| ==> xs[k].sent == input[k..]
    decreases |xs|
  {
    if |xs| == 1 {
      assert input[0..] == input;
    } else if xs != [] {
      ChainedPrefix(input, xs);
      OneByOne(input, xs[..|xs| - 1]);
      var k := |xs| - 1;
      assert xs[..k][k - 1].sent == input[k - 1..];
      assert input[k - 1..][1..] == input[k..];
    }
  }

  lemma {:induction false} RecordsOfOne<R>(resource: seq<R>)
    ensures Records([resource]) == resource
  {
    assert [resource][..0] == [];
  }

  lemma {:induction false} OneByOneAccepted<R>(input: Logs<R>, xs: seq<Exchange<R>>)
    requires |xs| <= |input|
    requires forall k :: 0 <= k < |xs| ==> xs[k].sent == input[k..] && xs[k].response == TakesOne(xs[k].sent)
    ensures Accepted(xs) == Records(input[..|xs|])
    decreases |xs|
  {
    if xs != [] {
      var k := |xs| - 1;
      OneByOneAccepted(input, xs[..k]);
      RecordsUpTo(input, k);
      TakenFrom(input, k);
    }
  }

  lemma {:induction false} RecordsUpTo<R>(input: Logs<R>, k: nat)
    requires k < |input|
    ensures Records(input[..k + 1]) == Records(input[..k]) + input[k]
  {
    assert input[..k + 1][..k] == input[..k] && input[..k + 1][k] == input[k];
  }

  /** Of the resources from k on, resource k is taken. */
  lemma {:induction false} TakenFrom<R>(input: Logs<R>, k: nat)
    requires k < |input|
    ensures TakesOne(input[k..]).accepted == input[k]
  {
    if |input[k..]| == 1 {
      assert input[k..] == [input[k]];
      RecordsOfOne(input[k]);
    }
  }

  /** Unless it is interrupted or out of time, the loop delivers everything, in order, in one call per resource. */
  lemma {:induction false} OneCallPerResource<R>(input: Logs<R>, xs: seq<Exchange<R>>, waits: seq<Wait>, r: Result<R>)
    requires Chained(input, xs) && Decided(true, xs, waits, r)
    requires forall k :: 0 <= k < |xs| ==> xs[k].response == TakesOne(xs[k].sent)
    requires Interrupted !in waits && |waits| + 1 >= |input|
    ensures r == Delivered && |xs| == (if input == [] then 1 else |input|) && Accepted(xs) == Records(input)
  {
    OneByOne(input, xs);
    var last := xs[|xs| - 1];
    assert last.sent == input[|xs| - 1..];
    if input != [] {
      OneByOneAccepted(input, xs);
      if |xs| == |input| {
        assert input[..|xs|] == input;
      }
    } else {
      assert xs == [last] && [last][..0] == [];
    }
  }
}
