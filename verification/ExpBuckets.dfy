/**
 * Bucket arrays of exponential histograms: the in-place code of
 * aggregate.go (mergeExponentialHistogramBuckets, trimBuckets) and what it computes.
 * Entry i of an array with offset o counts bucket o + i.
 */
module ExpBuckets {
  import opened MachineInts

  /** A growable slice of counters that the merge updates in place. */
  class UInt64Slice {
    var counts: seq<uint64>

    constructor (counts: seq<uint64>)
      ensures this.counts == counts
    {
      this.counts := counts;
    }
  }

  /** The counter at index i, zero outside the array. */
  function At(s: seq<uint64>, i: int): uint64 {
    if 0 <= i < |s| then s[i] else 0
  }

  /** The counter that lands on place j when the array is moved d places up. */
  function Shifted(s: seq<uint64>, d: int, j: int): uint64 {
    At(s, j - d)
  }

  function Max(a: int, b: int): int {
    if a < b then b else a
  }

  /** The nonzero counters, in order. */
  function NonZero(s: seq<uint64>): seq<uint64> {
    if s == [] then [] else (if s[0] == 0 then [] else [s[0]]) + NonZero(s[1..])
  }

  /** How long the target becomes when src is added d places up. */
  function ReachedLength(tgtLen: nat, src: seq<uint64>, d: int): (n: nat)
    ensures n >= tgtLen
  {
    if src == [] then tgtLen
    else
      var n := ReachedLength(tgtLen, src[..|src| - 1], d);
      if src[|src| - 1] == 0 then n else Max(n, |src| + d)
  }

  /** The counters a merge leaves in the target slice. */
  function MergedCounts(tgt: seq<uint64>, src: seq<uint64>, tgtOff: int32, srcOff: int32): seq<uint64> {
    if tgtOff == srcOff then seq(Max(|tgt|, |src|), j => Add64(At(tgt, j), At(src, j)))
    else if srcOff < tgtOff then NonZero(src) + tgt
    else
      var d := SubInt32(srcOff, tgtOff);
      seq(ReachedLength(|tgt|, src, d), j => Add64(At(tgt, j), Shifted(src, d, j)))
  }

  /** The counters that follow the leading zeros. */
  function Trimmed(s: seq<uint64>): seq<uint64> {
    if s != [] && s[0] == 0 then Trimmed(s[1..]) else s
  }

  // ---------------------------------------------------------------- the code

  /** The inner shift loop: grows the slice by one and moves everything one place up. */
  method Prepend(tgt: UInt64Slice, count: uint64)
    modifies tgt
    ensures tgt.counts == [count] + old(tgt.counts)
  {
    tgt.counts := tgt.counts + [0];
    ghost var grown := tgt.counts;
    var i := |tgt.counts| - 1;
    while i > 0
      invariant 0 <= i < |tgt.counts| == |grown|
      invariant tgt.counts[..i + 1] == grown[..i + 1]
      invariant forall k :: i < k < |grown| ==> tgt.counts[k] == grown[k - 1]
    {
      tgt.counts := tgt.counts[i := tgt.counts[i - 1]];
      i := i - 1;
    }
    tgt.counts := tgt.counts[0 := count];
    assert tgt.counts == [count] + old(tgt.counts);
  }

  method MergeSameOffset(tgt: UInt64Slice, src: seq<uint64>)
    modifies tgt
    ensures tgt.counts == MergedCounts(old(tgt.counts), src, 0, 0)
  {
    ghost var was := tgt.counts;
    var b := 0;
    while b < |src|
      invariant 0 <= b <= |src|
      invariant |tgt.counts| == Max(|was|, b)
      invariant forall j :: 0 <= j < |tgt.counts| ==>
        tgt.counts[j] == if j < b then Add64(At(was, j), src[j]) else was[j]
    {
      if b < |tgt.counts| {
        tgt.counts := tgt.counts[b := Add64(tgt.counts[b], src[b])];
      } else {
        tgt.counts := tgt.counts + [src[b]];
      }
      b := b + 1;
    }
  }

  method MergeLowerSource(tgt: UInt64Slice, src: seq<uint64>)
    modifies tgt
    ensures tgt.counts == NonZero(src) + old(tgt.counts)
  {
    var b := |src| - 1;
    while b >= 0
      invariant -1 <= b < |src|
      invariant tgt.counts == NonZero(src[b + 1..]) + old(tgt.counts)
    {
      assert src[b..][1..] == src[b + 1..];
      var count := src[b];
      if count > 0 {
        Prepend(tgt, count);
      }
      b := b - 1;
    }
  }

  /** Adds count at place idx, first padding the slice with zeros when it is too short. */
  method AddAt(tgt: UInt64Slice, idx: nat, count: uint64)
    modifies tgt
    ensures |tgt.counts| == Max(|old(tgt.counts)|, idx + 1)
    ensures forall j :: 0 <= j < |tgt.counts| ==>
      tgt.counts[j] == if j == idx then Add64(At(old(tgt.counts), j), count) else At(old(tgt.counts), j)
  {
    if idx < |tgt.counts| {
      tgt.counts := tgt.counts[idx := Add64(tgt.counts[idx], count)];
    } else {
      while |tgt.counts| <= idx
        invariant |old(tgt.counts)| <= |tgt.counts| <= idx + 1
        invariant forall j :: 0 <= j < |tgt.counts| ==> tgt.counts[j] == At(old(tgt.counts), j)
      {
        tgt.counts := tgt.counts + [0];
      }
      tgt.counts := tgt.counts[idx := Add64(tgt.counts[idx], count)];
    }
  }

  method MergeHigherSource(tgt: UInt64Slice, src: seq<uint64>, d: int32)
    modifies tgt
    ensures tgt.counts ==
      seq(ReachedLength(|old(tgt.counts)|, src, d), j => Add64(At(old(tgt.counts), j), Shifted(src, d, j)))
  {
    ghost var was := tgt.counts;
    var b := 0;
    while b < |src|
      invariant 0 <= b <= |src|
      invariant |tgt.counts| == ReachedLength(|was|, src[..b], d)
      invariant forall j :: j >= 0 ==> At(tgt.counts, j) == Add64(At(was, j), Shifted(src[..b], d, j))
    {
      forall j
        ensures Shifted(src[..b + 1], d, j) == if j == b + d then src[b] else Shifted(src[..b], d, j)
      {
        ShiftedSnoc(src, b, d, j);
      }
      assert src[..b + 1][..b] == src[..b];
      var count := src[b];
      var idx := b + d;
      if count != 0 && idx >= 0 {
        assert Shifted(src[..b], d, idx) == 0;
        AddAt(tgt, idx, count);
      }
      b := b + 1;
    }
    assert src[..b] == src;
  }

  method MergeBucketSlices(tgt: UInt64Slice, src: seq<uint64>, tgtOff: int32, srcOff: int32)
    modifies tgt
    ensures tgt.counts == MergedCounts(old(tgt.counts), src, tgtOff, srcOff)
  {
    if tgtOff == srcOff {
      MergeSameOffset(tgt, src);
    } else if srcOff < tgtOff {
      MergeLowerSource(tgt, src);
    } else {
      MergeHigherSource(tgt, src, SubInt32(srcOff, tgtOff));
    }
  }

  method TrimBuckets(buckets: UInt64Slice)
    modifies buckets
    ensures buckets.counts == Trimmed(old(buckets.counts))
  {
    var zeroCount := 0;
    while zeroCount < |buckets.counts| && buckets.counts[zeroCount] == 0
      invariant 0 <= zeroCount <= |buckets.counts|
      invariant Trimmed(buckets.counts) == Trimmed(buckets.counts[zeroCount..])
    {
      assert buckets.counts[zeroCount..][1..] == buckets.counts[zeroCount + 1..];
      zeroCount := zeroCount + 1;
    }
    if zeroCount == 0 {
      return;
    }
    var newBuckets := CopyFrom(buckets.counts, zeroCount);
    buckets.counts := newBuckets[..];
  }

  method CopyFrom(counts: seq<uint64>, zeroCount: nat) returns (newBuckets: array<uint64>)
    requires zeroCount <= |counts|
    ensures fresh(newBuckets) && newBuckets[..] == counts[zeroCount..]
  {
    newBuckets := new uint64[|counts| - zeroCount](_ => 0);
    var i := zeroCount;
    while i < |counts|
      invariant zeroCount <= i <= |counts| && newBuckets.Length == |counts| - zeroCount
      invariant forall k :: 0 <= k < i - zeroCount ==> newBuckets[k] == counts[zeroCount + k]
    {
      newBuckets[i - zeroCount] := counts[i];
      i := i + 1;
    }
  }

  lemma ShiftedSnoc(src: seq<uint64>, b: nat, d: int, j: int)
    requires b < |src|
    ensures Shifted(src[..b + 1], d, j) == if j == b + d then src[b] else Shifted(src[..b], d, j)
  {
    var k := j - d;
    assert 0 <= k < b ==> src[..b + 1][k] == src[..b][k];
  }

  // ------------------------------------------------------- facts about the pieces

  /** Every nonzero source counter that has a place at all has one below the reached length. */
  lemma {:induction false} ReachedLengthCovers(tgtLen: nat, src: seq<uint64>, d: int, j: int)
    ensures j >= ReachedLength(tgtLen, src, d) ==> Shifted(src, d, j) == 0
  {
    if src != [] {
      ReachedLengthCovers(tgtLen, src[..|src| - 1], d, j);
    }
  }
}
