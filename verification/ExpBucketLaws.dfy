/**
 * What merging two exponential-histogram bucket arrays means, and exactly when it is
 * the bucket-by-bucket sum of the two histograms.
 */
module ExpBucketLaws {
  import opened MachineInts
  import opened ExpBuckets

  /** A bucket array with its offset: entry i counts bucket offset + i. */
  datatype Buckets = Buckets(offset: int32, counts: seq<uint64>)

  function CountAt(b: Buckets, i: int): uint64 {
    Shifted(b.counts, b.offset, i)
  }

  /** One merge step as the data-point loop performs it: merge, then fix offset and trim. */
  function MergeBuckets(t: Buckets, s: Buckets): Buckets {
    var merged := MergedCounts(t.counts, s.counts, t.offset, s.offset);
    if t.offset != s.offset && |s.counts| != 0
    then Buckets(if s.offset < t.offset then s.offset else t.offset, Trimmed(merged))
    else Buckets(t.offset, merged)
  }

  /** The histogram r counts every bucket exactly as t and s together do. */
  ghost predicate IsExactSum(r: Buckets, t: Buckets, s: Buckets) {
    forall i :: CountAt(r, i) == CountAt(t, i) + CountAt(s, i)
  }

  /** The same modulo 2^64. */
  ghost predicate IsWrappedSum(r: Buckets, t: Buckets, s: Buckets) {
    forall i :: CountAt(r, i) == Add64(CountAt(t, i), CountAt(s, i))
  }

  /** No bucket's joint count overflows 64 bits. */
  ghost predicate SumsFit(t: Buckets, s: Buckets) {
    forall i :: CountAt(t, i) + CountAt(s, i) < 0x1_0000_0000_0000_0000
  }

  predicate AllZero(s: seq<uint64>) {
    forall j :: 0 <= j < |s| ==> s[j] == 0
  }

  /** The first n counters are nonzero and all later ones are zero. */
  predicate NonZeroThenZero(s: seq<uint64>, n: nat) {
    n <= |s| && (forall j :: 0 <= j < n ==> s[j] != 0) && (forall j :: n <= j < |s| ==> s[j] == 0)
  }

  /** Trimming removes nothing that matters: there is no leading zero, or nothing but zeros. */
  predicate TrimIsHarmless(s: seq<uint64>) {
    (s != [] && s[0] != 0) || AllZero(s)
  }

  // ---------------------------------------------------------------- trimming

  /** Trimming drops some number of leading zeros and leaves a nonzero head, if anything. */
  lemma {:induction false} TrimmedShape(s: seq<uint64>) returns (z: nat)
    ensures z <= |s| && Trimmed(s) == s[z..] && (forall j :: 0 <= j < z ==> s[j] == 0)
    ensures z < |s| ==> s[z] != 0
    ensures AllZero(s) <==> Trimmed(s) == []
  {
    if s != [] && s[0] == 0 {
      var rest := TrimmedShape(s[1..]);
      z := rest + 1;
      assert s[1..][rest..] == s[z..];
      forall j | 0 <= j < z ensures s[j] == 0 {
        assert j > 0 ==> s[j] == s[1..][j - 1];
      }
    } else {
      z := 0;
    }
  }

  /** Trimming does not move the offset, so it keeps the histogram exactly when it is harmless. */
  lemma {:induction false} TrimmingKeepsCounts(off: int32, s: seq<uint64>)
    ensures (forall i :: CountAt(Buckets(off, Trimmed(s)), i) == CountAt(Buckets(off, s), i)) <==> TrimIsHarmless(s)
  {
    var z := TrimmedShape(s);
    if !TrimIsHarmless(s) {
      assert CountAt(Buckets(off, Trimmed(s)), off) != CountAt(Buckets(off, s), off);
    }
  }

  // ------------------------------------------------------------ equal offsets

  /** With equal offsets the merge is the exact sum, unless a bucket overflows. */
  lemma {:induction false} SameOffsetIsExact(t: Buckets, s: Buckets)
    requires t.offset == s.offset
    ensures IsExactSum(MergeBuckets(t, s), t, s) <==> SumsFit(t, s)
    ensures IsWrappedSum(MergeBuckets(t, s), t, s)
  {
    var r := MergeBuckets(t, s);
    assert IsWrappedSum(r, t, s);
    if IsExactSum(r, t, s) {
      forall i ensures CountAt(t, i) + CountAt(s, i) < 0x1_0000_0000_0000_0000 {
        assert CountAt(r, i) == CountAt(t, i) + CountAt(s, i);
      }
    }
  }

  // ------------------------------------------------------ source starts higher

  /** Before trimming, the raised merge adds every source counter d places up and none below place 0. */
  lemma {:induction false} RaisedCounts(t: Buckets, s: Buckets, j: int)
    requires t.offset < s.offset
    ensures At(MergedCounts(t.counts, s.counts, t.offset, s.offset), j) ==
            if j < 0 then 0 else Add64(At(t.counts, j), Shifted(s.counts, SubInt32(s.offset, t.offset), j))
  {
    ReachedLengthCovers(|t.counts|, s.counts, SubInt32(s.offset, t.offset), j);
  }

  /**
   * An untrimmed merge that adds every bucket modulo 2^64 is exact after trimming iff nothing overflows and trimming is
   * harmless.
   */
  lemma {:induction false} TrimmedSumIsExact(off: int32, c: seq<uint64>, t: Buckets, s: Buckets)
    requires IsWrappedSum(Buckets(off, c), t, s)
    ensures IsExactSum(Buckets(off, Trimmed(c)), t, s) <==> SumsFit(t, s) && TrimIsHarmless(c)
  {
    var whole, r := Buckets(off, c), Buckets(off, Trimmed(c));
    TrimmingKeepsCounts(off, c);
    if IsExactSum(r, t, s) {
      forall i ensures CountAt(t, i) + CountAt(s, i) < 0x1_0000_0000_0000_0000 {
        assert CountAt(r, i) == CountAt(t, i) + CountAt(s, i);
      }
      forall i ensures CountAt(r, i) == CountAt(whole, i) {
        assert CountAt(whole, i) == Add64(CountAt(t, i), CountAt(s, i));
      }
    }
    if SumsFit(t, s) && TrimIsHarmless(c) {
      forall i ensures CountAt(r, i) == CountAt(t, i) + CountAt(s, i) {
        assert CountAt(r, i) == CountAt(whole, i) == Add64(CountAt(t, i), CountAt(s, i));
      }
    }
  }

  lemma WrappedSumThatFits(r: Buckets, t: Buckets, s: Buckets)
    requires IsWrappedSum(r, t, s) && SumsFit(t, s)
    ensures IsExactSum(r, t, s)
  {
  }

  lemma RaisedIsWrappedSum(t: Buckets, s: Buckets)
    requires t.offset < s.offset && s.offset - t.offset < 0x8000_0000
    ensures IsWrappedSum(Buckets(t.offset, MergedCounts(t.counts, s.counts, t.offset, s.offset)), t, s)
  {
    forall i
      ensures CountAt(Buckets(t.offset, MergedCounts(t.counts, s.counts, t.offset, s.offset)), i) ==
              Add64(CountAt(t, i), CountAt(s, i))
    {
      RaisedCounts(t, s, i - t.offset);
    }
  }

  /** No int32 wrap: exact if and only if sums fit and trimming is harmless. */
  lemma {:induction false} HigherSourceIsExact(t: Buckets, s: Buckets)
    requires t.offset < s.offset && s.offset - t.offset < 0x8000_0000 && s.counts != []
    ensures IsExactSum(MergeBuckets(t, s), t, s) <==>
      SumsFit(t, s) && ((t.counts != [] && t.counts[0] != 0) || (AllZero(t.counts) && AllZero(s.counts)))
  {
    var c := MergedCounts(t.counts, s.counts, t.offset, s.offset);
    RaisedIsWrappedSum(t, s);
    TrimmedSumIsExact(t.offset, c, t, s);
    if SumsFit(t, s) {
      WrappedSumThatFits(Buckets(t.offset, c), t, s);
      RaisedHead(t, s, c);
    }
  }

  lemma {:induction false} RaisedHead(t: Buckets, s: Buckets, c: seq<uint64>)
    requires t.offset < s.offset
    requires IsExactSum(Buckets(t.offset, c), t, s)
    ensures TrimIsHarmless(c) <==>
      ((t.counts != [] && t.counts[0] != 0) || (AllZero(t.counts) && AllZero(s.counts)))
  {
    assert CountAt(Buckets(t.offset, c), t.offset) == CountAt(t, t.offset);
    if AllZero(c) {
      forall j | 0 <= j < |t.counts| ensures t.counts[j] == 0 {
        assert CountAt(Buckets(t.offset, c), t.offset + j) == CountAt(t, t.offset + j) + CountAt(s, t.offset + j);
      }
      forall j | 0 <= j < |s.counts| ensures s.counts[j] == 0 {
        assert CountAt(Buckets(t.offset, c), s.offset + j) == CountAt(t, s.offset + j) + CountAt(s, s.offset + j);
      }
    }
    if AllZero(t.counts) && AllZero(s.counts) {
      forall j | 0 <= j < |c| ensures c[j] == 0 {
        assert CountAt(Buckets(t.offset, c), t.offset + j) == CountAt(t, t.offset + j) + CountAt(s, t.offset + j);
      }
    }
  }

  // ------------------------------------ source starts higher, difference wraps

  lemma RefutedAt(r: Buckets, t: Buckets, s: Buckets, i: int)
    requires CountAt(r, i) != CountAt(t, i) + CountAt(s, i)
    ensures !IsExactSum(r, t, s)
  {
  }

  lemma {:induction false} LastNonZero(s: seq<uint64>) returns (b: nat)
    requires !AllZero(s)
    ensures b < |s| && s[b] != 0 && forall j :: b < j < |s| ==> s[j] == 0
  {
    if s[|s| - 1] != 0 {
      b := |s| - 1;
    } else {
      var init := s[..|s| - 1];
      assert forall j :: 0 <= j < |init| ==> s[j] == init[j];
      b := LastNonZero(init);
    }
  }

  /** From a nonzero place, steps of z through a finite array meet a change. */
  lemma {:induction false} StepsMeetAChange(t: seq<uint64>, z: nat, from: nat) returns (k: nat)
    requires z > 0 && At(t, from) != 0
    ensures k >= from && At(t, k + z) != At(t, k)
    decreases |t| - from
  {
    if At(t, from + z) != At(t, from) {
      k := from;
    } else {
      k := StepsMeetAChange(t, z, from + z);
    }
  }

  /** No array is its own z-shift except for one place that gains a count. */
  lemma {:induction false} NoShiftGainsOneCount(t: seq<uint64>, p: nat, z: nat, count: uint64) returns (k: nat)
    requires count > 0
    ensures k >= p && At(t, k + z) != At(t, k) + if k == p then count else 0
  {
    if At(t, p + z) != At(t, p) + count {
      k := p;
    } else {
      k := StepsMeetAChange(t, z, p + z);
    }
  }

  /** At and above the true place of the last nonzero source counter, a wrapped merge leaves the target as it was. */
  lemma {:induction false} WrappedPlacementsStopShort(t: Buckets, s: Buckets, b: nat, k: int)
    requires s.offset - t.offset >= 0x8000_0000
    requires b < |s.counts| && forall j :: b < j < |s.counts| ==> s.counts[j] == 0
    requires k >= b + s.offset - t.offset
    ensures At(MergedCounts(t.counts, s.counts, t.offset, s.offset), k) == At(t.counts, k)
  {
    RaisedCounts(t, s, k);
    assert SubInt32(s.offset, t.offset) == s.offset - t.offset - 0x1_0000_0000;
    assert Shifted(s.counts, SubInt32(s.offset, t.offset), k) == 0;
  }

  lemma TrimmedFrom(s: seq<uint64>) returns (z: nat)
    ensures z <= |s| && Trimmed(s) == s[z..]
  {
    z := TrimmedShape(s);
  }

  lemma RaisedThenTrimmed(t: Buckets, s: Buckets, z: nat, k: nat)
    requires t.offset < s.offset && s.counts != []
    requires z <= |MergedCounts(t.counts, s.counts, t.offset, s.offset)|
    requires Trimmed(MergedCounts(t.counts, s.counts, t.offset, s.offset)) ==
             MergedCounts(t.counts, s.counts, t.offset, s.offset)[z..]
    ensures CountAt(MergeBuckets(t, s), t.offset + k) ==
            At(MergedCounts(t.counts, s.counts, t.offset, s.offset), k + z)
  {
  }

  /** When the offset difference wraps, a source with any count at all is not added correctly. */
  lemma {:induction false} WrappedDifferenceLoses(t: Buckets, s: Buckets) returns (i: int)
    requires s.offset - t.offset >= 0x8000_0000 && !AllZero(s.counts)
    ensures CountAt(MergeBuckets(t, s), i) != CountAt(t, i) + CountAt(s, i)
  {
    var b := LastNonZero(s.counts);
    var p := b + s.offset - t.offset;
    var z := TrimmedFrom(MergedCounts(t.counts, s.counts, t.offset, s.offset));
    var k := NoShiftGainsOneCount(t.counts, p, z, s.counts[b]);
    i := t.offset + k;
    WrappedPlacementsStopShort(t, s, b, k + z);
    RaisedThenTrimmed(t, s, z, k);
    assert CountAt(s, i) == if k == p then s.counts[b] else 0;
  }

  /** Difference wraps: exact if and only if the source is all zero and trimming the target is harmless. */
  lemma {:induction false} WrappedHigherSourceIsExact(t: Buckets, s: Buckets)
    requires s.offset - t.offset >= 0x8000_0000 && s.counts != []
    ensures IsExactSum(MergeBuckets(t, s), t, s) <==> AllZero(s.counts) && TrimIsHarmless(t.counts)
  {
    if !AllZero(s.counts) {
      var i := WrappedDifferenceLoses(t, s);
      assert CountAt(MergeBuckets(t, s), i) != CountAt(t, i) + CountAt(s, i);
    } else {
      var c := MergedCounts(t.counts, s.counts, t.offset, s.offset);
      forall i ensures CountAt(Buckets(t.offset, c), i) == CountAt(t, i) == Add64(CountAt(t, i), CountAt(s, i)) {
        RaisedCounts(t, s, i - t.offset);
      }
      TrimmedSumIsExact(t.offset, c, t, s);
      forall j: int ensures At(c, j) == At(t.counts, j) {
        assert CountAt(Buckets(t.offset, c), t.offset + j) == CountAt(t, t.offset + j);
      }
      SameCountsTrimAlike(c, t.counts);
    }
  }

  lemma SameCountsTrimAlike(c: seq<uint64>, t: seq<uint64>)
    requires forall j: int :: At(c, j) == At(t, j)
    ensures TrimIsHarmless(c) <==> TrimIsHarmless(t)
  {
    assert At(c, 0) == At(t, 0);
    assert AllZero(c) ==> forall j :: 0 <= j < |t| ==> t[j] == At(t, j) == At(c, j) == 0;
    assert AllZero(t) ==> forall j :: 0 <= j < |c| ==> c[j] == At(c, j) == At(t, j) == 0;
  }

  // ------------------------------------------------------- source starts lower

  lemma {:induction false} NonZeroFacts(s: seq<uint64>)
    ensures |NonZero(s)| <= |s|
    ensures forall j :: 0 <= j < |NonZero(s)| ==> NonZero(s)[j] != 0
    ensures NonZero(s) == [] <==> AllZero(s)
  {
    if s != [] {
      NonZeroFacts(s[1..]);
      assert forall j :: 0 < j < |s| ==> s[j] == s[1..][j - 1];
      assert AllZero(s) ==> AllZero(s[1..]);
    }
  }

  lemma {:induction false} NonZeroOfPrefix(s: seq<uint64>, n: nat)
    requires NonZeroThenZero(s, n)
    ensures NonZero(s) == s[..n]
  {
    if n == 0 {
      NonZeroFacts(s);
    } else {
      NonZeroOfPrefix(s[1..], n - 1);
      assert s[..n] == [s[0]] + s[1..][..n - 1];
    }
  }

  /** Exact when the nonzero source counts come first and exactly fill the gap, or the target is empty of counts. */
  lemma {:induction false} LowerSourceSuffices(t: Buckets, s: Buckets)
    requires s.offset < t.offset && s.counts != []
    requires var n := |NonZero(s.counts)|;
      NonZeroThenZero(s.counts, n) && (AllZero(t.counts) || n == t.offset - s.offset)
    ensures IsExactSum(MergeBuckets(t, s), t, s)
  {
    var n := |NonZero(s.counts)|;
    NonZeroOfPrefix(s.counts, n);
    NonZeroFacts(s.counts);
    var c := NonZero(s.counts) + t.counts;
    var z := TrimmedShape(c);
    var r := MergeBuckets(t, s);
    forall i ensures CountAt(r, i) == CountAt(t, i) + CountAt(s, i) {
      var j := i - s.offset;
      if n > 0 {
        assert c[0] != 0 && z == 0;
        assert At(c, j) == if j < n then At(s.counts, j) else At(t.counts, j - n);
      } else {
        assert c == t.counts && Trimmed(c) == [];
      }
    }
  }

  /** The counts the lower merge leaves, read from the source's offset. */
  lemma {:induction false} LoweredCounts(t: Buckets, s: Buckets, j: int)
    requires s.offset < t.offset && s.counts != [] && !AllZero(s.counts)
    ensures CountAt(MergeBuckets(t, s), s.offset + j) ==
      var n := |NonZero(s.counts)|; if j < n then At(NonZero(s.counts), j) else At(t.counts, j - n)
  {
    NonZeroFacts(s.counts);
    var c := NonZero(s.counts) + t.counts;
    assert c[0] == NonZero(s.counts)[0] != 0;
  }

  /**
   * Exactness of the lower merge forces the same condition, unless more nonzero counts than the gap meet a nonzero
   * target.
   */
  lemma {:induction false} LowerSourceNecessary(t: Buckets, s: Buckets)
    requires s.offset < t.offset && s.counts != []
    requires |NonZero(s.counts)| <= t.offset - s.offset || AllZero(t.counts)
    requires IsExactSum(MergeBuckets(t, s), t, s)
    ensures var n := |NonZero(s.counts)|;
      NonZeroThenZero(s.counts, n) && (AllZero(t.counts) || n == t.offset - s.offset)
  {
    var n, g := |NonZero(s.counts)|, t.offset - s.offset;
    NonZeroFacts(s.counts);
    if AllZero(s.counts) {
      if !AllZero(t.counts) {
        LoweringAloneMisplaces(t, s);
      }
    } else {
      forall j ensures At(s.counts, j) + At(t.counts, j - g) ==
        if j < n then At(NonZero(s.counts), j) else At(t.counts, j - n)
      {
        LoweredCounts(t, s, j);
        assert CountAt(MergeBuckets(t, s), s.offset + j) == CountAt(t, s.offset + j) + CountAt(s, s.offset + j);
      }
      if !AllZero(t.counts) {
        var last := LastNonZero(t.counts);
        assert At(s.counts, g + last) + At(t.counts, g + last - g) == At(t.counts, g + last - n);
        assert n == g;
      }
      forall j | 0 <= j < |s.counts| ensures (s.counts[j] == 0) <==> j >= n {
        assert At(s.counts, j) + At(t.counts, j - g) == if j < n then At(NonZero(s.counts), j) else At(t.counts, j - n);
      }
      assert NonZeroThenZero(s.counts, n);
    }
  }

  lemma NothingAbove(t: seq<uint64>, z: nat, last: nat, k: nat)
    requires z <= |t| && k > last
    requires forall j :: last < j < |t| ==> t[j] == 0
    ensures At(t[z..], k) == 0
  {
  }

  lemma LoweringAlone(t: Buckets, s: Buckets)
    requires s.offset < t.offset && s.counts != [] && AllZero(s.counts)
    ensures MergeBuckets(t, s) == Buckets(s.offset, Trimmed(t.counts))
  {
    NonZeroFacts(s.counts);
    assert [] + t.counts == t.counts;
  }

  /** With no source count, moving the offset down misplaces every target count. */
  lemma {:induction false} LoweringAloneMisplaces(t: Buckets, s: Buckets)
    requires s.offset < t.offset && s.counts != [] && AllZero(s.counts) && !AllZero(t.counts)
    ensures !IsExactSum(MergeBuckets(t, s), t, s)
  {
    LoweringAlone(t, s);
    LoweredMisplaces(t, s);
  }

  lemma {:induction false} LoweredMisplaces(t: Buckets, s: Buckets)
    requires s.offset < t.offset && !AllZero(t.counts)
    ensures !IsExactSum(Buckets(s.offset, Trimmed(t.counts)), t, s)
  {
    var z := TrimmedShape(t.counts);
    var last := LastNonZero(t.counts);
    NothingAbove(t.counts, z, last, t.offset + last - s.offset);
    RefutedAt(Buckets(s.offset, Trimmed(t.counts)), t, s, t.offset + last);
  }

  /** Exactly when the lower merge is the sum. */
  lemma LowerSourceIsExact(t: Buckets, s: Buckets)
    requires s.offset < t.offset && s.counts != []
    requires |NonZero(s.counts)| <= t.offset - s.offset || AllZero(t.counts)
    ensures IsExactSum(MergeBuckets(t, s), t, s) <==>
      var n := |NonZero(s.counts)|;
      NonZeroThenZero(s.counts, n) && (AllZero(t.counts) || n == t.offset - s.offset)
  {
    if IsExactSum(MergeBuckets(t, s), t, s) {
      LowerSourceNecessary(t, s);
    } else if NonZeroThenZero(s.counts, |NonZero(s.counts)|) &&
      (AllZero(t.counts) || |NonZero(s.counts)| == t.offset - s.offset) {
      LowerSourceSuffices(t, s);
    }
  }

  /** The one counter k places into the target that makes an overlapping merge come out right, read off the source. */
  function Forced(s: seq<uint64>, gap: nat, k: nat): int
    requires 0 < gap < |NonZero(s)|
    decreases k
  {
    var n := |NonZero(s)|;
    (if k + gap < n then NonZero(s)[k + gap] else Forced(s, gap, k + gap - n)) - At(s, k + gap)
  }

  /** The source fills the gap without zeros, and the target happens to be the one that source calls for. */
  ghost predicate OverlapFits(t: Buckets, s: Buckets)
    requires 0 < t.offset - s.offset < |NonZero(s.counts)|
  {
    var gap := t.offset - s.offset;
    (forall j :: 0 <= j < gap ==> At(s.counts, j) != 0) && forall k: nat :: At(t.counts, k) == Forced(s.counts, gap, k)
  }

  lemma {:induction false} NonZeroKeepsHead(s: seq<uint64>, g: nat)
    requires forall j :: 0 <= j < g ==> At(s, j) != 0
    ensures g <= |NonZero(s)| && forall j :: 0 <= j < g ==> NonZero(s)[j] == At(s, j)
  {
    if g > 0 {
      assert At(s, 0) != 0;
      forall j | 0 <= j < g - 1 ensures At(s[1..], j) == At(s, j + 1) {
      }
      NonZeroKeepsHead(s[1..], g - 1);
      forall j | 0 <= j < g ensures NonZero(s)[j] == At(s, j) {
        if j > 0 {
          assert NonZero(s)[j] == NonZero(s[1..])[j - 1];
        }
      }
    }
  }

  /** One place of an overlapping merge: what it must hold to be the sum there. */
  lemma OverlapAt(t: Buckets, s: Buckets, j: nat)
    requires 0 < t.offset - s.offset < |NonZero(s.counts)|
    ensures var n, gap, i := |NonZero(s.counts)|, t.offset - s.offset, s.offset + j;
      CountAt(MergeBuckets(t, s), i) == CountAt(t, i) + CountAt(s, i) <==>
        (if j < n then NonZero(s.counts)[j] else At(t.counts, j - n)) == At(t.counts, j - gap) + At(s.counts, j)
  {
    NonZeroFacts(s.counts);
    LoweredCounts(t, s, j);
  }

  lemma {:induction false} OverlapForces(t: Buckets, s: Buckets, k: nat)
    requires 0 < t.offset - s.offset < |NonZero(s.counts)| && IsExactSum(MergeBuckets(t, s), t, s)
    ensures At(t.counts, k) == Forced(s.counts, t.offset - s.offset, k)
  {
    var n, gap := |NonZero(s.counts)|, t.offset - s.offset;
    OverlapAt(t, s, k + gap);
    assert CountAt(MergeBuckets(t, s), s.offset + (k + gap)) ==
      CountAt(t, s.offset + (k + gap)) + CountAt(s, s.offset + (k + gap));
    if k + gap >= n {
      OverlapForces(t, s, k + gap - n);
    }
  }

  /** More nonzero source counts than the gap: the merge is exact only for the one target the source calls for. */
  lemma OverlapIsExact(t: Buckets, s: Buckets)
    requires 0 < t.offset - s.offset < |NonZero(s.counts)|
    ensures IsExactSum(MergeBuckets(t, s), t, s) <==> OverlapFits(t, s)
  {
    var r, n, gap := MergeBuckets(t, s), |NonZero(s.counts)|, t.offset - s.offset;
    NonZeroFacts(s.counts);
    if IsExactSum(r, t, s) {
      forall j | 0 <= j < gap ensures At(s.counts, j) != 0 {
        OverlapAt(t, s, j);
        assert CountAt(r, s.offset + j) == CountAt(t, s.offset + j) + CountAt(s, s.offset + j);
      }
      forall k: nat ensures At(t.counts, k) == Forced(s.counts, gap, k) {
        OverlapForces(t, s, k);
      }
    }
    if OverlapFits(t, s) {
      NonZeroKeepsHead(s.counts, gap);
      forall i ensures CountAt(r, i) == CountAt(t, i) + CountAt(s, i) {
        var j := i - s.offset;
        if j >= 0 {
          OverlapAt(t, s, j);
          if j >= gap {
            assert At(t.counts, j - gap) == Forced(s.counts, gap, j - gap);
          }
        } else {
          LoweredCounts(t, s, j);
        }
      }
    }
  }

  /** The inputs on which a merge is the exact sum, case by case of the code's offset branches. */
  ghost predicate MergesExactly(t: Buckets, s: Buckets) {
    if s.counts == [] then true
    else if t.offset == s.offset then SumsFit(t, s)
    else if s.offset < t.offset then
      var n := |NonZero(s.counts)|;
      if t.offset - s.offset < n then OverlapFits(t, s)
      else NonZeroThenZero(s.counts, n) && (AllZero(t.counts) || n == t.offset - s.offset)
    else if s.offset - t.offset < 0x8000_0000 then
      SumsFit(t, s) && ((t.counts != [] && t.counts[0] != 0) || (AllZero(t.counts) && AllZero(s.counts)))
    else AllZero(s.counts) && TrimIsHarmless(t.counts)
  }

  /** The merge is the exact bucket-by-bucket sum on precisely these inputs. */
  lemma MergeExactness(t: Buckets, s: Buckets)
    ensures IsExactSum(MergeBuckets(t, s), t, s) <==> MergesExactly(t, s)
  {
    if s.counts == [] {
      assert MergeBuckets(t, s).counts == t.counts;
    } else if t.offset == s.offset {
      SameOffsetIsExact(t, s);
    } else if s.offset < t.offset {
      if t.offset - s.offset < |NonZero(s.counts)| {
        OverlapIsExact(t, s);
      } else {
        LowerSourceIsExact(t, s);
      }
    } else if s.offset - t.offset < 0x8000_0000 {
      HigherSourceIsExact(t, s);
    } else {
      WrappedHigherSourceIsExact(t, s);
    }
  }

  lemma NonZeroSkips(a: uint64, rest: seq<uint64>)
    ensures NonZero([a] + rest) == (if a == 0 then [] else [a]) + NonZero(rest)
  {
    assert ([a] + rest)[1..] == rest;
  }

  /** Overlapping ranges, added correctly by coincidence. */
  lemma OverlapCoincides()
    ensures var t, s := Buckets(1, [1]), Buckets(0, [1, 0, 1]); IsExactSum(MergeBuckets(t, s), t, s)
  {
    var t, s := Buckets(1, [1]), Buckets(0, [1, 0, 1]);
    NonZeroSkips(1, [0, 1]);
    NonZeroSkips(0, [1]);
    NonZeroSkips(1, []);
    assert [1] + [0, 1] == [1, 0, 1] && [0] + [1] == [0, 1] && [1] + [] == [1];
    assert NonZero(s.counts) == [1, 1];
    assert MergeBuckets(t, s) == Buckets(0, [1, 1, 1]);
  }

  /** Overlapping ranges, not added correctly. */
  lemma OverlapMisplaces()
    ensures var t, s := Buckets(1, [1]), Buckets(0, [1, 1]); !IsExactSum(MergeBuckets(t, s), t, s)
  {
    var t, s := Buckets(1, [1]), Buckets(0, [1, 1]);
    NonZeroSkips(1, [1]);
    NonZeroSkips(1, []);
    assert [1] + [1] == [1, 1] && [1] + [] == [1];
    assert NonZero(s.counts) == [1, 1];
    assert MergeBuckets(t, s) == Buckets(0, [1, 1, 1]);
    assert CountAt(MergeBuckets(t, s), 2) != CountAt(t, 2) + CountAt(s, 2);
  }

  // ------------------------------------------------------------------- totals

  /** The sum of all counters. */
  function Total(s: seq<uint64>): nat {
    if s == [] then 0 else s[0] + Total(s[1..])
  }

  /** The sum of the counters that land on places 0 to hi when the array is moved d places up. */
  function WindowTotal(s: seq<uint64>, d: int, hi: nat): nat {
    if hi == 0 then 0 else WindowTotal(s, d, hi - 1) + Shifted(s, d, hi - 1)
  }

  lemma {:induction false} TotalConcat(a: seq<uint64>, b: seq<uint64>)
    ensures Total(a + b) == Total(a) + Total(b)
  {
    if a == [] {
      assert a + b == b;
    } else {
      TotalConcat(a[1..], b);
      assert (a + b)[1..] == a[1..] + b;
    }
  }

  lemma {:induction false} TotalNonZero(s: seq<uint64>)
    ensures Total(NonZero(s)) == Total(s)
  {
    if s != [] {
      TotalNonZero(s[1..]);
      if s[0] == 0 {
        assert NonZero(s) == NonZero(s[1..]);
      } else {
        assert NonZero(s)[1..] == NonZero(s[1..]);
      }
    }
  }

  lemma {:induction false} TotalTrimmed(s: seq<uint64>)
    ensures Total(Trimmed(s)) == Total(s)
  {
    if s != [] && s[0] == 0 {
      TotalTrimmed(s[1..]);
    }
  }

  lemma TotalSnoc(s: seq<uint64>, lo: nat, k: nat)
    requires lo <= k < |s|
    ensures Total(s[lo..k + 1]) == Total(s[lo..k]) + s[k]
  {
    assert s[lo..k + 1] == s[lo..k] + [s[k]];
    TotalConcat(s[lo..k], [s[k]]);
    assert [s[k]][1..] == [];
  }

  /** How many leading counters fall below place 0 when the array is moved d places up. */
  function Below(s: seq<uint64>, d: int): nat {
    if d >= 0 then 0 else if -d < |s| then -d else |s|
  }

  /** How many leading counters land below place hi. */
  function Reach(s: seq<uint64>, d: int, hi: nat): nat {
    if hi - d <= Below(s, d) then Below(s, d) else if hi - d < |s| then hi - d else |s|
  }

  lemma {:induction false} WindowIsTotal(s: seq<uint64>, d: int, hi: nat)
    ensures WindowTotal(s, d, hi) == Total(s[Below(s, d)..Reach(s, d, hi)])
  {
    if hi > 0 {
      WindowIsTotal(s, d, hi - 1);
      var k := hi - 1 - d;
      if Below(s, d) <= k < |s| {
        TotalSnoc(s, Below(s, d), k);
      }
    }
  }

  /** Adding place by place with uint64 addition adds the totals, modulo 2^64. */
  lemma {:induction false} WindowsAddUp(c: seq<uint64>, t: seq<uint64>, s: seq<uint64>, d: int, hi: nat)
    requires forall j: nat :: At(c, j) == Add64(At(t, j), Shifted(s, d, j))
    ensures Congruent64(WindowTotal(c, 0, hi), WindowTotal(t, 0, hi) + WindowTotal(s, d, hi))
  {
    if hi == 0 {
      CongruentSelf(0);
    } else {
      WindowsAddUp(c, t, s, d, hi - 1);
      CongruentAdd64(At(t, hi - 1), Shifted(s, d, hi - 1));
      CongruentSum(WindowTotal(c, 0, hi - 1), WindowTotal(t, 0, hi - 1) + WindowTotal(s, d, hi - 1),
        At(c, hi - 1), At(t, hi - 1) + Shifted(s, d, hi - 1));
    }
  }

  lemma WideWindowIsTotal(s: seq<uint64>, d: int, hi: nat)
    requires hi >= |s| + if d < 0 then 0 else d
    ensures WindowTotal(s, d, hi) == Total(s[Below(s, d)..])
  {
    WindowIsTotal(s, d, hi);
    assert s[Below(s, d)..|s|] == s[Below(s, d)..];
  }

  lemma PlacedTotal(c: seq<uint64>, t: seq<uint64>, s: seq<uint64>, d: int)
    requires forall j: nat :: At(c, j) == Add64(At(t, j), Shifted(s, d, j))
    ensures Congruent64(Total(c), Total(t) + Total(s[Below(s, d)..]))
  {
    var hi := |c| + |t| + |s| + if d < 0 then 0 else d;
    WindowsAddUp(c, t, s, d, hi);
    WideWindowIsTotal(c, 0, hi);
    WideWindowIsTotal(t, 0, hi);
    WideWindowIsTotal(s, d, hi);
    assert c[0..] == c && t[0..] == t;
  }

  /**
   * The number of leading source counters that the merge drops: those placed below the target's start by an int32 wrap.
   */
  function Dropped(t: Buckets, s: Buckets): nat {
    if s.offset <= t.offset then 0 else Below(s.counts, SubInt32(s.offset, t.offset))
  }

  /** Whatever the offsets, a merge adds the totals of the target and of the source counters it does not drop. */
  lemma MergeAddsTotals(t: Buckets, s: Buckets)
    ensures Congruent64(Total(MergeBuckets(t, s).counts), Total(t.counts) + Total(s.counts[Dropped(t, s)..]))
  {
    var c := MergedCounts(t.counts, s.counts, t.offset, s.offset);
    TotalTrimmed(c);
    if s.offset < t.offset {
      TotalNonZero(s.counts);
      TotalConcat(NonZero(s.counts), t.counts);
      assert s.counts[0..] == s.counts;
      CongruentSelf(Total(c));
    } else {
      var d := if s.offset == t.offset then 0 else SubInt32(s.offset, t.offset);
      forall j: nat
        ensures At(c, j) == Add64(At(t.counts, j), Shifted(s.counts, d, j))
      {
        if s.offset > t.offset {
          RaisedCounts(t, s, j);
        }
      }
      PlacedTotal(c, t.counts, s.counts, d);
    }
  }

  /**
   * No count is dropped unless the offset difference wraps int32; then the lost total is that of the dropped counters.
   */
  lemma DropsOnlyOnWrap(t: Buckets, s: Buckets)
    ensures Dropped(t, s) > 0 <==> s.offset - t.offset >= 0x8000_0000 && s.counts != []
    ensures Total(s.counts) == Total(s.counts[..Dropped(t, s)]) + Total(s.counts[Dropped(t, s)..])
  {
    TotalConcat(s.counts[..Dropped(t, s)], s.counts[Dropped(t, s)..]);
    assert s.counts[..Dropped(t, s)] + s.counts[Dropped(t, s)..] == s.counts;
  }

  /** The merge keeps the joint total, modulo 2^64, if and only if the dropped counters sum to a multiple of 2^64. */
  lemma MergeConservesTotal(t: Buckets, s: Buckets)
    ensures Congruent64(Total(MergeBuckets(t, s).counts), Total(t.counts) + Total(s.counts)) <==>
            Congruent64(Total(s.counts[..Dropped(t, s)]), 0)
  {
    MergeAddsTotals(t, s);
    DropsOnlyOnWrap(t, s);
    CongruentRemainder(Total(MergeBuckets(t, s).counts), Total(t.counts) + Total(s.counts[Dropped(t, s)..]),
      Total(s.counts[..Dropped(t, s)]));
  }

  lemma CongruentRemainder(r: int, kept: int, lost: int)
    requires Congruent64(r, kept)
    ensures Congruent64(r, kept + lost) <==> Congruent64(lost, 0)
  {
    var q: int :| r == kept + Laps(q);
    if Congruent64(r, kept + lost) {
      var p: int :| r == kept + lost + Laps(p);
      CongruentBy(lost, 0, q - p);
    }
    if Congruent64(lost, 0) {
      var p: int :| lost == 0 + Laps(p);
      CongruentBy(r, kept + lost, q - p);
    }
  }

  /** An int32 wrap that loses a count. */
  lemma WrapLosesACount()
    ensures var t, s := Buckets(-2, [1]), Buckets(0x7FFF_FFFF, [1]); MergeBuckets(t, s) == t
  {
    var t, s := Buckets(-2, [1]), Buckets(0x7FFF_FFFF, [1]);
    assert [1][..0] == [];
    assert ReachedLength(1, [], SubInt32(0x7FFF_FFFF, -2)) == 1;
    assert MergedCounts(t.counts, s.counts, t.offset, s.offset) == [1];
  }
}
