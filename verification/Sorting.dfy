/**
 * Sorting numbers as a specification: the sorted list is determined by the multiset of elements.
 * Elements compare by a rank on the real line, so that one definition serves int64 and float64.
 */
module Sorting {
  predicate Sorted<T>(s: seq<T>, rank: T -> real) {
    forall i, j :: 0 <= i < j < |s| ==> rank(s[i]) <= rank(s[j])
  }

  ghost predicate Injective<T(!new)>(rank: T -> real) {
    forall a, b :: rank(a) == rank(b) ==> a == b
  }

  function Insert<T>(x: T, s: seq<T>, rank: T -> real): seq<T> {
    if s == [] then [x]
    else if rank(x) <= rank(s[0]) then [x] + s
    else [s[0]] + Insert(x, s[1..], rank)
  }

  function Sort<T>(s: seq<T>, rank: T -> real): seq<T> {
    if s == [] then [] else Insert(s[0], Sort(s[1..], rank), rank)
  }

  lemma {:induction false} InsertReorders<T>(x: T, s: seq<T>, rank: T -> real)
    ensures multiset(Insert(x, s, rank)) == multiset(s) + multiset{x}
  {
    if s == [] {
    } else if rank(x) <= rank(s[0]) {
      assert multiset([x] + s) == multiset{x} + multiset(s);
    } else {
      InsertReorders(x, s[1..], rank);
      assert s == [s[0]] + s[1..];
    }
  }

  lemma {:induction false} InsertSorts<T>(x: T, s: seq<T>, rank: T -> real)
    requires Sorted(s, rank)
    ensures Sorted(Insert(x, s, rank), rank)
    ensures forall i :: 0 <= i < |Insert(x, s, rank)| ==> Insert(x, s, rank)[i] == x || Insert(x, s, rank)[i] in s
  {
    if s != [] && rank(x) > rank(s[0]) {
      InsertSorts(x, s[1..], rank);
    }
  }

  /** Sorting sorts and only reorders. */
  lemma {:induction false} SortSorts<T>(s: seq<T>, rank: T -> real)
    ensures Sorted(Sort(s, rank), rank) && multiset(Sort(s, rank)) == multiset(s)
    ensures |Sort(s, rank)| == |s|
  {
    if s != [] {
      SortSorts(s[1..], rank);
      InsertSorts(s[0], Sort(s[1..], rank), rank);
      InsertReorders(s[0], Sort(s[1..], rank), rank);
      assert s == [s[0]] + s[1..];
    }
    assert |multiset(s)| == |s| && |multiset(Sort(s, rank))| == |Sort(s, rank)|;
  }

  lemma HeadIsLeast<T>(s: seq<T>, rank: T -> real, x: T)
    requires Sorted(s, rank) && x in s
    ensures rank(s[0]) <= rank(x)
  {
    var i :| 0 <= i < |s| && s[i] == x;
  }

  lemma TailMultiset<T>(s: seq<T>)
    requires s != []
    ensures multiset(s[1..]) == multiset(s) - multiset{s[0]}
  {
    assert s == [s[0]] + s[1..];
  }

  lemma HeadsAgree<T(!new)>(a: seq<T>, b: seq<T>, rank: T -> real)
    requires Injective(rank) && Sorted(a, rank) && Sorted(b, rank) && multiset(a) == multiset(b) && a != [] && b != []
    ensures a[0] == b[0]
  {
    assert a[0] in multiset(b) && b[0] in multiset(a);
    HeadIsLeast(a, rank, b[0]);
    HeadIsLeast(b, rank, a[0]);
  }

  lemma {:induction false} SortedIsUnique<T(!new)>(a: seq<T>, b: seq<T>, rank: T -> real)
    requires Injective(rank) && Sorted(a, rank) && Sorted(b, rank) && multiset(a) == multiset(b)
    ensures a == b
  {
    assert |a| == |multiset(a)| == |multiset(b)| == |b|;
    if a != [] {
      HeadsAgree(a, b, rank);
      TailMultiset(a);
      TailMultiset(b);
      SortedIsUnique(a[1..], b[1..], rank);
    }
  }

  /** The sorted list depends on the multiset of elements only. */
  lemma SortIsOrderFree<T(!new)>(a: seq<T>, b: seq<T>, rank: T -> real)
    requires Injective(rank) && multiset(a) == multiset(b)
    ensures Sort(a, rank) == Sort(b, rank)
  {
    SortSorts(a, rank);
    SortSorts(b, rank);
    SortedIsUnique(Sort(a, rank), Sort(b, rank), rank);
  }

  /** The least element sorts first. */
  lemma LeastSortsFirst<T(!new)>(s: seq<T>, rank: T -> real, m: T)
    requires Injective(rank) && m in s && forall i :: 0 <= i < |s| ==> rank(m) <= rank(s[i])
    ensures |Sort(s, rank)| == |s| && Sort(s, rank)[0] == m
  {
    SortSorts(s, rank);
    var t := Sort(s, rank);
    assert m in multiset(t) && t[0] in multiset(s);
    HeadIsLeast(t, rank, m);
  }

  /** The greatest element sorts last. */
  lemma GreatestSortsLast<T(!new)>(s: seq<T>, rank: T -> real, m: T)
    requires Injective(rank) && m in s && forall i :: 0 <= i < |s| ==> rank(s[i]) <= rank(m)
    ensures |Sort(s, rank)| == |s| && Sort(s, rank)[|s| - 1] == m
  {
    SortSorts(s, rank);
    var t := Sort(s, rank);
    assert m in multiset(t) && t[|s| - 1] in multiset(s);
    var i :| 0 <= i < |t| && t[i] == m;
    assert i < |t| - 1 ==> rank(t[i]) <= rank(t[|t| - 1]);
  }
}
