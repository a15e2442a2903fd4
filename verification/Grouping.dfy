/**
 * Grouping data points by key and running over the groups in Go's unspecified map order
 * (the group* and merge* loops of aggregate.go), for any kind of point.
 */
module Grouping {
  import opened MachineInts

  /** The start time as part of a group key: present only for delta temporality. */
  datatype Start = NoStart | StartAt(time: uint64)

  /** The points collected under a key so far. */
  function GroupOf<K, P>(groups: map<K, seq<P>>, k: K): seq<P> {
    if k in groups then groups[k] else []
  }

  /** The points that have key k, in order. */
  function WithKey<K(==), P>(points: seq<P>, key: P -> K, k: K): seq<P> {
    if points == [] then []
    else WithKey(points[..|points| - 1], key, k) + if key(points[|points| - 1]) == k then [points[|points| - 1]] else []
  }

  /** The groups after appending each point to the group of its key. */
  function Grouped<K, P>(groups: map<K, seq<P>>, points: seq<P>, key: P -> K): map<K, seq<P>> {
    if points == [] then groups
    else
      var g := Grouped(groups, points[..|points| - 1], key);
      var p := points[|points| - 1];
      g[key(p) := GroupOf(g, key(p)) + [p]]
  }

  /** The group maps that one aggregation fills, metric after metric. */
  class AggGroups<K(==), P> {
    var groups: map<K, seq<P>>

    constructor ()
      ensures groups == map[]
    {
      groups := map[];
    }

    method GroupPoints(points: seq<P>, key: P -> K)
      modifies this
      ensures groups == Grouped(old(groups), points, key)
    {
      var i := 0;
      while i < |points|
        invariant 0 <= i <= |points|
        invariant groups == Grouped(old(groups), points[..i], key)
      {
        assert points[..i + 1][..i] == points[..i];
        var k := key(points[i]);
        if k !in groups {
          groups := groups[k := []];
        }
        groups := groups[k := groups[k] + [points[i]]];
        i := i + 1;
      }
      assert points[..i] == points;
    }
  }

  /**
   * Grouping partitions the points: each group gains exactly the points of its key, in order, and no group is empty.
   */
  lemma {:induction false} GroupsPartition<K, P>(groups: map<K, seq<P>>, points: seq<P>, key: P -> K, k: K)
    ensures GroupOf(Grouped(groups, points, key), k) == GroupOf(groups, k) + WithKey(points, key, k)
    ensures k in Grouped(groups, points, key) <==> k in groups || WithKey(points, key, k) != []
  {
    if points != [] {
      GroupsPartition(groups, points[..|points| - 1], key, k);
    }
  }

  /** A group holds points of the input with the group's key. */
  lemma {:induction false} WithKeyMembers<K, P>(points: seq<P>, key: P -> K, k: K)
    ensures forall p :: p in WithKey(points, key, k) ==> p in points && key(p) == k
  {
    if points != [] {
      WithKeyMembers(points[..|points| - 1], key, k);
    }
  }

  /** Two points of the input end up in one group exactly when their keys are equal. */
  lemma SharedGroup<K, P>(points: seq<P>, key: P -> K, p: P, q: P)
    requires p in points && q in points
    ensures var groups := Grouped(map[], points, key);
      (exists k :: k in groups && p in groups[k] && q in groups[k]) <==> key(p) == key(q)
  {
    var groups := Grouped(map[], points, key);
    forall k | k in groups ensures groups[k] == WithKey(points, key, k) {
      GroupsPartition(map[], points, key, k);
    }
    if k :| k in groups && p in groups[k] && q in groups[k] {
      WithKeyMembers(points, key, k);
    }
    if key(p) == key(q) {
      GroupsPartition(map[], points, key, key(p));
      InWithKey(points, key, p);
      InWithKey(points, key, q);
      assert p in groups[key(p)] && q in groups[key(p)];
    }
  }

  lemma {:induction false} InWithKey<K, P>(points: seq<P>, key: P -> K, p: P)
    requires p in points
    ensures p in WithKey(points, key, key(p))
    decreases |points|
  {
    var init, last := points[..|points| - 1], points[|points| - 1];
    assert points == init + [last];
    if p != last {
      InWithKey(init, key, p);
    }
  }

  // ------------------------------------------------------------------- totals

  /** A whole and a fractional amount, added separately: integer and floating-point values side by side. */
  datatype Amount = Amount(i: int, d: real)

  const ZERO := Amount(0, 0.0)

  function Plus(a: Amount, b: Amount): Amount {
    Amount(a.i + b.i, a.d + b.d)
  }

  function SumOf<P>(points: seq<P>, f: P -> Amount): Amount {
    if points == [] then ZERO else Plus(SumOf(points[..|points| - 1], f), f(points[|points| - 1]))
  }

  lemma SumOfPrefix<P>(points: seq<P>, i: nat, f: P -> Amount)
    requires i < |points|
    ensures SumOf(points[..i + 1], f) == Plus(SumOf(points[..i], f), f(points[i]))
  {
    assert points[..i + 1] == points[..i] + [points[i]];
    SumOfSnoc(points[..i], points[i], f);
  }

  /** The sum over all groups, the groups taken in the given order. */
  function GrandTotal<K, P>(order: seq<K>, groups: map<K, seq<P>>, f: P -> Amount): Amount {
    if order == [] then ZERO
    else Plus(GrandTotal(order[..|order| - 1], groups, f), SumOf(GroupOf(groups, order[|order| - 1]), f))
  }

  ghost predicate NoRepeats<K>(order: seq<K>) {
    forall i, j :: 0 <= i < j < |order| ==> order[i] != order[j]
  }

  /** The order visits exactly the given keys, each once: what a Go map iteration promises. */
  ghost predicate Enumerates<K>(order: seq<K>, keys: set<K>) {
    NoRepeats(order) && (forall k :: k in order ==> k in keys) && (forall k :: k in keys ==> k in order)
  }

  lemma SumOfSnoc<P>(points: seq<P>, p: P, f: P -> Amount)
    ensures SumOf(points + [p], f) == Plus(SumOf(points, f), f(p))
  {
    assert (points + [p])[..|points|] == points;
  }

  lemma OtherLast<K>(order: seq<K>, k: K)
    requires k in order && order[|order| - 1] != k
    ensures k in order[..|order| - 1]
  {
    var i :| 0 <= i < |order| && order[i] == k;
    assert order[..|order| - 1][i] == k;
  }

  lemma {:induction false} GrandTotalIgnores<K, P>(order: seq<K>, g: map<K, seq<P>>, k: K, group: seq<P>,
                                                   f: P -> Amount)
    requires k !in order
    ensures GrandTotal(order, g[k := group], f) == GrandTotal(order, g, f)
  {
    if order != [] {
      GrandTotalIgnores(order[..|order| - 1], g, k, group, f);
      assert GroupOf(g[k := group], order[|order| - 1]) == GroupOf(g, order[|order| - 1]);
    }
  }

  lemma GrandTotalGainsLast<K, P>(init: seq<K>, g: map<K, seq<P>>, k: K, p: P, f: P -> Amount)
    requires k !in init
    ensures GrandTotal(init + [k], g[k := GroupOf(g, k) + [p]], f) == Plus(GrandTotal(init + [k], g, f), f(p))
  {
    assert (init + [k])[..|init|] == init;
    GrandTotalIgnores(init, g, k, GroupOf(g, k) + [p], f);
    SumOfSnoc(GroupOf(g, k), p, f);
  }

  lemma {:induction false} GrandTotalGains<K, P>(order: seq<K>, g: map<K, seq<P>>, k: K, p: P, f: P -> Amount)
    requires NoRepeats(order) && k in order
    ensures GrandTotal(order, g[k := GroupOf(g, k) + [p]], f) == Plus(GrandTotal(order, g, f), f(p))
  {
    var init, last := order[..|order| - 1], order[|order| - 1];
    if last == k {
      assert order == init + [k];
      GrandTotalGainsLast(init, g, k, p, f);
    } else {
      OtherLast(order, k);
      GrandTotalGains(init, g, k, p, f);
      assert GroupOf(g[k := GroupOf(g, k) + [p]], last) == GroupOf(g, last);
    }
  }

  lemma {:induction false} GrandTotalOfNothing<K, P>(order: seq<K>, f: P -> Amount)
    ensures GrandTotal(order, map[], f) == ZERO
  {
    if order != [] {
      GrandTotalOfNothing(order[..|order| - 1], f);
    }
  }

  /** In whatever order the groups are visited, their totals add up to the total of the input. */
  lemma {:induction false} GroupTotalsAddUp<K, P>(order: seq<K>, points: seq<P>, key: P -> K, f: P -> Amount)
    requires NoRepeats(order)
    requires forall p :: p in points ==> key(p) in order
    ensures GrandTotal(order, Grouped(map[], points, key), f) == SumOf(points, f)
  {
    if points == [] {
      GrandTotalOfNothing<K, P>(order, f);
    } else {
      var init, last := points[..|points| - 1], points[|points| - 1];
      GroupTotalsAddUp(order, init, key, f);
      GrandTotalGains(order, Grouped(map[], init, key), key(last), last, f);
    }
  }

  /** An enumeration of the groups covers the key of every point. */
  lemma EnumerationCovers<K, P>(order: seq<K>, points: seq<P>, key: P -> K)
    requires Enumerates(order, Grouped(map[], points, key).Keys)
    ensures forall p :: p in points ==> key(p) in order
  {
    forall p | p in points ensures key(p) in order {
      KeyIsGrouped(points, key, p);
    }
  }

  lemma {:induction false} KeyIsGrouped<K, P>(points: seq<P>, key: P -> K, p: P)
    requires p in points
    ensures key(p) in Grouped(map[], points, key)
  {
    var init, last := points[..|points| - 1], points[|points| - 1];
    assert points == init + [last];
    if p in init {
      KeyIsGrouped(init, key, p);
    }
  }

  lemma {:induction false} SumOfWithout<P>(points: seq<P>, i: nat, f: P -> Amount)
    requires i < |points|
    ensures SumOf(points, f) == Plus(SumOf(points[..i] + points[i + 1..], f), f(points[i]))
  {
    var last := |points| - 1;
    if i == last {
      assert points[..i] + points[i + 1..] == points[..last];
    } else {
      SumOfWithout(points[..last], i, f);
      assert points[..last][..i] + points[..last][i + 1..] == points[..i] + points[i + 1..last];
      assert points[..i] + points[i + 1..] == (points[..i] + points[i + 1..last]) + [points[last]];
      SumOfSnoc(points[..i] + points[i + 1..last], points[last], f);
    }
  }

  lemma RemoveOne<P>(points: seq<P>, i: nat)
    requires i < |points|
    ensures multiset(points[..i] + points[i + 1..]) == multiset(points) - multiset{points[i]}
  {
    assert points == points[..i] + ([points[i]] + points[i + 1..]);
    assert multiset([points[i]] + points[i + 1..]) == multiset{points[i]} + multiset(points[i + 1..]);
  }

  /** A sum does not depend on the order of its terms. */
  lemma {:induction false} SumOfIsOrderFree<P>(a: seq<P>, b: seq<P>, f: P -> Amount)
    requires multiset(a) == multiset(b)
    ensures SumOf(a, f) == SumOf(b, f)
  {
    if a == [] {
      assert |multiset(b)| == 0;
    } else {
      var init, last := a[..|a| - 1], a[|a| - 1];
      assert a == init + [last];
      assert last in multiset(b);
      var i :| 0 <= i < |b| && b[i] == last;
      RemoveOne(b, i);
      RemoveOne(a, |init|);
      assert a[..|init|] + a[|init| + 1..] == init;
      SumOfWithout(b, i, f);
      SumOfIsOrderFree(init, b[..i] + b[i + 1..], f);
    }
  }
}
