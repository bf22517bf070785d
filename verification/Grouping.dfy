// Lists grouped by a key, as the client groups messages per peer and the
// archive viewer groups them per sender.
module Grouping {
  import opened Sorting

  /** The elements with key k, in their original order. */
  function Bucket<T, K(==)>(key: T -> K, xs: seq<T>, k: K): seq<T>
  {
    if xs == [] then []
    else
      var rest := Bucket(key, xs[..|xs| - 1], k);
      if key(xs[|xs| - 1]) == k then rest + [xs[|xs| - 1]] else rest
  }

  /** The buckets one after another, each sorted by rank. */
  function Grouped<T, K(==)>(key: T -> K, rank: T -> int, xs: seq<T>, order: seq<K>): seq<T>
  {
    if order == [] then []
    else Grouped(key, rank, xs, order[..|order| - 1]) + Sort(rank, Bucket(key, xs, order[|order| - 1]))
  }

  lemma BucketGrows<T, K>(key: T -> K, xs: seq<T>, i: nat, k: K)
    requires i < |xs|
    ensures Bucket(key, xs[..i + 1], k)
         == if key(xs[i]) == k then Bucket(key, xs[..i], k) + [xs[i]] else Bucket(key, xs[..i], k)
  {
    assert xs[..i + 1][..i] == xs[..i];
  }

  /** The entry of one key, once the elements xs have been put in. */
  ghost predicate Filled<T, K>(key: T -> K, xs: seq<T>, groups: map<K, seq<T>>, k: K)
  {
    if k in groups then groups[k] == Bucket(key, xs, k) && groups[k] != [] else Bucket(key, xs, k) == []
  }
  lemma FilledGrows<T, K>(key: T -> K, xs: seq<T>, i: nat, groups: map<K, seq<T>>, k: K)
    requires i < |xs| && Filled(key, xs[..i], groups, k)
    ensures var k0 := key(xs[i]);
      Filled(key, xs[..i + 1], groups[k0 := (if k0 in groups then groups[k0] else []) + [xs[i]]], k)
  {
    BucketGrows(key, xs, i, k);
  }

  /** The dictionary from key to elements, filled element by element, with its insertion order. */
  method GroupBy<T, K(==)>(key: T -> K, xs: seq<T>) returns (order: seq<K>, groups: map<K, seq<T>>)
    ensures NoRepeats(order) && groups.Keys == set k | k in order
    ensures forall k :: k in groups ==> groups[k] == Bucket(key, xs, k) && groups[k] != []
    ensures forall x :: x in xs ==> key(x) in order
  {
    order, groups := [], map[];
    for i := 0 to |xs|
      invariant NoRepeats(order) && groups.Keys == set k | k in order
      invariant forall k :: Filled(key, xs[..i], groups, k)
      invariant forall j :: 0 <= j < i ==> key(xs[j]) in order
    {
      var k := key(xs[i]);
      ghost var after := groups[k := (if k in groups then groups[k] else []) + [xs[i]]];
      ghost var seen := xs[..i + 1];
      forall other ensures Filled(key, seen, after, other) {
        FilledGrows(key, xs, i, groups, other);
      }
      if k !in groups {
        order, groups := order + [k], groups[k := []];
      }
      groups := groups[k := groups[k] + [xs[i]]];
      assert groups == after;
    }
    assert xs[..|xs|] == xs;
    forall k | k in groups ensures groups[k] == Bucket(key, xs, k) && groups[k] != [] {
      assert Filled(key, xs, groups, k);
    }
  }

  ghost predicate NoRepeats<K>(ks: seq<K>)
  {
    forall i, j :: 0 <= i < j < |ks| ==> ks[i] != ks[j]
  }

  /** The elements whose key is one of ks. */
  ghost function Keep<T, K>(key: T -> K, xs: seq<T>, ks: seq<K>): seq<T>
  {
    if xs == [] then []
    else
      var rest := Keep(key, xs[..|xs| - 1], ks);
      if key(xs[|xs| - 1]) in ks then rest + [xs[|xs| - 1]] else rest
  }

  lemma InOrder<K>(order: seq<K>, k: K)
    requires NoRepeats(order) && order != []
    ensures k in order <==> k in order[..|order| - 1] || k == order[|order| - 1]
    ensures k in order[..|order| - 1] ==> k != order[|order| - 1]
    ensures NoRepeats(order[..|order| - 1])
  {
    assert order == order[..|order| - 1] + [order[|order| - 1]];
  }

  lemma {:induction false} KeepSplits<T, K>(key: T -> K, xs: seq<T>, order: seq<K>)
    requires NoRepeats(order) && order != []
    ensures multiset(Keep(key, xs, order))
         == multiset(Keep(key, xs, order[..|order| - 1])) + multiset(Bucket(key, xs, order[|order| - 1]))
  {
    if xs != [] {
      KeepSplits(key, xs[..|xs| - 1], order);
      InOrder(order, key(xs[|xs| - 1]));
    }
  }

  lemma {:induction false} KeepNothing<T, K>(key: T -> K, xs: seq<T>)
    ensures Keep(key, xs, []) == []
  {
    if xs != [] {
      KeepNothing(key, xs[..|xs| - 1]);
    }
  }

  lemma {:induction false} KeepAll<T, K>(key: T -> K, xs: seq<T>, order: seq<K>)
    requires forall x :: x in xs ==> key(x) in order
    ensures Keep(key, xs, order) == xs
  {
    if xs != [] {
      KeepAll(key, xs[..|xs| - 1], order);
    }
  }

  lemma {:induction false} GroupedKeeps<T, K>(key: T -> K, rank: T -> int, xs: seq<T>, order: seq<K>)
    requires NoRepeats(order)
    ensures multiset(Grouped(key, rank, xs, order)) == multiset(Keep(key, xs, order))
  {
    if order == [] {
      KeepNothing(key, xs);
    } else {
      InOrder(order, order[0]);
      GroupedKeeps(key, rank, xs, order[..|order| - 1]);
      KeepSplits(key, xs, order);
      SortSorts(rank, Bucket(key, xs, order[|order| - 1]));
    }
  }

  /** When every key occurring is visited once, grouping loses and repeats nothing. */
  lemma GroupingPartitions<T, K>(key: T -> K, rank: T -> int, xs: seq<T>, order: seq<K>)
    requires NoRepeats(order) && forall x :: x in xs ==> key(x) in order
    ensures multiset(Grouped(key, rank, xs, order)) == multiset(xs)
  {
    GroupedKeeps(key, rank, xs, order);
    KeepAll(key, xs, order);
  }

  lemma {:induction false} BucketMembers<T, K>(key: T -> K, xs: seq<T>, k: K, x: T)
    ensures x in Bucket(key, xs, k) <==> x in xs && key(x) == k
  {
    if xs != [] {
      BucketMembers(key, xs[..|xs| - 1], k, x);
      assert xs == xs[..|xs| - 1] + [xs[|xs| - 1]];
    }
  }

  lemma GroupedNone<T, K>(key: T -> K, rank: T -> int, xs: seq<T>)
    ensures Grouped(key, rank, xs, []) == []
  {
  }

  lemma GroupedSnoc<T, K>(key: T -> K, rank: T -> int, xs: seq<T>, order: seq<K>, i: nat)
    requires i < |order|
    ensures Grouped(key, rank, xs, order[..i + 1])
         == Grouped(key, rank, xs, order[..i]) + Sort(rank, Bucket(key, xs, order[i]))
  {
    assert order[..i + 1][..i] == order[..i];
  }

  lemma SortedBucketMembers<T, K>(key: T -> K, rank: T -> int, xs: seq<T>, k: K, x: T)
    ensures x in Sort(rank, Bucket(key, xs, k)) <==> x in xs && key(x) == k
  {
    SortSorts(rank, Bucket(key, xs, k));
    assert x in Sort(rank, Bucket(key, xs, k)) <==> x in multiset(Bucket(key, xs, k));
    BucketMembers(key, xs, k, x);
  }

  lemma SortedBucketWithin<T, K>(key: T -> K, rank: T -> int, xs: seq<T>, k: K)
    ensures forall x :: x in Sort(rank, Bucket(key, xs, k)) ==> x in xs
  {
    forall x | x in Sort(rank, Bucket(key, xs, k)) ensures x in xs {
      SortedBucketMembers(key, rank, xs, k, x);
    }
  }

  lemma GroupedMembers<T, K>(key: T -> K, rank: T -> int, xs: seq<T>, order: seq<K>, x: T)
    requires NoRepeats(order)
    ensures x in Grouped(key, rank, xs, order) <==> x in xs && key(x) in order
  {
    if order == [] {
    } else {
      var k := order[|order| - 1];
      InOrder(order, key(x));
      GroupedMembers(key, rank, xs, order[..|order| - 1], x);
      SortedBucketMembers(key, rank, xs, k, x);
    }
  }

  /** Elements with one key come out in ascending rank. */
  lemma {:induction false} GroupedAscending<T, K>(key: T -> K, rank: T -> int, xs: seq<T>, order: seq<K>, i: nat,
                                                  j: nat)
    requires NoRepeats(order) && i < j < |Grouped(key, rank, xs, order)|
    requires key(Grouped(key, rank, xs, order)[i]) == key(Grouped(key, rank, xs, order)[j])
    ensures rank(Grouped(key, rank, xs, order)[i]) <= rank(Grouped(key, rank, xs, order)[j])
  {
    var init, k := order[..|order| - 1], order[|order| - 1];
    var a, b := Grouped(key, rank, xs, init), Sort(rank, Bucket(key, xs, k));
    InOrder(order, k);
    if j < |a| {
      GroupedAscending(key, rank, xs, init, i, j);
    } else if i < |a| {
      GroupedMembers(key, rank, xs, init, a[i]);
      SortedBucketMembers(key, rank, xs, k, b[j - |a|]);
      assert false;
    } else {
      SortSorts(rank, Bucket(key, xs, k));
    }
  }

  lemma {:induction false} NoRepeatsCounts<T>(xs: seq<T>, x: T)
    requires NoRepeats(xs)
    ensures multiset(xs)[x] <= 1
  {
    if xs != [] {
      NoRepeatsCounts(xs[..|xs| - 1], x);
      assert xs == xs[..|xs| - 1] + [xs[|xs| - 1]];
      if multiset(xs[..|xs| - 1])[x] > 0 {
        assert x in xs[..|xs| - 1];
      }
    }
  }

  lemma RepeatCounts<T>(xs: seq<T>, i: nat, j: nat)
    requires i < j < |xs| && xs[i] == xs[j]
    ensures multiset(xs)[xs[i]] >= 2
  {
    assert xs == xs[..j] + [xs[j]] + xs[j + 1..];
    assert xs[i] in xs[..j];
  }

  lemma PermutationKeepsNoRepeats<T>(xs: seq<T>, ys: seq<T>)
    requires NoRepeats(xs) && multiset(xs) == multiset(ys)
    ensures NoRepeats(ys)
  {
    forall i, j | 0 <= i < j < |ys| ensures ys[i] != ys[j] {
      NoRepeatsCounts(xs, ys[i]);
      if ys[i] == ys[j] {
        RepeatCounts(ys, i, j);
      }
    }
  }

  lemma {:induction false} BucketNoRepeats<T, K>(key: T -> K, xs: seq<T>, k: K)
    requires NoRepeats(xs)
    ensures NoRepeats(Bucket(key, xs, k))
  {
    if xs != [] {
      var init, last := xs[..|xs| - 1], xs[|xs| - 1];
      BucketNoRepeats(key, init, k);
      BucketMembers(key, init, k, last);
      assert last !in init;
    }
  }
}
