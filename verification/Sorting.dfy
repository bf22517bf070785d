// Stable sorting by an integer key, as list.sort(key=...) and Array.prototype.sort do it.
module Sorting {
  /** Insert after every element whose key is not larger. */
  function Insert<T>(key: T -> int, x: T, xs: seq<T>): seq<T>
  {
    if xs == [] || key(xs[|xs| - 1]) <= key(x) then xs + [x]
    else Insert(key, x, xs[..|xs| - 1]) + [xs[|xs| - 1]]
  }

  function Sort<T>(key: T -> int, xs: seq<T>): seq<T>
  {
    if xs == [] then [] else Insert(key, xs[|xs| - 1], Sort(key, xs[..|xs| - 1]))
  }

  ghost predicate Sorted<T>(key: T -> int, xs: seq<T>)
  {
    forall i, j :: 0 <= i < j < |xs| ==> key(xs[i]) <= key(xs[j])
  }

  lemma {:induction false} InsertPermutes<T>(key: T -> int, x: T, xs: seq<T>)
    ensures multiset(Insert(key, x, xs)) == multiset(xs) + multiset{x}
  {
    if xs != [] && key(xs[|xs| - 1]) > key(x) {
      InsertPermutes(key, x, xs[..|xs| - 1]);
      assert xs == xs[..|xs| - 1] + [xs[|xs| - 1]];
    }
  }

  lemma SortedInit<T>(key: T -> int, xs: seq<T>)
    requires Sorted(key, xs) && xs != []
    ensures Sorted(key, xs[..|xs| - 1])
    ensures forall y :: y in xs ==> key(y) <= key(xs[|xs| - 1])
  {
  }

  lemma SortedSnoc<T>(key: T -> int, xs: seq<T>, x: T)
    requires Sorted(key, xs) && forall y :: y in xs ==> key(y) <= key(x)
    ensures Sorted(key, xs + [x])
  {
  }

  lemma {:induction false} InsertSorts<T>(key: T -> int, x: T, xs: seq<T>)
    requires Sorted(key, xs)
    ensures Sorted(key, Insert(key, x, xs))
  {
    if xs == [] {
      SortedSnoc(key, xs, x);
    } else {
      var init, last := xs[..|xs| - 1], xs[|xs| - 1];
      SortedInit(key, xs);
      if key(last) <= key(x) {
        SortedSnoc(key, xs, x);
      } else {
        InsertSorts(key, x, init);
        InsertPermutes(key, x, init);
        forall y | y in Insert(key, x, init) ensures key(y) <= key(last) {
          assert y in multiset(Insert(key, x, init));
          assert y == x || y in init;
        }
        SortedSnoc(key, Insert(key, x, init), last);
      }
    }
  }

  lemma {:induction false} SortSorts<T>(key: T -> int, xs: seq<T>)
    ensures Sorted(key, Sort(key, xs))
    ensures multiset(Sort(key, xs)) == multiset(xs)
    ensures |Sort(key, xs)| == |xs|
  {
    if xs != [] {
      SortSorts(key, xs[..|xs| - 1]);
      InsertSorts(key, xs[|xs| - 1], Sort(key, xs[..|xs| - 1]));
      InsertPermutes(key, xs[|xs| - 1], Sort(key, xs[..|xs| - 1]));
      assert xs == xs[..|xs| - 1] + [xs[|xs| - 1]];
    }
    assert |multiset(Sort(key, xs))| == |multiset(xs)|;
  }

  lemma {:induction false} SortOfSorted<T>(key: T -> int, xs: seq<T>)
    requires Sorted(key, xs)
    ensures Sort(key, xs) == xs
  {
    if xs != [] {
      var init := xs[..|xs| - 1];
      SortedInit(key, xs);
      SortOfSorted(key, init);
      assert init != [] ==> init[|init| - 1] in xs;
      assert Insert(key, xs[|xs| - 1], init) == init + [xs[|xs| - 1]];
    }
  }

  /** Two sorted lists merged, the first list going first on equal keys. */
  function Merge<T>(key: T -> int, a: seq<T>, b: seq<T>): seq<T>
  {
    if a == [] then b
    else if b == [] then a
    else if key(a[0]) <= key(b[0]) then [a[0]] + Merge(key, a[1..], b)
    else [b[0]] + Merge(key, a, b[1..])
  }

  lemma InsertFront<T>(key: T -> int, x: T, y: T, xs: seq<T>)
    requires key(y) <= key(x)
    ensures Insert(key, x, [y] + xs) == [y] + Insert(key, x, xs)
  {
    if xs == [] {
      assert [y] + [] == [y];
    } else {
      var ys := [y] + xs;
      assert ys[|ys| - 1] == xs[|xs| - 1];
      if key(xs[|xs| - 1]) <= key(x) {
        assert ys + [x] == [y] + (xs + [x]);
      } else {
        InsertFront(key, x, y, xs[..|xs| - 1]);
        assert ys[..|ys| - 1] == [y] + xs[..|xs| - 1];
        assert [y] + Insert(key, x, xs[..|xs| - 1]) + [xs[|xs| - 1]]
            == [y] + (Insert(key, x, xs[..|xs| - 1]) + [xs[|xs| - 1]]);
      }
    }
  }

  lemma {:induction false} InsertAll<T>(key: T -> int, x: T, xs: seq<T>)
    requires Sorted(key, xs) && forall y :: y in xs ==> key(x) < key(y)
    ensures Insert(key, x, xs) == [x] + xs
  {
    if xs != [] {
      var init := xs[..|xs| - 1];
      InsertAll(key, x, init);
      assert [x] + init + [xs[|xs| - 1]] == [x] + xs;
    }
  }

  lemma {:induction false} MergeSnoc<T>(key: T -> int, a: seq<T>, b: seq<T>, x: T)
    requires Sorted(key, a) && Sorted(key, b + [x])
    ensures Insert(key, x, Merge(key, a, b)) == Merge(key, a, b + [x])
    decreases |a| + |b|
  {
    var bx := b + [x];
    forall i | 0 <= i < |b| ensures key(b[i]) <= key(x) {
      assert bx[i] == b[i] && bx[|b|] == x;
    }
    if a == [] {
      assert b != [] ==> key(b[|b| - 1]) <= key(x);
    } else if b == [] {
      assert [] + [x] == [x];
      if key(a[0]) <= key(x) {
        MergeSnoc(key, a[1..], [], x);
        InsertFront(key, x, a[0], a[1..]);
        assert [a[0]] + a[1..] == a;
        assert Merge(key, a[1..], []) == a[1..];
      } else {
        InsertAll(key, x, a);
        assert Merge(key, a, [x]) == [x] + Merge(key, a, []);
      }
    } else if key(a[0]) <= key(b[0]) {
      MergeSnoc(key, a[1..], b, x);
      InsertFront(key, x, a[0], Merge(key, a[1..], b));
      assert (b + [x])[0] == b[0];
    } else {
      assert (b + [x])[1..] == b[1..] + [x];
      MergeSnoc(key, a, b[1..], x);
      InsertFront(key, x, b[0], Merge(key, a, b[1..]));
    }
  }

  /** Stable-sorting the concatenation of two sorted lists is merging them. */
  lemma {:induction false} SortConcat<T>(key: T -> int, a: seq<T>, b: seq<T>)
    requires Sorted(key, a) && Sorted(key, b)
    ensures Sort(key, a + b) == Merge(key, a, b)
  {
    if b == [] {
      SortOfSorted(key, a);
      assert a + b == a;
    } else {
      var init, x := b[..|b| - 1], b[|b| - 1];
      SortConcat(key, a, init);
      assert (a + b)[..|a + b| - 1] == a + init;
      assert b == init + [x];
      MergeSnoc(key, a, init, x);
    }
  }
}
