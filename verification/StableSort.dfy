/**
 `Array.prototype.sort`: a stable sort by a strict weak order, and the laws the callers rely on.
 */
module StableSort {
  import opened Common

  /** `before(a, b)`: the comparator is negative. Ties are the pairs ordered neither way. */
  ghost predicate StrictWeakOrder<T(!new)>(before: (T, T) -> bool) {
    && (forall x :: !before(x, x))
    && (forall x, y, z :: before(x, y) && before(y, z) ==> before(x, z))
    && (forall x, y, z :: before(x, z) ==> before(x, y) || before(y, z))
  }

  ghost predicate Ordered<T>(before: (T, T) -> bool, xs: seq<T>) {
    forall i, j :: 0 <= i < j < |xs| ==> !before(xs[j], xs[i])
  }

  lemma NotBefore<T(!new)>(before: (T, T) -> bool, x: T, y: T, z: T)
    requires StrictWeakOrder(before) && !before(x, y) && !before(y, z)
    ensures !before(x, z)
  {
    assert before(x, z) ==> before(x, y) || before(y, z);
  }

  lemma Asymmetric<T(!new)>(before: (T, T) -> bool, x: T, y: T)
    requires StrictWeakOrder(before) && before(x, y)
    ensures !before(y, x)
  {
    assert before(y, x) ==> before(x, x);
  }

  /** Puts `x` behind everything it does not come before. */
  function Insert<T>(before: (T, T) -> bool, xs: seq<T>, x: T): (r: seq<T>)
    ensures |r| == |xs| + 1
  {
    if xs == [] then [x]
    else
      var last := xs[|xs| - 1];
      if before(x, last) then Insert(before, xs[..|xs| - 1], x) + [last]
      else xs + [x]
  }

  function Sort<T>(before: (T, T) -> bool, xs: seq<T>): (r: seq<T>)
    ensures |r| == |xs|
  {
    if xs == [] then []
    else Insert(before, Sort(before, xs[..|xs| - 1]), xs[|xs| - 1])
  }

  lemma {:induction false} InsertPermutes<T>(before: (T, T) -> bool, xs: seq<T>, x: T)
    ensures multiset(Insert(before, xs, x)) == multiset(xs) + multiset{x}
  {
    if xs != [] {
      assert xs == xs[..|xs| - 1] + [xs[|xs| - 1]];
      InsertPermutes(before, xs[..|xs| - 1], x);
    }
  }

  lemma {:induction false} SortPermutes<T>(before: (T, T) -> bool, xs: seq<T>)
    ensures multiset(Sort(before, xs)) == multiset(xs)
  {
    if xs != [] {
      var init := xs[..|xs| - 1];
      assert xs == init + [xs[|xs| - 1]];
      SortPermutes(before, init);
      InsertPermutes(before, Sort(before, init), xs[|xs| - 1]);
    }
  }

  lemma SortMembers<T(!new)>(before: (T, T) -> bool, xs: seq<T>)
    ensures forall x :: x in Sort(before, xs) <==> x in xs
  {
    SortPermutes(before, xs);
    forall x ensures x in Sort(before, xs) <==> x in xs {
      assert x in Sort(before, xs) <==> x in multiset(Sort(before, xs));
      assert x in xs <==> x in multiset(xs);
    }
  }

  lemma {:induction false} InsertOrders<T(!new)>(before: (T, T) -> bool, xs: seq<T>, x: T)
    requires StrictWeakOrder(before) && Ordered(before, xs)
    ensures Ordered(before, Insert(before, xs, x))
  {
    hide StrictWeakOrder;
    if xs != [] {
      var init, last := xs[..|xs| - 1], xs[|xs| - 1];
      if before(x, last) {
        InsertOrders(before, init, x);
        Asymmetric(before, x, last);
        var r := Insert(before, init, x);
        InsertPermutes(before, init, x);
        forall i | 0 <= i < |r| ensures !before(last, r[i]) {
          assert r[i] in multiset(r);
          assert r[i] == x || r[i] in init;
        }
      } else {
        forall i | 0 <= i < |xs| ensures !before(x, xs[i]) {
          if i < |xs| - 1 {
            NotBefore(before, x, last, xs[i]);
          }
        }
      }
    }
  }

  lemma {:induction false} SortOrders<T(!new)>(before: (T, T) -> bool, xs: seq<T>)
    requires StrictWeakOrder(before)
    ensures Ordered(before, Sort(before, xs))
  {
    if xs != [] {
      SortOrders(before, xs[..|xs| - 1]);
      InsertOrders(before, Sort(before, xs[..|xs| - 1]), xs[|xs| - 1]);
    }
  }

  lemma {:induction false} SortOrdered<T(!new)>(before: (T, T) -> bool, xs: seq<T>)
    requires Ordered(before, xs)
    ensures Sort(before, xs) == xs
  {
    if xs != [] {
      var init := xs[..|xs| - 1];
      SortOrdered(before, init);
      assert xs == init + [xs[|xs| - 1]];
    }
  }

  lemma FilterLast<T(!new)>(keep: T -> bool, xs: seq<T>)
    requires xs != []
    ensures var init, last := xs[..|xs| - 1], xs[|xs| - 1];
            Filter(keep, xs) == if keep(last) then Filter(keep, init) + [last] else Filter(keep, init)
  {
    assert xs == xs[..|xs| - 1] + [xs[|xs| - 1]];
    FilterConcat(keep, xs[..|xs| - 1], [xs[|xs| - 1]]);
  }

  lemma {:induction false} FilterKeepsOrder<T(!new)>(before: (T, T) -> bool, keep: T -> bool, xs: seq<T>)
    requires Ordered(before, xs)
    ensures Ordered(before, Filter(keep, xs))
  {
    if xs != [] {
      var init, last := xs[..|xs| - 1], xs[|xs| - 1];
      FilterKeepsOrder(before, keep, init);
      FilterLast(keep, xs);
      var r := Filter(keep, init);
      forall i | 0 <= i < |r| ensures !before(last, r[i]) {
        assert r[i] in init;
      }
    }
  }

  lemma {:induction false} FilterInsert<T(!new)>(before: (T, T) -> bool, keep: T -> bool, xs: seq<T>, x: T)
    requires StrictWeakOrder(before) && Ordered(before, xs)
    ensures Filter(keep, Insert(before, xs, x)) ==
            if keep(x) then Insert(before, Filter(keep, xs), x) else Filter(keep, xs)
  {
    hide StrictWeakOrder;
    if xs != [] {
      var init, last := xs[..|xs| - 1], xs[|xs| - 1];
      FilterLast(keep, xs);
      var r := Insert(before, xs, x);
      FilterLast(keep, r);
      if before(x, last) {
        FilterInsert(before, keep, init, x);
        assert r[..|r| - 1] == Insert(before, init, x);
      } else {
        assert r[..|r| - 1] == xs;
        if keep(x) {
          BehindAll(before, keep, xs, x);
        }
      }
    }
  }

  lemma BehindEach<T(!new)>(before: (T, T) -> bool, xs: seq<T>, x: T)
    requires StrictWeakOrder(before) && Ordered(before, xs) && xs != [] && !before(x, xs[|xs| - 1])
    ensures forall y :: y in xs ==> !before(x, y)
  {
    hide StrictWeakOrder;
    forall i | 0 <= i < |xs| ensures !before(x, xs[i]) {
      if i < |xs| - 1 {
        NotBefore(before, x, xs[|xs| - 1], xs[i]);
      }
    }
  }

  lemma BehindAll<T(!new)>(before: (T, T) -> bool, keep: T -> bool, xs: seq<T>, x: T)
    requires StrictWeakOrder(before) && Ordered(before, xs) && xs != [] && !before(x, xs[|xs| - 1])
    ensures Insert(before, Filter(keep, xs), x) == Filter(keep, xs) + [x]
  {
    BehindEach(before, xs, x);
    hide StrictWeakOrder, Ordered, Filter;
    var f := Filter(keep, xs);
    assert f != [] ==> f[|f| - 1] in f;
  }

  /** Sorting commutes with filtering; with a filter that keeps one group of ties, this is stability. */
  lemma {:induction false} FilterSort<T(!new)>(before: (T, T) -> bool, keep: T -> bool, xs: seq<T>)
    requires StrictWeakOrder(before)
    ensures Filter(keep, Sort(before, xs)) == Sort(before, Filter(keep, xs))
  {
    hide StrictWeakOrder;
    if xs != [] {
      var init, last := xs[..|xs| - 1], xs[|xs| - 1];
      FilterSort(before, keep, init);
      SortOrders(before, init);
      FilterInsert(before, keep, Sort(before, init), last);
      FilterLast(keep, xs);
      var f := Filter(keep, init) + [last];
      assert f[..|f| - 1] == Filter(keep, init);
    }
  }

  lemma {:induction false} FilterTiesIsSorted<T(!new)>(before: (T, T) -> bool, keep: T -> bool, xs: seq<T>)
    requires forall x, y :: keep(x) && keep(y) ==> !before(x, y)
    ensures Sort(before, Filter(keep, xs)) == Filter(keep, xs)
  {
    var f := Filter(keep, xs);
    assert forall i :: 0 <= i < |f| ==> f[i] in f;
    SortOrdered(before, f);
  }

  /** Stability: entries that tie keep their relative order. */
  lemma SortIsStable<T(!new)>(before: (T, T) -> bool, tied: T -> bool, xs: seq<T>)
    requires StrictWeakOrder(before) && forall x, y :: tied(x) && tied(y) ==> !before(x, y)
    ensures Filter(tied, Sort(before, xs)) == Filter(tied, xs)
  {
    FilterSort(before, tied, xs);
    FilterTiesIsSorted(before, tied, xs);
  }

  // ---------------------------------------------------------------------------
  // Lists without ties
  // ---------------------------------------------------------------------------

  ghost predicate Ascending<T>(before: (T, T) -> bool, xs: seq<T>) {
    forall i, j :: 0 <= i < j < |xs| ==> before(xs[i], xs[j])
  }

  /** An ascending list is determined by its elements. */
  lemma {:induction false} AscendingUnique<T(!new)>(before: (T, T) -> bool, a: seq<T>, b: seq<T>)
    requires StrictWeakOrder(before) && Ascending(before, a) && Ascending(before, b)
    requires forall x :: x in a <==> x in b
    ensures a == b
  {
    if a == [] {
      assert forall i :: 0 <= i < |b| ==> b[i] in a;
    } else {
      assert a[0] in b;
      assert b[0] in a;
      assert b[0] == a[0];
      forall x ensures x in a[1..] <==> x in b[1..] {
        assert x in a[1..] ==> x in a && before(a[0], x);
        assert x in b[1..] ==> x in b && before(b[0], x);
      }
      AscendingUnique(before, a[1..], b[1..]);
    }
  }

  /** Sorting elements of which no two tie gives an ascending list. */
  lemma SortAscends<T(!new)>(before: (T, T) -> bool, xs: seq<T>)
    requires StrictWeakOrder(before) && NoDup(xs)
    requires forall x, y :: x in xs && y in xs && x != y ==> before(x, y) || before(y, x)
    ensures Ascending(before, Sort(before, xs))
  {
    var r := Sort(before, xs);
    SortOrders(before, xs);
    SortMembers(before, xs);
    SortNoDup(before, xs);
    forall i, j | 0 <= i < j < |r| ensures before(r[i], r[j]) {
      assert r[i] in xs && r[j] in xs && r[i] != r[j];
    }
  }

  lemma SortNoDup<T(!new)>(before: (T, T) -> bool, xs: seq<T>)
    requires NoDup(xs)
    ensures NoDup(Sort(before, xs))
  {
    var r := Sort(before, xs);
    SortPermutes(before, xs);
    forall i, j | 0 <= i < j < |r| ensures r[i] != r[j] {
      NoDupMultiset(xs, r[i]);
      assert r == r[..j] + r[j..];
      assert multiset(r)[r[i]] == multiset(r[..j])[r[i]] + multiset(r[j..])[r[i]];
      assert r[i] in r[..j];
      assert r[i] !in r[j..];
      assert r[j] in r[j..];
    }
  }
}
