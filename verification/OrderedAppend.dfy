/**
 Append-unless-present followed by a sort: the shape of every cache list that events and mutation
 responses both write to.
 */
module OrderedAppend {
  import opened Common
  import opened StableSort

  function Append<T(!new)>(before: (T, T) -> bool, same: (T, T) -> bool, prev: seq<T>, x: T): seq<T> {
    if exists i :: 0 <= i < |prev| && same(prev[i], x) then prev else Sort(before, prev + [x])
  }

  function AppendAll<T(!new)>(before: (T, T) -> bool, same: (T, T) -> bool, prev: seq<T>, xs: seq<T>): seq<T>
    decreases |xs|
  {
    if xs == [] then prev else AppendAll(before, same, Append(before, same, prev, xs[0]), xs[1..])
  }

  /** Within `all`, equal keys mean equal values, and the order decides between any two others. */
  ghost predicate Keyed<T(!new)>(before: (T, T) -> bool, same: (T, T) -> bool, all: set<T>) {
    && StrictWeakOrder(before)
    && forall x, y :: x in all && y in all ==> (same(x, y) <==> x == y) && (x != y ==> before(x, y) || before(y, x))
  }

  lemma AppendStep<T(!new)>(before: (T, T) -> bool, same: (T, T) -> bool, all: set<T>, prev: seq<T>, x: T)
    requires Keyed(before, same, all) && Ascending(before, prev)
    requires x in all && forall y :: y in prev ==> y in all
    ensures var r := Append(before, same, prev, x);
            Ascending(before, r) && forall y :: y in r <==> y in prev || y == x
  {
    if !exists i :: 0 <= i < |prev| && same(prev[i], x) {
      hide StrictWeakOrder;
      AscendingNoDup(before, prev);
      forall i | 0 <= i < |prev| ensures prev[i] != x {
        assert prev[i] in all;
      }
      SortMembers(before, prev + [x]);
      SortAscends(before, prev + [x]);
    }
  }

  lemma AscendingNoDup<T(!new)>(before: (T, T) -> bool, xs: seq<T>)
    requires StrictWeakOrder(before) && Ascending(before, xs)
    ensures NoDup(xs)
  {
    forall i, j | 0 <= i < j < |xs| ensures xs[i] != xs[j] {
      assert before(xs[i], xs[j]) && !before(xs[i], xs[i]);
    }
  }

  /** Whatever the order and the repetitions, the list ends up ascending with exactly the values received. */
  lemma {:induction false} AppendAllMembers<T(!new)>(
      before: (T, T) -> bool, same: (T, T) -> bool, all: set<T>, prev: seq<T>, xs: seq<T>)
    requires Keyed(before, same, all) && Ascending(before, prev)
    requires forall y :: y in prev || y in xs ==> y in all
    ensures var r := AppendAll(before, same, prev, xs);
            Ascending(before, r) && forall y :: y in r <==> y in prev || y in xs
    decreases |xs|
  {
    hide Keyed;
    if xs != [] {
      assert xs == [xs[0]] + xs[1..];
      AppendStep(before, same, all, prev, xs[0]);
      AppendAllMembers(before, same, all, Append(before, same, prev, xs[0]), xs[1..]);
    }
  }

  /** Two deliveries of the same values leave the same list. */
  lemma DeliveriesConverge<T(!new)>(
      before: (T, T) -> bool, same: (T, T) -> bool, all: set<T>, prev: seq<T>, xs: seq<T>, ys: seq<T>)
    requires Keyed(before, same, all) && Ascending(before, prev)
    requires forall y :: y in prev || y in xs ==> y in all
    requires forall y :: y in xs <==> y in ys
    ensures AppendAll(before, same, prev, xs) == AppendAll(before, same, prev, ys)
  {
    AppendAllMembers(before, same, all, prev, xs);
    AppendAllMembers(before, same, all, prev, ys);
    AscendingUnique(before, AppendAll(before, same, prev, xs), AppendAll(before, same, prev, ys));
  }
}
