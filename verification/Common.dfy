/** Sequence vocabulary shared by the models: options, filters, duplicate-freeness. */
module Common {

  datatype Option<+T> = None | Some(value: T)

  /** The elements that satisfy `keep`, in their original order. */
  function Filter<T(!new)>(keep: T -> bool, xs: seq<T>): (r: seq<T>)
    ensures |r| <= |xs|
    ensures forall x :: x in r <==> x in xs && keep(x)
  {
    if xs == [] then []
    else if keep(xs[0]) then [xs[0]] + Filter(keep, xs[1..])
    else Filter(keep, xs[1..])
  }

  /** Every element under `f`. */
  function Map<T(!new), U(!new)>(f: T -> U, xs: seq<T>): (r: seq<U>)
    ensures |r| == |xs|
    ensures forall i :: 0 <= i < |xs| ==> r[i] == f(xs[i])
  {
    seq(|xs|, i requires 0 <= i < |xs| => f(xs[i]))
  }

  ghost predicate NoDup<T>(xs: seq<T>) {
    forall i, j :: 0 <= i < j < |xs| ==> xs[i] != xs[j]
  }

  lemma MapCons<T(!new), U(!new)>(f: T -> U, x: T, rest: seq<T>)
    ensures Map(f, [x] + rest) == [f(x)] + Map(f, rest)
  {
  }

  lemma FilterCons<T(!new)>(keep: T -> bool, x: T, rest: seq<T>)
    ensures Filter(keep, [x] + rest) == if keep(x) then [x] + Filter(keep, rest) else Filter(keep, rest)
  {
    assert ([x] + rest)[1..] == rest;
  }

  lemma {:induction false} FilterConcat<T(!new)>(keep: T -> bool, a: seq<T>, b: seq<T>)
    ensures Filter(keep, a + b) == Filter(keep, a) + Filter(keep, b)
  {
    if a == [] {
      assert a + b == b;
    } else {
      assert (a + b)[1..] == a[1..] + b;
      FilterConcat(keep, a[1..], b);
    }
  }

  lemma {:induction false} FilterAgree<T(!new)>(f: T -> bool, g: T -> bool, xs: seq<T>)
    requires forall x :: x in xs ==> f(x) == g(x)
    ensures Filter(f, xs) == Filter(g, xs)
  {
    if xs != [] {
      FilterAgree(f, g, xs[1..]);
    }
  }

  lemma {:induction false} FilterAll<T(!new)>(keep: T -> bool, xs: seq<T>)
    requires forall x :: x in xs ==> keep(x)
    ensures Filter(keep, xs) == xs
  {
    if xs != [] {
      FilterAll(keep, xs[1..]);
    }
  }

  lemma {:induction false} FilterNone<T(!new)>(keep: T -> bool, xs: seq<T>)
    requires forall x :: x in xs ==> !keep(x)
    ensures Filter(keep, xs) == []
  {
    if xs != [] {
      FilterNone(keep, xs[1..]);
    }
  }

  /** Filtering by `f` and then `g` is filtering by any `h` that is their conjunction. */
  lemma {:induction false} FilterCompose<T(!new)>(f: T -> bool, g: T -> bool, h: T -> bool, xs: seq<T>)
    requires forall x :: x in xs ==> (h(x) <==> f(x) && g(x))
    ensures Filter(g, Filter(f, xs)) == Filter(h, xs)
  {
    if xs != [] {
      FilterCompose(f, g, h, xs[1..]);
    }
  }

  lemma NoDupConcat<T>(a: seq<T>, b: seq<T>)
    requires NoDup(a) && NoDup(b) && forall i, j :: 0 <= i < |a| && 0 <= j < |b| ==> a[i] != b[j]
    ensures NoDup(a + b)
  {
  }

  lemma {:induction false} FilterNoDup<T(!new)>(keep: T -> bool, xs: seq<T>)
    requires forall i, j :: 0 <= i < j < |xs| && keep(xs[i]) && keep(xs[j]) ==> xs[i] != xs[j]
    ensures NoDup(Filter(keep, xs))
  {
    if xs != [] {
      FilterNoDup(keep, xs[1..]);
      assert forall i :: 0 <= i < |xs[1..]| ==> xs[1..][i] == xs[i + 1];
      assert keep(xs[0]) ==> xs[0] !in Filter(keep, xs[1..]);
    }
  }

  /** A filter and its complement split the elements, counting repetitions. */
  lemma {:induction false} FilterSplit<T(!new)>(f: T -> bool, g: T -> bool, xs: seq<T>)
    requires forall x :: x in xs ==> f(x) != g(x)
    ensures multiset(xs) == multiset(Filter(f, xs)) + multiset(Filter(g, xs))
  {
    if xs != [] {
      assert xs == [xs[0]] + xs[1..];
      FilterSplit(f, g, xs[1..]);
    }
  }

  lemma {:induction false} NoDupMultiset<T(!new)>(xs: seq<T>, x: T)
    requires NoDup(xs)
    ensures multiset(xs)[x] == if x in xs then 1 else 0
  {
    if xs != [] {
      assert xs == [xs[0]] + xs[1..];
      assert xs[0] !in xs[1..];
      NoDupMultiset(xs[1..], x);
    }
  }

  /** Duplicate-free lists over the same elements are permutations of each other. */
  lemma NoDupSameElements<T(!new)>(a: seq<T>, b: seq<T>)
    requires NoDup(a) && NoDup(b)
    requires forall x :: x in a <==> x in b
    ensures multiset(a) == multiset(b)
  {
    forall x
      ensures multiset(a)[x] == multiset(b)[x]
    {
      NoDupMultiset(a, x);
      NoDupMultiset(b, x);
    }
  }

  lemma SubsetSize<T>(a: set<T>, b: set<T>)
    requires a <= b
    ensures |a| <= |b|
  {
    assert b == a + (b - a);
  }

  lemma SubsetSameSize<T>(a: set<T>, b: set<T>)
    requires a <= b && |a| >= |b|
    ensures a == b
  {
    assert b == a + (b - a) && |b| == |a| + |b - a|;
  }

  lemma Assoc<T>(a: seq<T>, b: seq<T>, c: seq<T>)
    ensures (a + b) + c == a + (b + c)
  {
  }
}
