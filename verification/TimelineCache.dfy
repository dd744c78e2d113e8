/**
 The cached timeline of one issue: the deduplicated, sorted append of a created comment and the
 optimistic cascade that deletes a comment with everything below it.
 */
module TimelineCache {
  import opened Common
  import opened Timeline
  import opened StableSort
  import opened OrderedAppend

  // ---------------------------------------------------------------------------
  // Order: creation time, then id
  // ---------------------------------------------------------------------------

  /** The string comparison `a < b`. */
  predicate StringLess(a: string, b: string) {
    b != "" && (a == "" || a[0] < b[0] || (a[0] == b[0] && StringLess(a[1..], b[1..])))
  }

  predicate EntryBefore(a: Entry, b: Entry) {
    if a.createdAt != b.createdAt then a.createdAt < b.createdAt else StringLess(a.id, b.id)
  }

  predicate SameId(a: Entry, b: Entry) {
    a.id == b.id
  }

  lemma {:induction false} StringLessTotal(a: string, b: string)
    ensures a == b ==> !StringLess(a, b)
    ensures a != b ==> StringLess(a, b) || StringLess(b, a)
  {
    if a != "" && b != "" && a[0] == b[0] {
      StringLessTotal(a[1..], b[1..]);
      assert a == [a[0]] + a[1..] && b == [b[0]] + b[1..];
    }
  }

  lemma {:induction false} StringLessTransitive(a: string, b: string, c: string)
    requires StringLess(a, b) && StringLess(b, c)
    ensures StringLess(a, c)
  {
    if a != "" && a[0] == b[0] == c[0] {
      StringLessTransitive(a[1..], b[1..], c[1..]);
    }
  }

  lemma EntryOrder()
    ensures StrictWeakOrder(EntryBefore)
  {
    forall x ensures !EntryBefore(x, x) {
      StringLessTotal(x.id, x.id);
    }
    forall x, y, z | EntryBefore(x, y) && EntryBefore(y, z) ensures EntryBefore(x, z) {
      if x.createdAt == y.createdAt == z.createdAt {
        StringLessTransitive(x.id, y.id, z.id);
      }
    }
    forall x, y, z | EntryBefore(x, z) ensures EntryBefore(x, y) || EntryBefore(y, z) {
      StringLessTotal(x.id, y.id);
      StringLessTotal(y.id, z.id);
      if x.createdAt == y.createdAt == z.createdAt && StringLess(y.id, x.id) {
        StringLessTransitive(y.id, x.id, z.id);
      }
    }
  }

  /** `a` is a prefix of `b`, or smaller at the first position where they differ. */
  ghost predicate IdAtMost(a: string, b: string) {
    a <= b || exists k :: 0 <= k < |a| && k < |b| && a[..k] == b[..k] && a[k] < b[k]
  }

  /** Oldest first, and by id where the times are equal. */
  ghost predicate OldestFirst(entries: seq<Entry>) {
    forall i, j :: 0 <= i < j < |entries| ==>
      entries[i].createdAt <= entries[j].createdAt &&
      (entries[i].createdAt == entries[j].createdAt ==> IdAtMost(entries[i].id, entries[j].id))
  }

  lemma {:induction false} NotLessIsAtMost(a: string, b: string)
    ensures !StringLess(b, a) <==> IdAtMost(a, b)
  {
    if a != "" && b != "" {
      if a[0] == b[0] {
        NotLessIsAtMost(a[1..], b[1..]);
        IdAtMostTail(a, b);
      } else {
        assert a[..0] == b[..0];
      }
    }
  }

  lemma IdAtMostTail(a: string, b: string)
    requires a != "" && b != "" && a[0] == b[0]
    ensures IdAtMost(a, b) <==> IdAtMost(a[1..], b[1..])
  {
    var c, d := a[1..], b[1..];
    assert a == [a[0]] + c && b == [b[0]] + d;
    if k :| 0 <= k < |a| && k < |b| && a[..k] == b[..k] && a[k] < b[k] {
      assert c[..k - 1] == a[..k][1..] == b[..k][1..] == d[..k - 1];
      assert c[k - 1] < d[k - 1];
    }
    if k :| 0 <= k < |c| && k < |d| && c[..k] == d[..k] && c[k] < d[k] {
      assert a[..k + 1] == [a[0]] + c[..k] == [b[0]] + d[..k] == b[..k + 1];
      assert a[k + 1] < b[k + 1];
    }
  }

  lemma OrderedIsOldestFirst(entries: seq<Entry>)
    ensures Ordered(EntryBefore, entries) <==> OldestFirst(entries)
  {
    hide StringLess, IdAtMost;
    forall i, j | 0 <= i < j < |entries|
      ensures !EntryBefore(entries[j], entries[i]) <==>
              entries[i].createdAt <= entries[j].createdAt &&
              (entries[i].createdAt == entries[j].createdAt ==> IdAtMost(entries[i].id, entries[j].id))
    {
      NotLessIsAtMost(entries[i].id, entries[j].id);
    }
    hide EntryBefore;
  }

  /** The entries that tie with `e`: those of the same time and id. */
  function Ties(entries: seq<Entry>, e: Entry): seq<Entry> {
    Filter((x: Entry) => x.createdAt == e.createdAt && x.id == e.id, entries)
  }

  /** Sorts in place, by creation time and then id; entries equal in both keep their order. */
  method SortTimelineEntriesAsc(entries: array<Entry>)
    modifies entries
    ensures entries[..] == Sort(EntryBefore, old(entries[..]))
    ensures OldestFirst(entries[..])
    ensures multiset(entries[..]) == multiset(old(entries[..]))
    ensures forall e :: Ties(entries[..], e) == Ties(old(entries[..]), e)
  {
    SortedAsc(entries[..]);
    hide Ties, OldestFirst, EntryBefore;
    var sorted := Sort(EntryBefore, entries[..]);
    forall i | 0 <= i < entries.Length {
      entries[i] := sorted[i];
    }
    assert entries[..] == sorted;
  }

  lemma SortedAsc(entries: seq<Entry>)
    ensures var r := Sort(EntryBefore, entries);
            && OldestFirst(r) && multiset(r) == multiset(entries)
            && forall e :: Ties(r, e) == Ties(entries, e)
  {
    EntryOrder();
    SortOrders(EntryBefore, entries);
    SortPermutes(EntryBefore, entries);
    OrderedIsOldestFirst(Sort(EntryBefore, entries));
    hide Ordered, OldestFirst, StrictWeakOrder;
    forall e ensures Ties(Sort(EntryBefore, entries), e) == Ties(entries, e) {
      var tied := (x: Entry) => x.createdAt == e.createdAt && x.id == e.id;
      forall x, y | tied(x) && tied(y) ensures !EntryBefore(x, y) {
        StringLessTotal(x.id, y.id);
      }
      SortIsStable(EntryBefore, tied, entries);
    }
  }

  // ---------------------------------------------------------------------------
  // The cascade
  // ---------------------------------------------------------------------------

  /** `ids` holds `commentId` and, with any id, every entry that names it as parent. */
  ghost predicate ClosedFrom(entries: seq<Entry>, commentId: string, ids: set<string>) {
    commentId in ids && ClosedBelow(entries, ids)
  }

  ghost predicate ClosedBelow(entries: seq<Entry>, ids: set<string>) {
    forall e :: e in entries && e.HasParent() && e.parentId.value in ids ==> e.id in ids
  }

  /** The least such set. */
  ghost predicate IsCascade(entries: seq<Entry>, commentId: string, ids: set<string>) {
    && ClosedFrom(entries, commentId, ids)
    && forall other: set<string> :: ClosedFrom(entries, commentId, other) ==> ids <= other
  }

  function Survivors(entries: seq<Entry>, removed: set<string>): (r: seq<Entry>)
    ensures forall e :: e in r <==> e in entries && e.id !in removed
  {
    Filter((e: Entry) => e.id !in removed, entries)
  }

  function AllIds(entries: seq<Entry>): set<string> {
    set e | e in entries :: e.id
  }

  /** Grows the set until a whole pass adds nothing; ends for every order and every parent graph. */
  method CollectRemovals(entries: seq<Entry>, commentId: string) returns (toRemove: set<string>)
    ensures IsCascade(entries, commentId, toRemove)
  {
    toRemove := {commentId};
    var changed := true;
    ghost var universe := {commentId} + AllIds(entries);
    while changed
      invariant commentId in toRemove && toRemove <= universe
      invariant forall other: set<string> :: ClosedFrom(entries, commentId, other) ==> toRemove <= other
      invariant !changed ==> ClosedBelow(entries, toRemove)
      decreases |universe - toRemove|, changed
    {
      changed := false;
      ghost var start := toRemove;
      for i := 0 to |entries|
        invariant start <= toRemove <= universe
        invariant changed <==> start != toRemove
        invariant forall other: set<string> :: ClosedFrom(entries, commentId, other) ==> toRemove <= other
        invariant !changed ==> ClosedBelow(entries[..i], toRemove)
      {
        var e := entries[i];
        assert entries[..i + 1] == entries[..i] + [e];
        if e.HasParent() && e.parentId.value in toRemove && e.id !in toRemove {
          assert e.id in universe;
          toRemove := toRemove + {e.id};
          changed := true;
        }
      }
      assert entries[..|entries|] == entries;
      if changed {
        Shrinks(universe, start, toRemove);
      }
    }
  }

  lemma Shrinks(universe: set<string>, a: set<string>, b: set<string>)
    requires a <= b <= universe && a != b
    ensures |universe - b| < |universe - a|
  {
    assert b == a + (b - a);
    var x :| x in b - a;
    assert universe - b <= universe - a - {x};
    SubsetSize(universe - b, universe - a - {x});
  }

  // ---------------------------------------------------------------------------
  // The cache entry
  // ---------------------------------------------------------------------------

  /** The entry after a comment was created: appended and sorted unless its id is already there. */
  function Created(timeline: Option<seq<Entry>>, entry: Entry): Option<seq<Entry>> {
    match timeline
    case None => Some([entry])
    case Some(entries) => Some(Append(EntryBefore, SameId, entries, entry))
  }

  /** `now` is `was` if it holds the id already, else `was` and the entry, oldest first. */
  ghost predicate Joins(was: Option<seq<Entry>>, now: Option<seq<Entry>>, entry: Entry) {
    && now.Some?
    && (was.None? ==> now.value == [entry])
    && (was.Some? && (exists i :: 0 <= i < |was.value| && was.value[i].id == entry.id) ==> now == was)
    && (was.Some? && (forall i :: 0 <= i < |was.value| ==> was.value[i].id != entry.id) ==>
          multiset(now.value) == multiset(was.value) + multiset{entry} && OldestFirst(now.value))
    && ((was.Some? ==> OldestFirst(was.value)) ==> OldestFirst(now.value))
  }

  lemma CreatedJoins(timeline: Option<seq<Entry>>, entry: Entry)
    ensures Joins(timeline, Created(timeline, entry), entry)
  {
    hide EntryBefore, Ties, Sort;
    if timeline.Some? {
      SortedAsc(timeline.value + [entry]);
    }
  }

  class TimelineCache {
    var timeline: Option<seq<Entry>>

    method OnCommentCreated(entry: Entry)
      modifies this
      ensures timeline == Created(old(timeline), entry)
      ensures Joins(old(timeline), timeline, entry)
    {
      CreatedJoins(timeline, entry);
      hide Joins, OldestFirst, EntryBefore, Ties;
      if timeline.None? {
        timeline := Some([entry]);
        return;
      }
      var cached := timeline.value;
      if exists i :: 0 <= i < |cached| && cached[i].id == entry.id {
        return;
      }
      var appended := cached + [entry];
      var a := new Entry[|appended|](i requires 0 <= i < |appended| => appended[i]);
      assert a[..] == appended;
      SortTimelineEntriesAsc(a);
      timeline := Some(a[..]);
    }

    /** Drops the comment and its cascade, and hands back the snapshot. */
    method OnDeleteMutate(commentId: string) returns (prev: Option<seq<Entry>>)
      modifies this
      ensures prev == old(timeline)
      ensures prev.None? ==> timeline == None
      ensures prev.Some? ==> exists removed: set<string> ::
                IsCascade(prev.value, commentId, removed) && timeline == Some(Survivors(prev.value, removed))
    {
      prev := timeline;
      var toRemove := {commentId};
      if prev.Some? {
        toRemove := CollectRemovals(prev.value, commentId);
      }
      if timeline.Some? {
        timeline := Some(Survivors(timeline.value, toRemove));
      }
    }

    method OnDeleteError(prev: Option<seq<Entry>>)
      modifies this
      ensures timeline == if prev.Some? then prev else old(timeline)
    {
      if prev.Some? {
        timeline := prev;
      }
    }

    /** A deletion that fails right after its optimistic step leaves the cache as it was. */
    method DeleteThenFail(commentId: string)
      modifies this
      ensures timeline == old(timeline)
    {
      var prev := OnDeleteMutate(commentId);
      OnDeleteError(prev);
    }
  }

  /** No surviving entry has a removed parent. */
  lemma SurvivorsKeepParents(entries: seq<Entry>, commentId: string, removed: set<string>, e: Entry)
    requires IsCascade(entries, commentId, removed)
    requires e in Survivors(entries, removed) && e.HasParent()
    ensures e.parentId.value !in removed
  {
  }

  // ---------------------------------------------------------------------------
  // Created comments converge
  // ---------------------------------------------------------------------------

  function CreatedAll(timeline: Option<seq<Entry>>, entries: seq<Entry>): Option<seq<Entry>>
    decreases |entries|
  {
    if entries == [] then timeline else CreatedAll(Created(timeline, entries[0]), entries[1..])
  }

  lemma {:induction false} CreatedAllIsAppendAll(timeline: Option<seq<Entry>>, entries: seq<Entry>)
    ensures timeline.Some? ==>
              CreatedAll(timeline, entries) == Some(AppendAll(EntryBefore, SameId, timeline.value, entries))
    ensures timeline.None? && entries != [] ==>
              CreatedAll(timeline, entries) == Some(AppendAll(EntryBefore, SameId, [], entries))
    decreases |entries|
  {
    hide Append;
    if entries != [] {
      CreatedAllIsAppendAll(Created(timeline, entries[0]), entries[1..]);
      AppendToEmpty(entries[0]);
    }
  }

  lemma AppendToEmpty(entry: Entry)
    ensures Append(EntryBefore, SameId, [], entry) == [entry]
  {
    assert [] + [entry] == [entry];
    assert Sort(EntryBefore, [entry][..0]) == [];
  }

  /**
   Created comments converge: the same comments arriving in any order and any number of times, from
   the response or from the broadcast, leave the same timeline.
   */
  lemma CreatedCommentsConverge(timeline: Option<seq<Entry>>, xs: seq<Entry>, ys: seq<Entry>)
    requires timeline.Some? ==> Ascending(EntryBefore, timeline.value)
    requires forall e :: e in xs <==> e in ys
    requires var known := (if timeline.Some? then timeline.value else []) + xs;
             forall a, b :: a in known && b in known && a.id == b.id ==> a == b
    ensures CreatedAll(timeline, xs) == CreatedAll(timeline, ys)
  {
    hide StringLess, AppendAll, CreatedAll, StrictWeakOrder;
    var start := if timeline.Some? then timeline.value else [];
    var all := set e | e in start + xs;
    EntriesKeyed(all);
    CreatedAllIsAppendAll(timeline, xs);
    CreatedAllIsAppendAll(timeline, ys);
    hide Keyed, Ascending;
    DeliveriesConverge(EntryBefore, SameId, all, start, xs, ys);
    if xs != [] {
      assert xs[0] in ys;
    }
    if ys != [] {
      assert ys[0] in ys;
    }
  }

  lemma EntriesKeyed(all: set<Entry>)
    requires forall a, b :: a in all && b in all && a.id == b.id ==> a == b
    ensures Keyed(EntryBefore, SameId, all)
  {
    EntryOrder();
    forall a, b | a in all && b in all ensures a.id != b.id ==> EntryBefore(a, b) || EntryBefore(b, a) {
      StringLessTotal(a.id, b.id);
    }
  }
}
