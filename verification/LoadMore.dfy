/** Paging one status of a bucketed list: `useLoadMoreByStatus` asks for the page after the loaded issues. */
module LoadMore {
  import opened Common
  import opened IssueBuckets

  const ISSUE_PAGE_SIZE := 50

  datatype Reply = Reply(issues: seq<Issue>, total: nat)

  function Ids(issues: seq<Issue>): set<string> {
    set i | i in issues :: i.id
  }

  /** What a reply leaves in the bucket: issues whose id is already loaded are skipped. */
  function WithPage(b: Bucket, reply: Reply): Bucket {
    Bucket(b.issues + Filter((i: Issue) => i.id !in Ids(b.issues), reply.issues), reply.total)
  }

  predicate HasMore(c: ListCache, s: Status) {
    |GetBucket(c, s).issues| < GetBucket(c, s).total
  }

  /** The page at `offset` of a server that holds `all` for the status. */
  function PageAt(all: seq<Issue>, offset: nat): Reply {
    var lo := if offset < |all| then offset else |all|;
    var hi := if lo + ISSUE_PAGE_SIZE < |all| then lo + ISSUE_PAGE_SIZE else |all|;
    Reply(all[lo..hi], |all|)
  }

  /** One press of "load more" on a bucket, answered by a server that holds `all`. */
  function Pressed(b: Bucket, all: seq<Issue>): Bucket {
    if |b.issues| < b.total then WithPage(b, PageAt(all, |b.issues|)) else b
  }

  function Presses(b: Bucket, all: seq<Issue>, n: nat): Bucket
    decreases n
  {
    if n == 0 then b else Presses(Pressed(b, all), all, n - 1)
  }

  lemma FilterPush(keep: Issue -> bool, issues: seq<Issue>, i: Issue)
    ensures Filter(keep, issues + [i]) == Filter(keep, issues) + (if keep(i) then [i] else [])
    ensures Filter(keep, []) == []
  {
    FilterConcat(keep, issues, [i]);
  }

  method NotLoaded(loaded: seq<Issue>, incoming: seq<Issue>) returns (appended: seq<Issue>)
    ensures appended == Filter((x: Issue) => x.id !in Ids(loaded), incoming)
  {
    hide Filter;
    var existing := {};
    for i := 0 to |loaded|
      invariant existing == Ids(loaded[..i])
    {
      assert loaded[..i + 1] == loaded[..i] + [loaded[i]];
      existing := existing + {loaded[i].id};
    }
    assert loaded[..|loaded|] == loaded;
    ghost var keep := (x: Issue) => x.id !in existing;
    assert Filter(keep, incoming) == Filter((x: Issue) => x.id !in Ids(loaded), incoming) by {
      FilterAgree(keep, (x: Issue) => x.id !in Ids(loaded), incoming);
    }
    appended := [];
    for i := 0 to |incoming|
      invariant appended == Filter(keep, incoming[..i])
    {
      assert incoming[..i + 1] == incoming[..i] + [incoming[i]];
      FilterPush(keep, incoming[..i], incoming[i]);
      if incoming[i].id !in existing {
        appended := appended + [incoming[i]];
      }
    }
    assert incoming[..|incoming|] == incoming;
  }

  class PagedList {
    /** The active cache entry, if it has data. */
    var cache: Option<ListCache>

    /** The callback up to the request: the offset to ask for, if there is anything to load. */
    method RequestMore(s: Status) returns (offset: Option<nat>)
      ensures offset.Some? <==> cache.Some? && HasMore(cache.value, s)
      ensures offset.Some? ==> offset.value == |GetBucket(cache.value, s).issues|
    {
      if cache.None? {
        return None;
      }
      var bucket := GetBucket(cache.value, s);
      return if |bucket.issues| < bucket.total then Some(|bucket.issues|) else None;
    }

    /** The reply is merged into whatever the entry holds by then. */
    method OnReply(s: Status, reply: Reply)
      modifies this
      ensures old(cache).None? ==> cache.None?
      ensures old(cache).Some? ==>
                cache == Some(SetBucket(old(cache).value, s, WithPage(GetBucket(old(cache).value, s), reply)))
    {
      if cache.None? {
        return;
      }
      var held := cache.value;
      var prev := GetBucket(held, s);
      var appended := NotLoaded(prev.issues, reply.issues);
      cache := Some(SetBucket(held, s, Bucket(prev.issues + appended, reply.total)));
    }

    /** Request and reply with no write in between. */
    method PressLoadMore(s: Status, all: seq<Issue>)
      modifies this
      ensures old(cache).None? ==> cache.None?
      ensures old(cache).Some? ==>
                cache.Some? && GetBucket(cache.value, s) == Pressed(GetBucket(old(cache).value, s), all)
      ensures old(cache).Some? ==> forall t :: t != s ==> GetBucket(cache.value, t) == GetBucket(old(cache).value, t)
    {
      hide WithPage, PageAt;
      var offset := RequestMore(s);
      if offset.Some? {
        OnReply(s, PageAt(all, offset.value));
      }
    }
  }

  // ---------------------------------------------------------------------------
  // Loading to the end
  // ---------------------------------------------------------------------------

  /** The loaded part misses none of the server issues before the next offset. */
  ghost predicate Gapless(issues: seq<Issue>, all: seq<Issue>) {
    forall k :: 0 <= k < |all| && k < |issues| ==> all[k].id in Ids(issues)
  }

  /** What a press leaves loaded when the count is that of the server. */
  function Load(issues: seq<Issue>, all: seq<Issue>): seq<Issue> {
    if |issues| < |all| then WithPage(Bucket(issues, |all|), PageAt(all, |issues|)).issues else issues
  }

  function Loads(issues: seq<Issue>, all: seq<Issue>, n: nat): seq<Issue>
    decreases n
  {
    if n == 0 then issues else Loads(Load(issues, all), all, n - 1)
  }

  lemma SliceHolds(all: seq<Issue>, lo: nat, hi: nat, k: nat)
    requires lo <= k < hi <= |all|
    ensures all[k] in all[lo..hi]
  {
    assert all[lo..hi][k - lo] == all[k];
  }

  lemma PageMembers(all: seq<Issue>, offset: nat, x: Issue)
    ensures x in PageAt(all, offset).issues <==>
            exists k :: offset <= k < |all| && k < offset + ISSUE_PAGE_SIZE && all[k] == x
  {
    var page := PageAt(all, offset).issues;
    if x in page {
      var j :| 0 <= j < |page| && page[j] == x;
      assert all[offset + j] == x;
    }
    if k :| offset <= k < |all| && k < offset + ISSUE_PAGE_SIZE && all[k] == x {
      var hi := if offset + ISSUE_PAGE_SIZE < |all| then offset + ISSUE_PAGE_SIZE else |all|;
      assert page == all[offset..hi] && offset <= k < hi;
      SliceHolds(all, offset, hi, k);
    }
  }

  lemma LoadIds(issues: seq<Issue>, all: seq<Issue>, id: string)
    requires |issues| < |all|
    ensures id in Ids(Load(issues, all)) <==>
            id in Ids(issues) ||
            exists k :: |issues| <= k < |all| && k < |issues| + ISSUE_PAGE_SIZE && all[k].id == id
  {
    var page := PageAt(all, |issues|).issues;
    forall x: Issue
      ensures x in page <==> exists k :: |issues| <= k < |all| && k < |issues| + ISSUE_PAGE_SIZE && all[k] == x
    {
      PageMembers(all, |issues|, x);
    }
    var added := Filter((i: Issue) => i.id !in Ids(issues), page);
    assert Load(issues, all) == issues + added;
    if id in Ids(issues + added) && id !in Ids(issues) {
      var x :| x in issues + added && x.id == id;
      assert x in page;
    }
    if k :| |issues| <= k < |all| && k < |issues| + ISSUE_PAGE_SIZE && all[k].id == id {
      assert all[k] in page;
      assert id !in Ids(issues) ==> all[k] in added;
    }
    if id in Ids(issues) {
      var x :| x in issues && x.id == id;
      assert x in issues + added;
    }
  }

  /** Loading a page neither opens nor closes a gap. */
  lemma LoadKeepsGapsExactly(issues: seq<Issue>, all: seq<Issue>)
    requires DistinctIds(all)
    ensures Gapless(Load(issues, all), all) <==> Gapless(issues, all)
  {
    if |issues| < |all| {
      var after := Load(issues, all);
      assert |after| <= |issues| + ISSUE_PAGE_SIZE;
      assert |issues| <= |after|;
      forall k | 0 <= k < |all| && k < |issues| ensures all[k].id in Ids(after) <==> all[k].id in Ids(issues) {
        LoadIds(issues, all, all[k].id);
      }
      forall k | |issues| <= k < |all| && k < |after| ensures all[k].id in Ids(after) {
        LoadIds(issues, all, all[k].id);
      }
    }
  }

  lemma {:induction false} LoadsKeepGapsExactly(issues: seq<Issue>, all: seq<Issue>, n: nat)
    requires DistinctIds(all)
    ensures Gapless(Loads(issues, all, n), all) <==> Gapless(issues, all)
    decreases n
  {
    hide DistinctIds, Gapless, Load;
    if n > 0 {
      LoadKeepsGapsExactly(issues, all);
      LoadsKeepGapsExactly(Load(issues, all), all, n - 1);
    }
  }

  lemma {:induction false} IdCount(issues: seq<Issue>)
    requires DistinctIds(issues)
    ensures |Ids(issues)| == |issues|
  {
    if issues != [] {
      var n := |issues| - 1;
      IdCount(issues[..n]);
      assert issues == issues[..n] + [issues[n]];
      assert issues[n].id !in Ids(issues[..n]);
      assert Ids(issues) == Ids(issues[..n]) + {issues[n].id};
    } else {
      assert Ids(issues) == {};
    }
  }

  /** Without a gap the loaded ids are those of the server's first issues. */
  lemma GaplessIsPrefix(issues: seq<Issue>, all: seq<Issue>)
    requires DistinctIds(issues) && DistinctIds(all) && |issues| <= |all| && Gapless(issues, all)
    ensures Ids(issues) == Ids(all[..|issues|])
  {
    IdCount(issues);
    IdCount(all[..|issues|]);
    SubsetSameSize(Ids(all[..|issues|]), Ids(issues));
  }

  lemma LoadKeepsDistinct(issues: seq<Issue>, all: seq<Issue>)
    requires DistinctIds(issues) && DistinctIds(all)
    ensures DistinctIds(Load(issues, all))
  {
    if |issues| < |all| {
      var page := PageAt(all, |issues|).issues;
      var added := Filter((i: Issue) => i.id !in Ids(issues), page);
      assert DistinctIds(page);
      FilterKeepsDistinct((i: Issue) => i.id !in Ids(issues), page);
      forall i, j | 0 <= i < |issues| && 0 <= j < |added| ensures issues[i].id != added[j].id {
        assert added[j] in added && issues[i] in issues;
      }
    }
  }

  lemma {:induction false} FilterKeepsDistinct(keep: Issue -> bool, issues: seq<Issue>)
    requires DistinctIds(issues)
    ensures DistinctIds(Filter(keep, issues))
  {
    if issues != [] {
      FilterKeepsDistinct(keep, issues[1..]);
      forall x | x in Filter(keep, issues[1..]) ensures x.id != issues[0].id {
        assert x in issues[1..];
      }
    }
  }

  /** Without a gap a load brings the whole page. */
  lemma LoadGrows(issues: seq<Issue>, all: seq<Issue>)
    requires DistinctIds(issues) && DistinctIds(all) && |issues| < |all| && Gapless(issues, all)
    ensures Load(issues, all) == issues + PageAt(all, |issues|).issues
  {
    GaplessIsPrefix(issues, all);
    var page := PageAt(all, |issues|).issues;
    forall x | x in page ensures x.id !in Ids(issues) {
      PageMembers(all, |issues|, x);
      var k :| |issues| <= k < |all| && all[k] == x;
      assert forall y :: y in all[..|issues|] ==> y.id != x.id;
    }
    FilterAll((i: Issue) => i.id !in Ids(issues), page);
  }

  lemma NextPageIsNotEmpty(all: seq<Issue>, offset: nat)
    requires offset < |all|
    ensures PageAt(all, offset).issues != []
  {
  }

  lemma GaplessProgress(issues: seq<Issue>, all: seq<Issue>)
    requires DistinctIds(issues) && DistinctIds(all) && Gapless(issues, all)
    ensures |issues| < |all| ==> |Load(issues, all)| > |issues|
    ensures |issues| >= |all| ==> Load(issues, all) == issues
  {
    hide DistinctIds, Gapless, PageAt;
    if |issues| < |all| {
      LoadGrows(issues, all);
      NextPageIsNotEmpty(all, |issues|);
      hide Load;
    }
  }

  lemma {:induction false} GaplessFinishes(issues: seq<Issue>, all: seq<Issue>, n: nat)
    requires DistinctIds(issues) && DistinctIds(all) && Gapless(issues, all) && |issues| + n >= |all|
    ensures |Loads(issues, all, n)| >= |all|
    decreases n
  {
    hide DistinctIds, Gapless, Load;
    if n > 0 {
      GaplessProgress(issues, all);
      LoadKeepsDistinct(issues, all);
      LoadKeepsGapsExactly(issues, all);
      GaplessFinishes(Load(issues, all), all, n - 1);
    }
  }

  /** Loading ends with every server issue loaded exactly when the loaded part had no gap. */
  lemma LoadingCompletesExactly(issues: seq<Issue>, all: seq<Issue>)
    requires DistinctIds(issues) && DistinctIds(all)
    ensures (exists n :: |Loads(issues, all, n)| >= |all| && Ids(all) <= Ids(Loads(issues, all, n))) <==>
            Gapless(issues, all)
  {
    if Gapless(issues, all) {
      var n := |all|;
      GaplessFinishes(issues, all, n);
      LoadsKeepGapsExactly(issues, all, n);
    }
    if n :| |Loads(issues, all, n)| >= |all| && Ids(all) <= Ids(Loads(issues, all, n)) {
      LoadsKeepGapsExactly(issues, all, n);
      forall k | 0 <= k < |all| ensures all[k].id in Ids(Loads(issues, all, n)) {
        assert all[k] in all;
      }
    }
  }

  lemma {:induction false} PressesAreLoads(issues: seq<Issue>, all: seq<Issue>, n: nat)
    ensures Presses(Bucket(issues, |all|), all, n) == Bucket(Loads(issues, all, n), |all|)
    decreases n
  {
    hide WithPage, PageAt;
    if n > 0 {
      PressIsLoad(Bucket(issues, |all|), all);
      hide Pressed, Load;
      PressesAreLoads(Load(issues, all), all, n - 1);
    }
  }

  /** The first press replaces the cached count by the server's. */
  lemma PressIsLoad(b: Bucket, all: seq<Issue>)
    ensures |b.issues| < b.total ==> Pressed(b, all) == Bucket(Load(b.issues, all), |all|)
    ensures Pressed(Bucket(b.issues, |all|), all) == Bucket(Load(b.issues, all), |all|)
  {
    if |b.issues| >= |all| {
      assert PageAt(all, |b.issues|).issues == [];
      assert b.issues + [] == b.issues;
    }
  }

  /** Nothing more is offered and every server issue is loaded. */
  ghost predicate Complete(b: Bucket, all: seq<Issue>) {
    |b.issues| >= b.total && Ids(all) <= Ids(b.issues)
  }

  lemma {:induction false} NothingOffered(b: Bucket, all: seq<Issue>, n: nat)
    requires |b.issues| >= b.total
    ensures Presses(b, all, n) == b
    decreases n
  {
    if n > 0 {
      NothingOffered(b, all, n - 1);
    }
  }

  lemma PressesAfterFirst(b: Bucket, all: seq<Issue>, n: nat)
    requires |b.issues| < b.total && n > 0
    ensures Presses(b, all, n) == Bucket(Loads(b.issues, all, n), |all|)
  {
    hide Pressed, Load;
    PressIsLoad(b, all);
    PressesAreLoads(Load(b.issues, all), all, n - 1);
  }

  /**
   From any cached bucket: while it offers more, pressing ends with every server issue loaded exactly when
   the loaded part has no gap, whatever count was cached; a bucket that offers nothing stays as it is.
   */
  lemma PressingCompletesExactly(b: Bucket, all: seq<Issue>)
    requires DistinctIds(b.issues) && DistinctIds(all)
    ensures (exists n: nat :: Complete(Presses(b, all, n), all)) <==>
            if |b.issues| < b.total then Gapless(b.issues, all) else Ids(all) <= Ids(b.issues)
  {
    hide DistinctIds, Gapless, Pressed, Load;
    if |b.issues| < b.total {
      LoadingCompletesExactly(b.issues, all);
      if Gapless(b.issues, all) {
        var n :| |Loads(b.issues, all, n)| >= |all| && Ids(all) <= Ids(Loads(b.issues, all, n));
        if n == 0 {
          LoadedStays(b.issues, all);
        }
        var m := if n == 0 then 1 else n;
        PressesAfterFirst(b, all, m);
        assert Complete(Presses(b, all, m), all);
      }
      if n: nat :| Complete(Presses(b, all, n), all) {
        assert n > 0;
        PressesAfterFirst(b, all, n);
      }
    } else {
      assert Presses(b, all, 0) == b;
      if n: nat :| Complete(Presses(b, all, n), all) {
        NothingOffered(b, all, n);
      }
    }
  }

  lemma LoadedStays(issues: seq<Issue>, all: seq<Issue>)
    requires |issues| >= |all|
    ensures Loads(issues, all, 1) == issues
  {
    assert Loads(issues, all, 1) == Loads(Load(issues, all), all, 0);
  }

  lemma AllLoadedHasNoGap(issues: seq<Issue>, all: seq<Issue>)
    requires Ids(all) <= Ids(issues)
    ensures Gapless(issues, all)
  {
    forall k | 0 <= k < |all| ensures all[k].id in Ids(issues) {
      assert all[k] in all;
    }
  }

  lemma LoadStaysAmong(issues: seq<Issue>, all: seq<Issue>)
    requires Ids(issues) <= Ids(all)
    ensures Ids(Load(issues, all)) <= Ids(all)
  {
    forall x | x in Load(issues, all) ensures x.id in Ids(all) {
      assert x in issues ==> x.id in Ids(issues);
    }
  }

  /** What is loaded of a fixed list, and the count the server gave. */
  function Loaded(all: seq<Issue>, n: nat): Bucket {
    Bucket(all[..if n < |all| then n else |all|], |all|)
  }

  lemma PressLoadsNextPage(all: seq<Issue>, n: nat)
    requires DistinctIds(all)
    ensures Pressed(Loaded(all, n), all) == Loaded(all, n + 50)
  {
    if n < |all| {
      var page := PageAt(all, n).issues;
      var hi := if n + 50 < |all| then n + 50 else |all|;
      assert page == all[n..hi] && all[..n] + page == all[..hi];
      NewIssues(all, n, page);
      hide Ids, DistinctIds, PageAt;
    }
  }

  lemma NewIssues(all: seq<Issue>, n: nat, page: seq<Issue>)
    requires DistinctIds(all) && n <= |all| && page <= all[n..]
    ensures Filter((i: Issue) => i.id !in Ids(all[..n]), page) == page
  {
    forall i | i in page ensures i.id !in Ids(all[..n]) {
      var k :| 0 <= k < |page| && page[k] == i;
      assert all[n + k] == i;
    }
    hide DistinctIds, Ids;
    FilterAll((i: Issue) => i.id !in Ids(all[..n]), page);
  }

  /** From a loaded beginning each press loads the next fifty, in the server's order, until nothing is left. */
  lemma {:induction false} PressesLoadInOrder(all: seq<Issue>, n: nat, presses: nat)
    requires DistinctIds(all)
    ensures Presses(Loaded(all, n), all, presses) == Loaded(all, n + 50 * presses)
    decreases presses
  {
    hide Pressed, DistinctIds, Loaded;
    if presses > 0 {
      PressLoadsNextPage(all, n);
      PressesLoadInOrder(all, n + 50, presses - 1);
    }
  }

  /** With a gap among the server's issues the button never goes away and never helps. */
  lemma {:induction false} GapNeverFinishes(issues: seq<Issue>, all: seq<Issue>, n: nat)
    requires DistinctIds(issues) && DistinctIds(all) && Ids(issues) <= Ids(all) && !Gapless(issues, all)
    ensures |Loads(issues, all, n)| < |all|
    decreases n
  {
    hide DistinctIds, Gapless, Load;
    if n == 0 {
      IdCount(issues);
      IdCount(all);
      if |issues| >= |all| {
        SubsetSameSize(Ids(issues), Ids(all));
        AllLoadedHasNoGap(issues, all);
      }
    } else {
      LoadKeepsGapsExactly(issues, all);
      LoadKeepsDistinct(issues, all);
      LoadStaysAmong(issues, all);
      GapNeverFinishes(Load(issues, all), all, n - 1);
    }
  }

  /** A created issue appended to the loaded part opens a gap unless the server sorts it right there. */
  lemma CreatedIssueOpensGapUnlessNext(issues: seq<Issue>, all: seq<Issue>, created: Issue, position: nat)
    requires DistinctIds(issues) && DistinctIds(all) && |issues| <= position < |all| && Gapless(issues, all)
    requires all[position] == created
    ensures Gapless(issues + [created], all) <==> position == |issues|
  {
    GaplessIsPrefix(issues, all);
    var next := issues + [created];
    assert Ids(next) == Ids(issues) + {created.id} by {
      assert created in next && forall x :: x in issues ==> x in next;
    }
    assert all[|issues|].id !in Ids(all[..|issues|]);
  }
}
