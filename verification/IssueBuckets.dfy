/**
 The bucketed issue list: per status the loaded issues and the server's total. The flattened view
 over the paginated statuses behaves as a map from ids to issues.
 */
module IssueBuckets {
  import opened Common

  datatype Status = Backlog | Todo | InProgress | InReview | Done | Blocked | Cancelled

  /** Cancelled is not paginated: it has a bucket that no view looks at. */
  const PAGINATED_STATUSES: seq<Status> := [Backlog, Todo, InProgress, InReview, Done, Blocked]

  predicate Paginated(s: Status) {
    s != Cancelled
  }

  /** `fields` are the properties no operation here looks at. */
  datatype Issue = Issue(id: string, status: Status, parentId: Option<string>, fields: map<string, string>)

  datatype Patch = Patch(status: Option<Status>, parentId: Option<Option<string>>, fields: map<string, string>)

  datatype Bucket = Bucket(issues: seq<Issue>, total: int)

  type ListCache = map<Status, Bucket>

  /** The issue with the properties of the patch in place of its own. */
  function Merge(issue: Issue, patch: Patch): (r: Issue)
    ensures r.id == issue.id
  {
    Issue(issue.id,
          if patch.status.Some? then patch.status.value else issue.status,
          if patch.parentId.Some? then patch.parentId.value else issue.parentId,
          issue.fields + patch.fields)
  }

  const EMPTY_BUCKET := Bucket([], 0)

  function GetBucket(c: ListCache, s: Status): Bucket {
    if s in c then c[s] else EMPTY_BUCKET
  }

  function SetBucket(c: ListCache, s: Status, b: Bucket): ListCache {
    c[s := b]
  }

  function FindId(issues: seq<Issue>, id: string): (r: Option<Issue>)
    ensures r.Some? ==> r.value in issues && r.value.id == id
    ensures r.None? ==> forall i :: i in issues ==> i.id != id
  {
    if issues == [] then None
    else if issues[0].id == id then Some(issues[0])
    else FindId(issues[1..], id)
  }

  datatype Location = Location(status: Status, issue: Issue)

  function FindAmong(c: ListCache, statuses: seq<Status>, id: string): (r: Option<Location>)
    ensures r.Some? ==>
              r.value.status in statuses && r.value.issue in GetBucket(c, r.value.status).issues && r.value.issue.id == id
    ensures r.None? ==> forall s, i :: s in statuses && i in GetBucket(c, s).issues ==> i.id != id
  {
    if statuses == [] then None
    else
      var found := FindId(GetBucket(c, statuses[0]).issues, id);
      if found.Some? then Some(Location(statuses[0], found.value))
      else FindAmong(c, statuses[1..], id)
  }

  function FindIssueLocation(c: ListCache, id: string): Option<Location> {
    FindAmong(c, PAGINATED_STATUSES, id)
  }

  function Without(issues: seq<Issue>, id: string): (r: seq<Issue>)
    ensures forall i :: i in r <==> i in issues && i.id != id
  {
    Filter((i: Issue) => i.id != id, issues)
  }

  function Replaced(issues: seq<Issue>, id: string, merged: Issue): (r: seq<Issue>)
    ensures |r| == |issues|
    ensures forall k :: 0 <= k < |r| ==> r[k] == if issues[k].id == id then merged else issues[k]
  {
    Map((i: Issue) => if i.id == id then merged else i, issues)
  }

  function Max(a: int, b: int): int {
    if a < b then b else a
  }

  function AddIssueToBuckets(c: ListCache, issue: Issue): ListCache {
    var b := GetBucket(c, issue.status);
    if FindId(b.issues, issue.id).Some? then c
    else SetBucket(c, issue.status, Bucket(b.issues + [issue], b.total + 1))
  }

  function RemoveIssueFromBuckets(c: ListCache, id: string): ListCache {
    var loc := FindIssueLocation(c, id);
    if loc.None? then c
    else
      var b := GetBucket(c, loc.value.status);
      SetBucket(c, loc.value.status, Bucket(Without(b.issues, id), Max(0, b.total - 1)))
  }

  function PatchIssueInBuckets(c: ListCache, id: string, patch: Patch): ListCache {
    var loc := FindIssueLocation(c, id);
    if loc.None? then c
    else
      var s := loc.value.status;
      var merged := Merge(loc.value.issue, patch);
      var next := if patch.status.Some? then patch.status.value else s;
      if next == s then
        var b := GetBucket(c, s);
        SetBucket(c, s, b.(issues := Replaced(b.issues, id, merged)))
      else
        var from, to := GetBucket(c, s), GetBucket(c, next);
        var left := SetBucket(c, s, Bucket(Without(from.issues, id), Max(0, from.total - 1)));
        SetBucket(left, next, Bucket(to.issues + [merged], to.total + 1))
  }

  // ---------------------------------------------------------------------------
  // Well-formed caches and their view
  // ---------------------------------------------------------------------------

  /** `issue` is shown from bucket `s`. */
  ghost predicate Holds(c: ListCache, s: Status, issue: Issue) {
    Paginated(s) && issue in GetBucket(c, s).issues
  }

  ghost predicate DistinctIds(issues: seq<Issue>) {
    forall i, j :: 0 <= i < j < |issues| ==> issues[i].id != issues[j].id
  }

  ghost predicate BucketOk(s: Status, b: Bucket) {
    DistinctIds(b.issues) && |b.issues| <= b.total && forall i :: i in b.issues ==> i.status == s
  }

  /** In the visible buckets every issue sits in the bucket of its status, once, and counts cover what is loaded. */
  ghost predicate WellFormed(c: ListCache) {
    && (forall s :: Paginated(s) ==> BucketOk(s, GetBucket(c, s)))
    && forall s, t, i, j :: Holds(c, s, i) && Holds(c, t, j) && i.id == j.id ==> s == t
  }

  lemma PaginatedStatuses()
    ensures forall s :: s in PAGINATED_STATUSES <==> Paginated(s)
  {
    forall s ensures s in PAGINATED_STATUSES <==> Paginated(s) {
      assert PAGINATED_STATUSES[0] == Backlog && PAGINATED_STATUSES[1] == Todo && PAGINATED_STATUSES[2] == InProgress;
      assert PAGINATED_STATUSES[3] == InReview && PAGINATED_STATUSES[4] == Done && PAGINATED_STATUSES[5] == Blocked;
    }
  }

  lemma Located(c: ListCache, id: string)
    ensures var loc := FindIssueLocation(c, id);
            && (loc.Some? ==> Holds(c, loc.value.status, loc.value.issue) && loc.value.issue.id == id)
            && (loc.None? ==> forall s, i :: Holds(c, s, i) ==> i.id != id)
  {
    PaginatedStatuses();
  }

  lemma SameIssue(c: ListCache, s: Status, i: Issue, t: Status, j: Issue)
    requires WellFormed(c) && Holds(c, s, i) && Holds(c, t, j) && i.id == j.id
    ensures s == t && i == j
  {
    var issues := GetBucket(c, s).issues;
    var a :| 0 <= a < |issues| && issues[a] == i;
    var b :| 0 <= b < |issues| && issues[b] == j;
    assert BucketOk(s, GetBucket(c, s));
    assert !(a < b) && !(b < a);
  }

  /** The loaded issues of the statuses, bucket by bucket. */
  function FlattenAmong(c: ListCache, statuses: seq<Status>): seq<Issue> {
    if statuses == [] then [] else GetBucket(c, statuses[0]).issues + FlattenAmong(c, statuses[1..])
  }

  function FlattenIssueBuckets(c: ListCache): seq<Issue> {
    FlattenAmong(c, PAGINATED_STATUSES)
  }

  /** The board's columns in order, each bucket's issues in its own order and once. */
  lemma FlattenInColumnOrder(c: ListCache)
    ensures FlattenIssueBuckets(c) ==
            GetBucket(c, Backlog).issues + GetBucket(c, Todo).issues + GetBucket(c, InProgress).issues +
            GetBucket(c, InReview).issues + GetBucket(c, Done).issues + GetBucket(c, Blocked).issues
  {
    hide GetBucket;
    var all := PAGINATED_STATUSES;
    assert all[5..] == [Blocked] && all[5..][1..] == [];
    assert all[4..] == [Done, Blocked] && all[4..][1..] == all[5..];
    assert all[3..] == [InReview, Done, Blocked] && all[3..][1..] == all[4..];
    assert all[2..] == [InProgress, InReview, Done, Blocked] && all[2..][1..] == all[3..];
    assert all[1..] == [Todo, InProgress, InReview, Done, Blocked] && all[1..][1..] == all[2..];
    assert FlattenAmong(c, all[5..]) == GetBucket(c, Blocked).issues;
    assert FlattenAmong(c, all[4..]) == GetBucket(c, Done).issues + FlattenAmong(c, all[5..]);
    assert FlattenAmong(c, all[3..]) == GetBucket(c, InReview).issues + FlattenAmong(c, all[4..]);
    assert FlattenAmong(c, all[2..]) == GetBucket(c, InProgress).issues + FlattenAmong(c, all[3..]);
    assert FlattenAmong(c, all[1..]) == GetBucket(c, Todo).issues + FlattenAmong(c, all[2..]);
  }

  lemma {:induction false} FlattenMembers(c: ListCache, statuses: seq<Status>, i: Issue)
    ensures i in FlattenAmong(c, statuses) <==> exists s :: s in statuses && i in GetBucket(c, s).issues
  {
    if statuses != [] {
      FlattenMembers(c, statuses[1..], i);
      assert statuses == [statuses[0]] + statuses[1..];
    }
  }

  /** The flattened list, read as a map from id to issue. */
  ghost function View(c: ListCache): map<string, Issue> {
    map id | id in (set i | i in FlattenIssueBuckets(c) :: i.id) && FindIssueLocation(c, id).Some? ::
      FindIssueLocation(c, id).value.issue
  }

  /** The view of a well-formed cache is exactly what the flattened list shows, each id once. */
  lemma ViewShows(c: ListCache, i: Issue)
    requires WellFormed(c)
    ensures i in FlattenIssueBuckets(c) <==> i.id in View(c) && View(c)[i.id] == i
    ensures i in FlattenIssueBuckets(c) <==> exists s :: Holds(c, s, i)
  {
    hide FindIssueLocation, FlattenAmong, Paginated, WellFormed;
    PaginatedStatuses();
    FlattenMembers(c, PAGINATED_STATUSES, i);
    Located(c, i.id);
    if i in FlattenIssueBuckets(c) {
      var s :| s in PAGINATED_STATUSES && i in GetBucket(c, s).issues;
      assert Holds(c, s, i);
      var loc := FindIssueLocation(c, i.id).value;
      SameIssue(c, s, i, loc.status, loc.issue);
    }
  }

  lemma ViewLookup(c: ListCache, id: string)
    ensures id in View(c) <==> FindIssueLocation(c, id).Some?
    ensures id in View(c) ==> View(c)[id] == FindIssueLocation(c, id).value.issue
  {
    Located(c, id);
    PaginatedStatuses();
    if FindIssueLocation(c, id).Some? {
      var loc := FindIssueLocation(c, id).value;
      FlattenMembers(c, PAGINATED_STATUSES, loc.issue);
    }
  }

  lemma ViewFromHolds(c: ListCache, s: Status, i: Issue)
    requires WellFormed(c) && Holds(c, s, i)
    ensures i.id in View(c) && View(c)[i.id] == i && FindIssueLocation(c, i.id) == Some(Location(s, i))
  {
    hide WellFormed, View, FindIssueLocation;
    Located(c, i.id);
    var loc := FindIssueLocation(c, i.id).value;
    SameIssue(c, s, i, loc.status, loc.issue);
    ViewLookup(c, i.id);
  }

  /** Two well-formed caches hold the same issues in the same buckets when each shows what a map says. */
  ghost predicate Shows(c: ListCache, m: map<string, Issue>) {
    && (forall s, i :: Holds(c, s, i) ==> i.id in m && m[i.id] == i)
    && (forall id :: id in m ==> m[id].id == id && Holds(c, m[id].status, m[id]))
  }

  lemma ShowsIsView(c: ListCache, m: map<string, Issue>)
    requires WellFormed(c)
    ensures Shows(c, m) <==> View(c) == m
  {
    hide View, FindIssueLocation;
    if Shows(c, m) {
      forall id ensures id in View(c) <==> id in m
        ensures id in m ==> View(c)[id] == m[id]
      {
        Located(c, id);
        ViewLookup(c, id);
        if id in m {
          ViewFromHolds(c, m[id].status, m[id]);
        }
      }
    }
    if View(c) == m {
      forall s, i | Holds(c, s, i) ensures i.id in m && m[i.id] == i {
        ViewFromHolds(c, s, i);
      }
      forall id | id in m ensures m[id].id == id && Holds(c, m[id].status, m[id]) {
        Located(c, id);
        ViewLookup(c, id);
      }
    }
  }

  /** What the server has beyond what is loaded. */
  function Remainder(c: ListCache, s: Status): int {
    GetBucket(c, s).total - |GetBucket(c, s).issues|
  }

  // ---------------------------------------------------------------------------
  // Buckets
  // ---------------------------------------------------------------------------

  lemma WithoutNone(issues: seq<Issue>, id: string)
    requires forall i :: i in issues ==> i.id != id
    ensures Without(issues, id) == issues
  {
    FilterAll((i: Issue) => i.id != id, issues);
  }

  /** Filtering an id out of a list with distinct ids takes out its one position. */
  lemma WithoutAt(issues: seq<Issue>, at: nat)
    requires DistinctIds(issues) && at < |issues|
    ensures Without(issues, issues[at].id) == issues[..at] + issues[at + 1..]
  {
    var keep := (i: Issue) => i.id != issues[at].id;
    var before, after := issues[..at], issues[at + 1..];
    assert issues == before + ([issues[at]] + after);
    FilterConcat(keep, before, [issues[at]] + after);
    FilterConcat(keep, [issues[at]], after);
    FilterAll(keep, before);
    FilterAll(keep, after);
    assert Filter(keep, [issues[at]]) == [];
  }

  lemma RemoveOk(s: Status, b: Bucket, i: Issue)
    requires BucketOk(s, b) && i in b.issues
    ensures BucketOk(s, Bucket(Without(b.issues, i.id), Max(0, b.total - 1)))
    ensures |Without(b.issues, i.id)| == |b.issues| - 1 && Max(0, b.total - 1) == b.total - 1
  {
    var at :| 0 <= at < |b.issues| && b.issues[at] == i;
    WithoutAt(b.issues, at);
  }

  lemma ReplaceOk(s: Status, b: Bucket, merged: Issue)
    requires BucketOk(s, b) && merged.status == s
    ensures BucketOk(s, b.(issues := Replaced(b.issues, merged.id, merged)))
  {
  }

  lemma AppendOk(s: Status, b: Bucket, i: Issue)
    requires BucketOk(s, b) && i.status == s && forall j :: j in b.issues ==> j.id != i.id
    ensures BucketOk(s, Bucket(b.issues + [i], b.total + 1))
  {
  }

  // ---------------------------------------------------------------------------
  // The operations on the view
  // ---------------------------------------------------------------------------

  /**
   Adding an issue keeps the cache well-formed exactly when its id is not already shown from another
   bucket: the operation looks for duplicates in the target bucket only.
   */
  lemma AddKeepsWellFormed(c: ListCache, issue: Issue)
    requires WellFormed(c)
    ensures WellFormed(AddIssueToBuckets(c, issue)) <==>
            (Paginated(issue.status) && issue.id in View(c) ==> View(c)[issue.id].status == issue.status)
  {
    hide View, FindIssueLocation, FindId, WellFormed, BucketOk;
    var s, next := issue.status, AddIssueToBuckets(c, issue);
    var b := GetBucket(c, s);
    if FindId(b.issues, issue.id).Some? {
      if Paginated(s) {
        ViewFromHolds(c, s, FindId(b.issues, issue.id).value);
        StatusOf(c, s, FindId(b.issues, issue.id).value);
      }
    } else {
      Located(c, issue.id);
      ViewLookup(c, issue.id);
      if issue.id in View(c) {
        var loc := FindIssueLocation(c, issue.id).value;
        StatusOf(c, loc.status, loc.issue);
        AddBeside(c, issue, loc);
      } else {
        Arrives(c, next, issue);
      }
    }
  }

  /** A second copy in another visible bucket breaks the cache; a parked copy does not. */
  lemma AddBeside(c: ListCache, issue: Issue, loc: Location)
    requires WellFormed(c) && Holds(c, loc.status, loc.issue) && loc.issue.id == issue.id
    requires FindId(GetBucket(c, issue.status).issues, issue.id).None?
    ensures loc.status != issue.status
    ensures WellFormed(AddIssueToBuckets(c, issue)) <==> !Paginated(issue.status)
  {
    hide FindId, BucketOk;
    var next := AddIssueToBuckets(c, issue);
    assert Holds(next, loc.status, loc.issue);
    if Paginated(issue.status) {
      assert Holds(next, issue.status, issue);
    } else {
      forall t | Paginated(t) ensures GetBucket(next, t) == GetBucket(c, t) {
      }
      forall t, j ensures Holds(next, t, j) <==> Holds(c, t, j) {
      }
    }
  }

  /** Whether a creation may happen: its id is not shown from another bucket. */
  ghost predicate CreationAllowed(m: map<string, Issue>, issue: Issue) {
    Paginated(issue.status) && issue.id in m ==> m[issue.id].status == issue.status
  }

  /** What each operation does to the map. */
  ghost function MapAdd(m: map<string, Issue>, issue: Issue): map<string, Issue> {
    if Paginated(issue.status) && issue.id !in m then m[issue.id := issue] else m
  }

  ghost function MapPatch(m: map<string, Issue>, id: string, patch: Patch): map<string, Issue> {
    if id !in m then m
    else if Paginated(Merge(m[id], patch).status) then m[id := Merge(m[id], patch)]
    else m - {id}
  }

  lemma AddIsInsert(c: ListCache, issue: Issue)
    requires WellFormed(c) && CreationAllowed(View(c), issue)
    ensures var next := AddIssueToBuckets(c, issue);
            WellFormed(next) && View(next) == MapAdd(View(c), issue)
    ensures forall s :: Remainder(AddIssueToBuckets(c, issue), s) == Remainder(c, s)
  {
    hide View, FindIssueLocation, FindId, WellFormed, BucketOk;
    var s, next, m := issue.status, AddIssueToBuckets(c, issue), View(c);
    var b := GetBucket(c, s);
    AddKeepsWellFormed(c, issue);
    ShowsIsView(c, m);
    if FindId(b.issues, issue.id).Some? {
      if Paginated(s) {
        ViewFromHolds(c, s, FindId(b.issues, issue.id).value);
      }
    } else {
      NotShown(c, issue);
      AddShows(c, issue, m);
      ShowsIsView(next, MapAdd(m, issue));
    }
  }

  lemma NotShown(c: ListCache, issue: Issue)
    requires WellFormed(c) && CreationAllowed(View(c), issue)
    requires FindId(GetBucket(c, issue.status).issues, issue.id).None?
    ensures Paginated(issue.status) ==> issue.id !in View(c)
  {
    hide View, FindIssueLocation, FindId, WellFormed;
    Located(c, issue.id);
    ViewLookup(c, issue.id);
    if issue.id in View(c) {
      var loc := FindIssueLocation(c, issue.id).value;
      StatusOf(c, loc.status, loc.issue);
    }
  }

  lemma AddShows(c: ListCache, issue: Issue, m: map<string, Issue>)
    requires Shows(c, m) && (Paginated(issue.status) ==> issue.id !in m)
    requires FindId(GetBucket(c, issue.status).issues, issue.id).None?
    ensures Shows(AddIssueToBuckets(c, issue), MapAdd(m, issue))
  {
    hide FindId;
    var next, m' := AddIssueToBuckets(c, issue), MapAdd(m, issue);
    forall s, i | Holds(next, s, i) ensures i.id in m' && m'[i.id] == i {
      assert Holds(c, s, i) || (s == issue.status && i == issue);
    }
    forall id | id in m' ensures m'[id].id == id && Holds(next, m'[id].status, m'[id]) {
      assert id in m ==> Holds(c, m[id].status, m[id]);
    }
  }

  lemma RemoveIsDelete(c: ListCache, id: string)
    requires WellFormed(c)
    ensures var next := RemoveIssueFromBuckets(c, id);
            WellFormed(next) && View(next) == View(c) - {id}
    ensures forall s :: Remainder(RemoveIssueFromBuckets(c, id), s) == Remainder(c, s)
  {
    hide View, FindIssueLocation, WellFormed, BucketOk;
    var next, m := RemoveIssueFromBuckets(c, id), View(c);
    Located(c, id);
    ViewLookup(c, id);
    if id !in m {
      assert m - {id} == m;
    } else {
      var loc := FindIssueLocation(c, id).value;
      WellFormedBucket(c, loc.status);
      RemoveOk(loc.status, GetBucket(c, loc.status), loc.issue);
      TakenOut(c, next, loc.status, loc.issue);
      ShowsIsView(c, m);
      ShowsIsView(next, m - {id});
    }
  }

  lemma WellFormedBucket(c: ListCache, s: Status)
    requires WellFormed(c) && Paginated(s)
    ensures BucketOk(s, GetBucket(c, s))
  {
  }

  lemma ShowsWithout(c: ListCache, next: ListCache, i: Issue, m: map<string, Issue>)
    requires (forall t, j :: Holds(next, t, j) <==> Holds(c, t, j) && j.id != i.id) && Shows(c, m)
    ensures Shows(next, m - {i.id})
  {
    hide Holds;
  }

  /** Taking the one copy of an issue out of its bucket. */
  lemma TakenOut(c: ListCache, next: ListCache, s: Status, i: Issue)
    requires WellFormed(c) && Holds(c, s, i)
    requires forall t :: t != s ==> GetBucket(next, t) == GetBucket(c, t)
    requires GetBucket(next, s).issues == Without(GetBucket(c, s).issues, i.id) && BucketOk(s, GetBucket(next, s))
    ensures WellFormed(next)
    ensures forall m :: Shows(c, m) ==> Shows(next, m - {i.id})
  {
    hide BucketOk;
    forall t, j ensures Holds(next, t, j) <==> Holds(c, t, j) && j.id != i.id {
      if Holds(c, t, j) && j.id == i.id {
        SameIssue(c, s, i, t, j);
      }
    }
    forall t | Paginated(t) ensures BucketOk(t, GetBucket(next, t)) {
      assert t != s ==> BucketOk(t, GetBucket(c, t));
    }
    hide Shows;
    forall m | Shows(c, m) ensures Shows(next, m - {i.id}) {
      ShowsWithout(c, next, i, m);
    }
  }

  lemma PatchIsMerge(c: ListCache, id: string, patch: Patch)
    requires WellFormed(c)
    ensures var next := PatchIssueInBuckets(c, id, patch);
            WellFormed(next) && View(next) == MapPatch(View(c), id, patch)
    ensures forall s :: Remainder(PatchIssueInBuckets(c, id, patch), s) == Remainder(c, s)
  {
    hide View, FindIssueLocation, WellFormed, BucketOk;
    var m := View(c);
    Located(c, id);
    ViewLookup(c, id);
    if id in m {
      var loc := FindIssueLocation(c, id).value;
      ViewFromHolds(c, loc.status, loc.issue);
      StatusOf(c, loc.status, loc.issue);
      if Merge(loc.issue, patch).status == loc.status {
        PatchInPlace(c, id, patch);
      } else {
        PatchMoves(c, id, patch);
      }
    }
  }

  lemma StatusOf(c: ListCache, s: Status, i: Issue)
    requires WellFormed(c) && Holds(c, s, i)
    ensures i.status == s
  {
    assert BucketOk(s, GetBucket(c, s));
  }

  lemma PatchInPlace(c: ListCache, id: string, patch: Patch)
    requires WellFormed(c) && FindIssueLocation(c, id).Some? && id in View(c)
    requires var loc := FindIssueLocation(c, id).value;
             Merge(loc.issue, patch).status == loc.status && loc.issue.status == loc.status && View(c)[id] == loc.issue
    ensures var next := PatchIssueInBuckets(c, id, patch);
            WellFormed(next) && View(next) == MapPatch(View(c), id, patch)
    ensures forall s :: Remainder(PatchIssueInBuckets(c, id, patch), s) == Remainder(c, s)
  {
    hide View, FindIssueLocation, WellFormed, BucketOk;
    var loc := FindIssueLocation(c, id).value;
    var s, merged := loc.status, Merge(loc.issue, patch);
    var next := PatchIssueInBuckets(c, id, patch);
    Located(c, id);
    WellFormedBucket(c, s);
    ReplaceOk(s, GetBucket(c, s), merged);
    SwappedIn(c, next, s, loc.issue, merged);
    ShowsIsView(c, View(c));
    ShowsIsView(next, View(c)[id := merged]);
  }

  lemma ShowsSwapped(c: ListCache, next: ListCache, s: Status, i: Issue, merged: Issue, m: map<string, Issue>)
    requires forall t, j :: Holds(next, t, j) <==> (Holds(c, t, j) && j.id != i.id) || (t == s && j == merged)
    requires merged.id == i.id && merged.status == s && Shows(c, m)
    ensures Shows(next, m[i.id := merged])
  {
    hide Holds;
  }

  /** Replacing the one copy of an issue in its bucket. */
  lemma SwappedIn(c: ListCache, next: ListCache, s: Status, i: Issue, merged: Issue)
    requires WellFormed(c) && Holds(c, s, i) && merged.id == i.id && merged.status == s
    requires forall t :: t != s ==> GetBucket(next, t) == GetBucket(c, t)
    requires GetBucket(next, s).issues == Replaced(GetBucket(c, s).issues, i.id, merged) && BucketOk(s, GetBucket(next, s))
    ensures WellFormed(next)
    ensures forall m :: Shows(c, m) ==> Shows(next, m[i.id := merged])
  {
    hide BucketOk;
    var olds, news := GetBucket(c, s).issues, GetBucket(next, s).issues;
    forall t, j ensures Holds(next, t, j) <==> (Holds(c, t, j) && j.id != i.id) || (t == s && j == merged) {
      if t == s {
        var at :| 0 <= at < |olds| && olds[at] == i;
        assert news[at] == merged;
        forall k | 0 <= k < |olds| && olds[k] == j && j.id != i.id ensures j in news {
          assert news[k] == j;
        }
      } else if Holds(c, t, j) && j.id == i.id {
        SameIssue(c, s, i, t, j);
      }
    }
    forall t | Paginated(t) ensures BucketOk(t, GetBucket(next, t)) {
      assert t != s ==> BucketOk(t, GetBucket(c, t));
    }
    hide Shows;
    assert Holds(next, s, merged);
    forall m | Shows(c, m) ensures Shows(next, m[i.id := merged]) {
      ShowsSwapped(c, next, s, i, merged, m);
    }
  }

  lemma PatchMoves(c: ListCache, id: string, patch: Patch)
    requires WellFormed(c) && FindIssueLocation(c, id).Some? && id in View(c)
    requires var loc := FindIssueLocation(c, id).value;
             Merge(loc.issue, patch).status != loc.status && loc.issue.status == loc.status && View(c)[id] == loc.issue
    ensures var next := PatchIssueInBuckets(c, id, patch);
            WellFormed(next) && View(next) == MapPatch(View(c), id, patch)
    ensures forall s :: Remainder(PatchIssueInBuckets(c, id, patch), s) == Remainder(c, s)
  {
    hide View, FindIssueLocation, WellFormed, BucketOk, FindId;
    var loc := FindIssueLocation(c, id).value;
    var s, merged := loc.status, Merge(loc.issue, patch);
    var left := RemoveIssueFromBuckets(c, id);
    RemoveIsDelete(c, id);
    Located(c, id);
    WellFormedBucket(c, s);
    RemoveOk(s, GetBucket(c, s), loc.issue);
    var next := PatchIssueInBuckets(c, id, patch);
    var to := GetBucket(left, merged.status);
    assert GetBucket(c, merged.status) == to;
    assert next == SetBucket(left, merged.status, Bucket(to.issues + [merged], to.total + 1));
    Arrives(left, next, merged);
  }

  /** An issue that is not shown arrives in the bucket of its status. */
  lemma Arrives(c: ListCache, next: ListCache, i: Issue)
    requires WellFormed(c) && i.id !in View(c)
    requires var b := GetBucket(c, i.status); next == SetBucket(c, i.status, Bucket(b.issues + [i], b.total + 1))
    ensures WellFormed(next)
    ensures View(next) == if Paginated(i.status) then View(c)[i.id := i] else View(c)
    ensures forall s :: Remainder(next, s) == Remainder(c, s)
  {
    hide View, BucketOk;
    ShowsIsView(c, View(c));
    var s, b := i.status, GetBucket(c, i.status);
    if Paginated(s) {
      forall j | j in b.issues ensures j.id != i.id {
        assert Holds(c, s, j);
      }
      AppendOk(s, b, i);
    }
    forall t | Paginated(t) ensures BucketOk(t, GetBucket(next, t)) {
      assert t != s ==> BucketOk(t, GetBucket(c, t));
    }
    forall t, j ensures Holds(next, t, j) <==> Holds(c, t, j) || (Paginated(s) && t == s && j == i) {
    }
    ShowsIsView(next, if Paginated(s) then View(c)[i.id := i] else View(c));
  }

  // ---------------------------------------------------------------------------
  // Order within the buckets
  // ---------------------------------------------------------------------------

  /** A created issue goes last in the bucket of its status. */
  lemma CreatedGoesLast(c: ListCache, issue: Issue)
    requires forall i :: i in GetBucket(c, issue.status).issues ==> i.id != issue.id
    ensures var next := AddIssueToBuckets(c, issue);
            && GetBucket(next, issue.status).issues == GetBucket(c, issue.status).issues + [issue]
            && forall t :: t != issue.status ==> GetBucket(next, t) == GetBucket(c, t)
  {
  }

  /**
   A patched issue keeps its place, or goes last in the bucket of its new status. The others keep their
   order and their buckets.
   */
  lemma PatchKeepsOrder(c: ListCache, id: string, patch: Patch) returns (at: nat)
    requires WellFormed(c) && id in View(c)
    ensures var s := View(c)[id].status;
            var to := if patch.status.Some? then patch.status.value else s;
            var next := PatchIssueInBuckets(c, id, patch);
            var was, now := GetBucket(c, s).issues, GetBucket(next, s).issues;
            && at < |was| && was[at].id == id
            && (to == s ==>
                  |now| == |was| && now[at].id == id && forall k :: 0 <= k < |was| && k != at ==> now[k] == was[k])
            && (to != s ==> now == was[..at] + was[at + 1..])
            && (to != s ==>
                  var there, then' := GetBucket(c, to).issues, GetBucket(next, to).issues;
                  |then'| == |there| + 1 && then'[..|there|] == there && then'[|there|].id == id)
            && (forall u :: u != s && u != to ==> GetBucket(next, u) == GetBucket(c, u))
  {
    hide View, FindIssueLocation, WellFormed, Without;
    Located(c, id);
    ViewLookup(c, id);
    var loc := FindIssueLocation(c, id).value;
    StatusOf(c, loc.status, loc.issue);
    WellFormedBucket(c, loc.status);
    var was := GetBucket(c, loc.status).issues;
    at :| 0 <= at < |was| && was[at] == loc.issue;
    WithoutAt(was, at);
  }

  // ---------------------------------------------------------------------------
  // Repetition and order of patches
  // ---------------------------------------------------------------------------

  /** `now` is `was` with exactly the properties the patch gives in place of its own. */
  ghost predicate ShowsPatch(was: Issue, patch: Patch, now: Issue) {
    && now.id == was.id
    && (patch.status.Some? ==> now.status == patch.status.value)
    && (patch.status.None? ==> now.status == was.status)
    && (patch.parentId.Some? ==> now.parentId == patch.parentId.value)
    && (patch.parentId.None? ==> now.parentId == was.parentId)
    && (forall key :: key in patch.fields ==> key in now.fields && now.fields[key] == patch.fields[key])
    && (forall key :: key !in patch.fields ==> (key in now.fields <==> key in was.fields))
    && (forall key :: key !in patch.fields && key in was.fields ==> now.fields[key] == was.fields[key])
  }

  lemma MergedShowsPatch(was: Issue, patch: Patch)
    ensures ShowsPatch(was, patch, Merge(was, patch))
  {
  }

  /**
   What the view shows after a patch: the patched issue has exactly the patch's properties in place of its
   own, or is gone when the patch cancels it, and every other issue is as before.
   */
  lemma PatchedViewShowsPatch(c: ListCache, id: string, patch: Patch)
    requires WellFormed(c) && id in View(c)
    ensures var before, after := View(c), View(PatchIssueInBuckets(c, id, patch));
            && (id in after <==> patch.status != Some(Cancelled))
            && (id in after ==> ShowsPatch(before[id], patch, after[id]))
            && (forall other :: other != id ==> (other in after <==> other in before))
            && (forall other :: other != id && other in before ==> after[other] == before[other])
  {
    hide View, WellFormed, PatchIssueInBuckets, ShowsPatch;
    PatchIsMerge(c, id, patch);
    MergedShowsPatch(View(c)[id], patch);
    StatusShown(c, id);
  }

  /** The list `now` shows what `was` showed, with the patch on exactly the given ids. */
  ghost predicate ListShows(was: ListCache, now: ListCache, ids: set<string>, patch: Patch) {
    && (forall id :: id in View(now) <==> id in View(was) && (id in ids ==> patch.status != Some(Cancelled)))
    && (forall id :: id in View(now) && id in View(was) ==>
          if id in ids then ShowsPatch(View(was)[id], patch, View(now)[id]) else View(now)[id] == View(was)[id])
  }

  lemma PatchListShows(c: ListCache, id: string, patch: Patch)
    requires WellFormed(c)
    ensures ListShows(c, PatchIssueInBuckets(c, id, patch), {id}, patch)
  {
    hide View, WellFormed, PatchIssueInBuckets, ShowsPatch;
    if id in View(c) {
      PatchedViewShowsPatch(c, id, patch);
    } else {
      PatchIsMerge(c, id, patch);
    }
    hide Merge;
  }

  lemma ShowsPatchTwice(was: Issue, patch: Patch, once: Issue, twice: Issue)
    requires ShowsPatch(was, patch, once) && ShowsPatch(once, patch, twice)
    ensures ShowsPatch(was, patch, twice)
  {
  }

  /** Patching some more ids of a list that was patched already. */
  lemma ListShowsMore(c: ListCache, mid: ListCache, now: ListCache, ids: set<string>, more: set<string>, patch: Patch)
    requires ListShows(c, mid, ids, patch) && ListShows(mid, now, more, patch)
    ensures ListShows(c, now, ids + more, patch)
  {
    hide View, ShowsPatch;
    forall id | id in View(now)
      ensures id in View(c)
      ensures if id in ids + more then ShowsPatch(View(c)[id], patch, View(now)[id]) else View(now)[id] == View(c)[id]
    {
      if id in ids && id in more {
        ShowsPatchTwice(View(c)[id], patch, View(mid)[id], View(now)[id]);
      }
    }
  }

  lemma StatusShown(c: ListCache, id: string)
    requires WellFormed(c) && id in View(c)
    ensures Paginated(View(c)[id].status)
  {
    hide FindIssueLocation, View;
    ViewLookup(c, id);
    Located(c, id);
    var loc := FindIssueLocation(c, id).value;
    StatusOf(c, loc.status, loc.issue);
  }

  lemma MergeTwice(i: Issue, patch: Patch)
    ensures Merge(Merge(i, patch), patch) == Merge(i, patch)
  {
    assert (i.fields + patch.fields) + patch.fields == i.fields + patch.fields;
  }

  /** Applying a patch again changes nothing, in the whole cache. */
  lemma PatchIsIdempotent(c: ListCache, id: string, patch: Patch)
    requires WellFormed(c)
    ensures var once := PatchIssueInBuckets(c, id, patch);
            PatchIssueInBuckets(once, id, patch) == once
  {
    hide View, FindIssueLocation, WellFormed;
    var once := PatchIssueInBuckets(c, id, patch);
    PatchIsMerge(c, id, patch);
    Located(once, id);
    ViewLookup(once, id);
    ViewLookup(c, id);
    if id in View(once) {
      var loc := FindIssueLocation(once, id).value;
      assert loc.issue == Merge(View(c)[id], patch);
      MergeTwice(View(c)[id], patch);
      StatusOf(once, loc.status, loc.issue);
      ReplaceSelf(once, loc);
    }
  }

  lemma ReplaceSelf(c: ListCache, loc: Location)
    requires WellFormed(c) && Holds(c, loc.status, loc.issue)
    ensures Replaced(GetBucket(c, loc.status).issues, loc.issue.id, loc.issue) == GetBucket(c, loc.status).issues
  {
    var issues := GetBucket(c, loc.status).issues;
    forall k | 0 <= k < |issues| && issues[k].id == loc.issue.id ensures issues[k] == loc.issue {
      assert Holds(c, loc.status, issues[k]);
      SameIssue(c, loc.status, issues[k], loc.status, loc.issue);
    }
  }

  /** The cancelled bucket only ever grows, by every shown issue that a patch cancels. */
  lemma PatchParks(c: ListCache, id: string, patch: Patch)
    requires WellFormed(c)
    ensures GetBucket(PatchIssueInBuckets(c, id, patch), Cancelled).total ==
            GetBucket(c, Cancelled).total + (if id in View(c) && patch.status == Some(Cancelled) then 1 else 0)
  {
    ViewLookup(c, id);
    Located(c, id);
    hide View, WellFormed, FindIssueLocation;
  }

  /** Patches to different issues commute on the view and on every total. */
  lemma PatchesCommute(c: ListCache, a: string, p: Patch, b: string, q: Patch)
    requires WellFormed(c) && a != b
    ensures var ab := PatchIssueInBuckets(PatchIssueInBuckets(c, a, p), b, q);
            var ba := PatchIssueInBuckets(PatchIssueInBuckets(c, b, q), a, p);
            View(ab) == View(ba) && forall s :: GetBucket(ab, s).total == GetBucket(ba, s).total
  {
    hide View, WellFormed, PatchIssueInBuckets, GetBucket, Merge;
    PatchParks(c, a, p);
    PatchParks(c, b, q);
    var pa, qb := PatchIssueInBuckets(c, a, p), PatchIssueInBuckets(c, b, q);
    PatchIsMerge(c, a, p);
    PatchIsMerge(c, b, q);
    PatchIsMerge(pa, b, q);
    PatchIsMerge(qb, a, p);
    PatchParks(pa, b, q);
    PatchParks(qb, a, p);
    var ab, ba := PatchIssueInBuckets(pa, b, q), PatchIssueInBuckets(qb, a, p);
    assert View(ab) == View(ba);
    forall s | Paginated(s) ensures GetBucket(ab, s).total == GetBucket(ba, s).total {
      SameViewSameSize(ab, ba, s);
      assert Remainder(ab, s) == Remainder(pa, s) == Remainder(c, s);
      assert Remainder(ba, s) == Remainder(qb, s) == Remainder(c, s);
    }
  }

  lemma SameViewSameSize(c: ListCache, d: ListCache, s: Status)
    requires WellFormed(c) && WellFormed(d) && View(c) == View(d) && Paginated(s)
    ensures multiset(GetBucket(c, s).issues) == multiset(GetBucket(d, s).issues)
    ensures |GetBucket(c, s).issues| == |GetBucket(d, s).issues|
  {
    hide View, WellFormed;
    ShowsIsView(c, View(c));
    ShowsIsView(d, View(c));
    WellFormedBucket(c, s);
    WellFormedBucket(d, s);
    var xs, ys := GetBucket(c, s).issues, GetBucket(d, s).issues;
    forall i ensures i in xs <==> i in ys {
      assert i in xs ==> Holds(c, s, i);
      assert i in ys ==> Holds(d, s, i);
    }
    NoDupSameElements(xs, ys);
    assert |multiset(xs)| == |multiset(ys)|;
  }

  // ---------------------------------------------------------------------------
  // Runs
  // ---------------------------------------------------------------------------

  datatype Event = IssueCreated(issue: Issue) | IssueUpdated(id: string, patch: Patch) | IssueDeleted(id: string)

  function Step(c: ListCache, e: Event): ListCache {
    match e
    case IssueCreated(issue) => AddIssueToBuckets(c, issue)
    case IssueUpdated(id, patch) => PatchIssueInBuckets(c, id, patch)
    case IssueDeleted(id) => RemoveIssueFromBuckets(c, id)
  }

  function Run(c: ListCache, events: seq<Event>): ListCache
    decreases |events|
  {
    if events == [] then c else Run(Step(c, events[0]), events[1..])
  }

  /** The same events on a plain map. */
  ghost function MapStep(m: map<string, Issue>, e: Event): map<string, Issue> {
    match e
    case IssueCreated(issue) => MapAdd(m, issue)
    case IssueUpdated(id, patch) => MapPatch(m, id, patch)
    case IssueDeleted(id) => m - {id}
  }

  ghost function MapRun(m: map<string, Issue>, events: seq<Event>): map<string, Issue>
    decreases |events|
  {
    if events == [] then m else MapRun(MapStep(m, events[0]), events[1..])
  }

  /** Created ids are absent or already in the same bucket at the time of their creation. */
  ghost predicate CreationsAllowed(m: map<string, Issue>, events: seq<Event>)
    decreases |events|
  {
    events == [] ||
    ((events[0].IssueCreated? ==> CreationAllowed(m, events[0].issue)) &&
     CreationsAllowed(MapStep(m, events[0]), events[1..]))
  }

  /**
   Over every run of events the cache refines the map: unique ids and status-matching buckets stay,
   and what the server has beyond what is loaded never changes, for any status.
   */
  lemma {:induction false} RunRefinesMap(c: ListCache, events: seq<Event>)
    requires WellFormed(c) && CreationsAllowed(View(c), events)
    ensures WellFormed(Run(c, events)) && View(Run(c, events)) == MapRun(View(c), events)
    ensures forall s :: Remainder(Run(c, events), s) == Remainder(c, s)
    decreases |events|
  {
    hide View, WellFormed, PatchIssueInBuckets, AddIssueToBuckets, RemoveIssueFromBuckets;
    if events != [] {
      match events[0] {
        case IssueCreated(issue) => AddIsInsert(c, issue);
        case IssueUpdated(id, patch) => PatchIsMerge(c, id, patch);
        case IssueDeleted(id) => RemoveIsDelete(c, id);
      }
      RunRefinesMap(Step(c, events[0]), events[1..]);
    }
  }

  /** A count never reaches below what is loaded, so the clamp at zero never acts. */
  lemma ClampNeverActs(c: ListCache, events: seq<Event>, id: string)
    requires WellFormed(c) && CreationsAllowed(View(c), events)
    ensures var last := Run(c, events);
            var loc := FindIssueLocation(last, id);
            loc.Some? ==> GetBucket(last, loc.value.status).total >= 1
  {
    hide View, FindIssueLocation, WellFormed, CreationsAllowed;
    RunRefinesMap(c, events);
    var last := Run(c, events);
    Located(last, id);
    if FindIssueLocation(last, id).Some? {
      WellFormedBucket(last, FindIssueLocation(last, id).value.status);
    }
  }

  /**
   An id parked in the cancelled bucket is out of reach: the view has lost it and no later patch
   brings it back.
   */
  lemma ParkedStaysParked(c: ListCache, id: string, patch: Patch, later: Patch)
    requires WellFormed(c) && id in View(c) && patch.status == Some(Cancelled)
    ensures var parked := PatchIssueInBuckets(c, id, patch);
            id !in View(parked) && PatchIssueInBuckets(parked, id, later) == parked
  {
    hide View, FindIssueLocation, WellFormed;
    PatchIsMerge(c, id, patch);
    ViewLookup(PatchIssueInBuckets(c, id, patch), id);
  }
}
