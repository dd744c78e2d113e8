/** Taking a deleted issue out of every cache entry that shows it. */
module DeleteCache {
  import opened Common
  import opened IssueBuckets
  import opened QueryCache

  // ---------------------------------------------------------------------------
  // Which parents list the issue
  // ---------------------------------------------------------------------------

  /** A parent joins the set unless it is missing or the empty string. */
  function AddParent(parents: seq<string>, p: Option<string>): (r: seq<string>)
    ensures NoDup(parents) ==> NoDup(r)
    ensures forall x :: x in r <==> x in parents || (p == Some(x) && x != "")
  {
    if p.Some? && p.value != "" && p.value !in parents then parents + [p.value] else parents
  }

  function ParentInBuckets(data: Option<Data>, id: string): Option<string> {
    if data.Some? && data.value.Buckets? && FindIssueLocation(data.value.lists, id).Some?
    then FindIssueLocation(data.value.lists, id).value.issue.parentId
    else None
  }

  function ChildIn(data: Option<Data>, id: string): Option<Issue> {
    if data.Some? && data.value.Many? then FindId(data.value.issues, id) else None
  }

  function ParentInDetail(data: Option<Data>): Option<string> {
    if data.Some? && data.value.One? then data.value.issue.parentId else None
  }

  /** Entry `k` names `p` as the parent of issue `id`. */
  ghost predicate Names(d: Store, ws: string, id: string, k: Key, p: string) {
    || (k == DetailKey(ws, id) && ParentInDetail(Get(d, k)) == Some(p))
    || ((IsList(ws, k) || IsMyList(ws, k)) && ParentInBuckets(Get(d, k), id) == Some(p))
    || (IsChildren(ws, k) && ChildIn(Get(d, k), id).Some? &&
        (ChildIn(Get(d, k), id).value.parentId == Some(p) || k.parentId == p))
  }

  /** The parents whose children entries the deletion has to visit: those some entry names. */
  ghost predicate IsMetadata(d: Store, ws: string, id: string, parents: seq<string>) {
    && NoDup(parents)
    && forall p :: p in parents <==> p != "" && exists k :: Names(d, ws, id, k, p)
  }

  function ParentsFromLists(parents: seq<string>, d: Store, keys: seq<Key>, id: string): seq<string> {
    if keys == [] then parents
    else AddParent(ParentsFromLists(parents, d, keys[..|keys| - 1], id), ParentInBuckets(Get(d, keys[|keys| - 1]), id))
  }

  function ParentsFromChildren(parents: seq<string>, d: Store, keys: seq<Key>, id: string): seq<string>
    requires forall k :: k in keys ==> k.ChildrenKey?
  {
    if keys == [] then parents
    else
      var before, k := ParentsFromChildren(parents, d, keys[..|keys| - 1], id), keys[|keys| - 1];
      var child := ChildIn(Get(d, k), id);
      if child.None? then before else AddParent(AddParent(before, child.value.parentId), Some(k.parentId))
  }

  method CollectDeletedIssueCacheMetadata(qc: QueryClient, ws: string, id: string) returns (parents: seq<string>)
    requires qc.Valid()
    ensures IsMetadata(qc.data, ws, id, parents)
  {
    hide ParentInBuckets, ChildIn, ParentInDetail, AddParent, ParentsFromLists, ParentsFromChildren, Under;
    var d := qc.data;
    var detail := AddParent([], ParentInDetail(Get(d, DetailKey(ws, id))));
    var lists := Under(k => IsList(ws, k), qc.order);
    var mine := Under(k => IsMyList(ws, k), qc.order);
    var children := Under(k => IsChildren(ws, k), qc.order);
    parents := detail;
    ListsStart(detail, d, lists, id);
    for i := 0 to |lists|
      invariant parents == ParentsFromLists(detail, d, lists[..i], id)
    {
      ListsStep(detail, d, lists, id, i);
      parents := AddParent(parents, ParentInBuckets(Get(d, lists[i]), id));
    }
    assert lists[..|lists|] == lists;
    ghost var fromLists := parents;
    ListsStart(fromLists, d, mine, id);
    for i := 0 to |mine|
      invariant parents == ParentsFromLists(fromLists, d, mine[..i], id)
    {
      ListsStep(fromLists, d, mine, id, i);
      parents := AddParent(parents, ParentInBuckets(Get(d, mine[i]), id));
    }
    assert mine[..|mine|] == mine;
    parents := CollectFromChildren(d, parents, children, id);
    MetadataIsComplete(d, qc.order, ws, id);
  }

  method CollectFromChildren(d: Store, from: seq<string>, children: seq<Key>, id: string) returns (parents: seq<string>)
    requires forall k :: k in children ==> k.ChildrenKey?
    ensures parents == ParentsFromChildren(from, d, children, id)
  {
    hide ChildIn, AddParent;
    parents := from;
    for i := 0 to |children|
      invariant forall k :: k in children[..i] ==> k in children
      invariant parents == ParentsFromChildren(from, d, children[..i], id)
    {
      assert children[..i + 1][..i] == children[..i];
      assert children[i] in children;
      var key := children[i];
      var child := ChildIn(Get(d, key), id);
      if child.Some? {
        parents := AddParent(parents, child.value.parentId);
        parents := AddParent(parents, Some(key.parentId));
      }
    }
    assert children[..|children|] == children;
  }

  lemma ListsStart(parents: seq<string>, d: Store, keys: seq<Key>, id: string)
    ensures ParentsFromLists(parents, d, keys[..0], id) == parents
  {
  }

  lemma ListsStep(parents: seq<string>, d: Store, keys: seq<Key>, id: string, i: nat)
    requires i < |keys|
    ensures ParentsFromLists(parents, d, keys[..i + 1], id) ==
            AddParent(ParentsFromLists(parents, d, keys[..i], id), ParentInBuckets(Get(d, keys[i]), id))
  {
    assert keys[..i + 1][..i] == keys[..i];
  }

  lemma {:induction false} FromListsMembers(parents: seq<string>, d: Store, keys: seq<Key>, id: string, p: string)
    ensures NoDup(parents) ==> NoDup(ParentsFromLists(parents, d, keys, id))
    ensures p in ParentsFromLists(parents, d, keys, id) <==>
            p in parents || (p != "" && exists k :: k in keys && ParentInBuckets(Get(d, k), id) == Some(p))
  {
    hide ParentInBuckets;
    if keys != [] {
      var init, last := keys[..|keys| - 1], keys[|keys| - 1];
      assert keys == init + [last];
      FromListsMembers(parents, d, init, id, p);
    }
  }

  ghost predicate ChildNames(d: Store, k: Key, id: string, p: string)
    requires k.ChildrenKey?
  {
    var child := ChildIn(Get(d, k), id);
    child.Some? && (child.value.parentId == Some(p) || k.parentId == p)
  }

  lemma {:induction false} FromChildrenMembers(parents: seq<string>, d: Store, keys: seq<Key>, id: string, p: string)
    requires forall k :: k in keys ==> k.ChildrenKey?
    ensures NoDup(parents) ==> NoDup(ParentsFromChildren(parents, d, keys, id))
    ensures p in ParentsFromChildren(parents, d, keys, id) <==>
            p in parents || (p != "" && exists k :: k in keys && ChildNames(d, k, id, p))
  {
    hide ChildIn, AddParent, Get;
    if keys != [] {
      var init, last := keys[..|keys| - 1], keys[|keys| - 1];
      assert keys == init + [last];
      FromChildrenMembers(parents, d, init, id, p);
      assert (exists k :: k in keys && ChildNames(d, k, id, p)) <==>
             (exists k :: k in init && ChildNames(d, k, id, p)) || ChildNames(d, last, id, p);
    }
  }

  lemma MetadataIsComplete(d: Store, order: seq<Key>, ws: string, id: string)
    requires forall k :: k in d ==> k in order
    ensures var lists, mine, children :=
              Under(k => IsList(ws, k), order), Under(k => IsMyList(ws, k), order), Under(k => IsChildren(ws, k), order);
            var detail := AddParent([], ParentInDetail(Get(d, DetailKey(ws, id))));
            var all := ParentsFromChildren(ParentsFromLists(ParentsFromLists(detail, d, lists, id), d, mine, id), d, children, id);
            IsMetadata(d, ws, id, all)
  {
    hide ParentInBuckets, ChildIn, ParentInDetail, ParentsFromLists, ParentsFromChildren, Under, Names;
    var lists, mine, children :=
      Under(k => IsList(ws, k), order), Under(k => IsMyList(ws, k), order), Under(k => IsChildren(ws, k), order);
    var detail := AddParent([], ParentInDetail(Get(d, DetailKey(ws, id))));
    var fromLists := ParentsFromLists(detail, d, lists, id);
    var fromMine := ParentsFromLists(fromLists, d, mine, id);
    forall p
      ensures NoDup(ParentsFromChildren(fromMine, d, children, id))
      ensures p in ParentsFromChildren(fromMine, d, children, id) <==> p != "" && exists k :: Names(d, ws, id, k, p)
    {
      FromListsMembers(detail, d, lists, id, p);
      FromListsMembers(fromLists, d, mine, id, p);
      FromChildrenMembers(fromMine, d, children, id, p);
      NamesSplit(d, order, ws, id, p);
    }
    assert NoDup(ParentsFromChildren(fromMine, d, children, id)) by {
      FromListsMembers(detail, d, lists, id, "");
      FromListsMembers(fromLists, d, mine, id, "");
      FromChildrenMembers(fromMine, d, children, id, "");
    }
  }

  lemma NamesSplit(d: Store, order: seq<Key>, ws: string, id: string, p: string)
    requires forall k :: k in d ==> k in order
    ensures (exists k :: Names(d, ws, id, k, p)) <==>
            (|| ParentInDetail(Get(d, DetailKey(ws, id))) == Some(p)
             || (exists k :: k in Under(k => IsList(ws, k), order) && ParentInBuckets(Get(d, k), id) == Some(p))
             || (exists k :: k in Under(k => IsMyList(ws, k), order) && ParentInBuckets(Get(d, k), id) == Some(p))
             || (exists k :: k in Under(k => IsChildren(ws, k), order) && ChildNames(d, k, id, p)))
  {
    hide FindIssueLocation, FindId, Under;
    if k :| Names(d, ws, id, k, p) {
      assert IsList(ws, k) ==> k in Under(k => IsList(ws, k), order);
      assert IsMyList(ws, k) ==> k in Under(k => IsMyList(ws, k), order);
      if IsChildren(ws, k) {
        assert k in Under(k => IsChildren(ws, k), order) && ChildNames(d, k, id, p);
      }
    }
    if ParentInDetail(Get(d, DetailKey(ws, id))) == Some(p) {
      assert Names(d, ws, id, DetailKey(ws, id), p);
    }
    if k :| k in Under(k => IsList(ws, k), order) && ParentInBuckets(Get(d, k), id) == Some(p) {
      assert Names(d, ws, id, k, p);
    }
    if k :| k in Under(k => IsMyList(ws, k), order) && ParentInBuckets(Get(d, k), id) == Some(p) {
      assert Names(d, ws, id, k, p);
    }
    if k :| k in Under(k => IsChildren(ws, k), order) && ChildNames(d, k, id, p) {
      assert Names(d, ws, id, k, p);
    }
  }

  // ---------------------------------------------------------------------------
  // Pruning
  // ---------------------------------------------------------------------------

  function PruneData(data: Data, id: string): Data {
    match data
    case Buckets(c) => Buckets(RemoveIssueFromBuckets(c, id))
    case _ => data
  }

  function FilterData(data: Data, id: string): Data {
    match data
    case Many(issues) => Many(Without(issues, id))
    case _ => data
  }

  function PrunedLists(d: Store, ws: string, id: string): (r: Store)
    ensures r.Keys == d.Keys
    ensures forall k :: k in d ==> r[k] == if IsList(ws, k) || IsMyList(ws, k) then PruneData(d[k], id) else d[k]
  {
    map k | k in d :: if IsList(ws, k) || IsMyList(ws, k) then PruneData(d[k], id) else d[k]
  }

  function PrunedChildren(d: Store, ws: string, id: string, parents: seq<string>): (r: Store)
    ensures r.Keys == d.Keys
    ensures forall k :: k in d ==>
              r[k] == if IsChildren(ws, k) && k.parentId in parents then FilterData(d[k], id) else d[k]
  {
    map k | k in d :: if IsChildren(ws, k) && k.parentId in parents then FilterData(d[k], id) else d[k]
  }

  method PruneDeletedIssueFromListCaches(qc: QueryClient, ws: string, id: string)
    requires qc.Valid()
    modifies qc
    ensures qc.Valid() && qc.order == old(qc.order)
    ensures qc.data == PrunedLists(old(qc.data), ws, id)
  {
    hide Under, UpdatedAt, PruneData, PrunedLists;
    UnderNoDup(k => IsList(ws, k), qc.order);
    UpdateEach(qc, Under(k => IsList(ws, k), qc.order), d => PruneData(d, id));
    UnderNoDup(k => IsMyList(ws, k), qc.order);
    UpdateEach(qc, Under(k => IsMyList(ws, k), qc.order), d => PruneData(d, id));
  }

  method PruneDeletedIssueFromParentChildrenCaches(qc: QueryClient, ws: string, id: string, parents: seq<string>)
    requires qc.Valid()
    modifies qc
    ensures qc.Valid() && qc.order == old(qc.order)
    ensures qc.data == PrunedChildren(old(qc.data), ws, id, parents)
  {
    hide PrunedChildren, FilterData;
    PruneStart(qc.data, ws, id, parents);
    for i := 0 to |parents|
      invariant qc.Valid() && qc.order == old(qc.order)
      invariant qc.data == PrunedChildren(old(qc.data), ws, id, parents[..i])
    {
      var k := ChildrenKey(ws, parents[i]);
      PruneStep(old(qc.data), ws, id, parents, i);
      qc.SetQueryData(k, if k in qc.data then Some(FilterData(qc.data[k], id)) else None);
    }
    assert parents[..|parents|] == parents;
  }

  lemma PruneStart(d: Store, ws: string, id: string, parents: seq<string>)
    ensures PrunedChildren(d, ws, id, parents[..0]) == d
  {
  }

  lemma PruneStep(d: Store, ws: string, id: string, parents: seq<string>, i: nat)
    requires i < |parents|
    ensures var now, k := PrunedChildren(d, ws, id, parents[..i]), ChildrenKey(ws, parents[i]);
            && now.Keys == d.Keys
            && PrunedChildren(d, ws, id, parents[..i + 1]) ==
               Write(now, k, if k in now then Some(FilterData(now[k], id)) else None)
  {
    var k := ChildrenKey(ws, parents[i]);
    assert parents[..i + 1] == parents[..i] + [parents[i]];
    if k in d {
      FilterTwice(d[k], id);
    }
  }

  lemma FilterTwice(data: Data, id: string)
    ensures FilterData(FilterData(data, id), id) == FilterData(data, id)
  {
    if data.Many? {
      FilterAll((i: Issue) => i.id != id, Without(data.issues, id));
    }
  }

  /** The entries that belong to the deleted issue alone. */
  function OwnKeys(ws: string, id: string): seq<Key> {
    [DetailKey(ws, id), ScopedKey(Timeline, id), ScopedKey(Reactions, id), ScopedKey(Subscribers, id),
     ScopedKey(Usage, id), ScopedKey(Attachments, id), ScopedKey(Tasks, id), ChildrenKey(ws, id), LabelsKey(ws, id)]
  }

  predicate IsOwnKey(ws: string, id: string, k: Key) {
    || k == DetailKey(ws, id) || (k.ScopedKey? && k.id == id) || k == ChildrenKey(ws, id) || k == LabelsKey(ws, id)
  }

  function WithoutKeys(d: Store, keys: seq<Key>): (r: Store)
    ensures forall k :: k in r <==> k in d && k !in keys
    ensures forall k :: k in r ==> r[k] == d[k]
  {
    map k | k in d && k !in keys :: d[k]
  }

  function CleanedUp(d: Store, ws: string, id: string, parents: seq<string>): Store {
    WithoutKeys(PrunedChildren(PrunedLists(d, ws, id), ws, id, parents), OwnKeys(ws, id))
  }

  method CleanupDeletedIssueCaches(qc: QueryClient, ws: string, id: string, metadata: Option<seq<string>>)
      returns (parents: seq<string>)
    requires qc.Valid()
    modifies qc
    ensures qc.Valid()
    ensures metadata.Some? ==> parents == metadata.value
    ensures metadata.None? ==> IsMetadata(old(qc.data), ws, id, parents)
    ensures qc.data == CleanedUp(old(qc.data), ws, id, parents)
  {
    hide PrunedLists, PrunedChildren, WithoutKeys, OwnKeys, IsMetadata;
    if metadata.Some? {
      parents := metadata.value;
    } else {
      parents := CollectDeletedIssueCacheMetadata(qc, ws, id);
    }
    PruneDeletedIssueFromListCaches(qc, ws, id);
    PruneDeletedIssueFromParentChildrenCaches(qc, ws, id, parents);
    RemoveAll(qc, OwnKeys(ws, id));
  }

  method RemoveAll(qc: QueryClient, keys: seq<Key>)
    requires qc.Valid()
    modifies qc
    ensures qc.Valid() && qc.data == WithoutKeys(old(qc.data), keys)
  {
    for i := 0 to |keys|
      invariant qc.Valid() && qc.data == WithoutKeys(old(qc.data), keys[..i])
    {
      qc.RemoveQueries(keys[i]);
      assert keys[..i + 1] == keys[..i] + [keys[i]];
    }
    assert keys[..|keys|] == keys;
  }

  lemma OwnKeysListed(ws: string, id: string, k: Key)
    ensures k in OwnKeys(ws, id) <==> IsOwnKey(ws, id, k)
  {
    var own := OwnKeys(ws, id);
    assert own[0] == DetailKey(ws, id) && own[1] == ScopedKey(Timeline, id) && own[2] == ScopedKey(Reactions, id);
    assert own[3] == ScopedKey(Subscribers, id) && own[4] == ScopedKey(Usage, id) && own[5] == ScopedKey(Attachments, id);
    assert own[6] == ScopedKey(Tasks, id) && own[7] == ChildrenKey(ws, id) && own[8] == LabelsKey(ws, id);
    if k.ScopedKey? {
      match k.kind
      case Timeline =>
      case Reactions =>
      case Subscribers =>
      case Usage =>
      case Attachments =>
      case Tasks =>
    }
  }

  // ---------------------------------------------------------------------------
  // What is left
  // ---------------------------------------------------------------------------

  predicate HoldsId(c: ListCache, s: Status, id: string) {
    FindId(GetBucket(c, s).issues, id).Some?
  }

  /** At most one visible bucket holds the id. */
  ghost predicate InOneBucket(c: ListCache, id: string) {
    forall s, t :: Paginated(s) && Paginated(t) && HoldsId(c, s, id) && HoldsId(c, t, id) ==> s == t
  }

  lemma WithoutAbsent(issues: seq<Issue>, id: string)
    ensures FindId(issues, id).None? <==> Without(issues, id) == issues
  {
    if FindId(issues, id).None? {
      WithoutNone(issues, id);
    } else {
      assert FindId(issues, id).value in issues && FindId(issues, id).value !in Without(issues, id);
    }
  }

  /**
   Removal takes the id out of one bucket. The flattened list loses exactly the deleted issue, with
   every other issue unchanged and in order, if and only if the id was in at most one visible bucket.
   */
  lemma RemovalFiltersFlattened(c: ListCache, id: string)
    ensures FlattenIssueBuckets(RemoveIssueFromBuckets(c, id)) == Without(FlattenIssueBuckets(c), id) <==> InOneBucket(c, id)
  {
    hide FindId, FlattenAmong;
    Located(c, id);
    PaginatedStatuses();
    var next := RemoveIssueFromBuckets(c, id);
    var all := PAGINATED_STATUSES;
    StatusesDistinct();
    if FindIssueLocation(c, id).None? {
      NoneHolds(c, all, id);
      FlattenWithout(c, c, all, id);
    } else {
      var s := FindIssueLocation(c, id).value.status;
      FlattenWithout(c, next, all, id);
      forall t ensures HoldsId(next, t, id) <==> HoldsId(c, t, id) && t != s {
        WithoutAbsent(GetBucket(c, t).issues, id);
        WithoutHas(GetBucket(c, s).issues, id);
      }
      HoldsLocated(c, s, id);
    }
  }

  lemma HoldsLocated(c: ListCache, s: Status, id: string)
    requires FindIssueLocation(c, id).Some? && s == FindIssueLocation(c, id).value.status
    ensures HoldsId(c, s, id)
  {
    Located(c, id);
  }

  lemma WithoutHas(issues: seq<Issue>, id: string)
    ensures FindId(Without(issues, id), id).None?
  {
  }

  lemma StatusesDistinct()
    ensures NoDup(PAGINATED_STATUSES)
  {
    assert PAGINATED_STATUSES[0] == Backlog && PAGINATED_STATUSES[1] == Todo && PAGINATED_STATUSES[2] == InProgress;
    assert PAGINATED_STATUSES[3] == InReview && PAGINATED_STATUSES[4] == Done && PAGINATED_STATUSES[5] == Blocked;
  }

  lemma NoneHolds(c: ListCache, statuses: seq<Status>, id: string)
    requires forall s, i :: Holds(c, s, i) ==> i.id != id
    requires forall s :: s in statuses ==> Paginated(s)
    ensures forall s :: s in statuses ==> !HoldsId(c, s, id)
  {
    forall s | s in statuses ensures !HoldsId(c, s, id) {
      assert HoldsId(c, s, id) ==> Holds(c, s, FindId(GetBucket(c, s).issues, id).value);
    }
  }

  lemma FlattenShowsHeld(c: ListCache, statuses: seq<Status>, s: Status, id: string)
    requires s in statuses && HoldsId(c, s, id)
    ensures exists i :: i in FlattenAmong(c, statuses) && i.id == id
  {
    var found := FindId(GetBucket(c, s).issues, id).value;
    FlattenMembers(c, statuses, found);
  }

  /** A cache that differs by filtered buckets flattens to the filtered list exactly when no bucket kept the id. */
  lemma FlattenWithout(c: ListCache, next: ListCache, statuses: seq<Status>, id: string)
    requires forall s :: s in statuses ==>
               GetBucket(next, s).issues == GetBucket(c, s).issues ||
               GetBucket(next, s).issues == Without(GetBucket(c, s).issues, id)
    ensures FlattenAmong(next, statuses) == Without(FlattenAmong(c, statuses), id) <==>
            forall s :: s in statuses ==> !HoldsId(next, s, id)
  {
    hide FlattenAmong, FindId;
    if forall s :: s in statuses ==> !HoldsId(next, s, id) {
      FlattenAllWithout(c, next, statuses, id);
    } else {
      var s :| s in statuses && HoldsId(next, s, id);
      FlattenShowsHeld(next, statuses, s, id);
    }
  }

  lemma {:induction false} FlattenAllWithout(c: ListCache, next: ListCache, statuses: seq<Status>, id: string)
    requires forall s :: s in statuses ==>
               GetBucket(next, s).issues == GetBucket(c, s).issues ||
               GetBucket(next, s).issues == Without(GetBucket(c, s).issues, id)
    requires forall s :: s in statuses ==> !HoldsId(next, s, id)
    ensures FlattenAmong(next, statuses) == Without(FlattenAmong(c, statuses), id)
  {
    hide FindId;
    if statuses != [] {
      var s, rest := statuses[0], statuses[1..];
      FlattenAllWithout(c, next, rest, id);
      FilterConcat((i: Issue) => i.id != id, GetBucket(c, s).issues, FlattenAmong(c, rest));
      WithoutAbsent(GetBucket(c, s).issues, id);
    }
  }

  /** Without the issue in any visible bucket twice, the pruned list no longer shows it. */
  lemma RemovalHidesIssue(c: ListCache, id: string)
    ensures (forall i :: i in FlattenIssueBuckets(RemoveIssueFromBuckets(c, id)) ==> i.id != id) <==> InOneBucket(c, id)
  {
    hide FlattenAmong, FindId, RemoveIssueFromBuckets;
    RemovalFiltersFlattened(c, id);
    if !InOneBucket(c, id) {
      RemovalLeavesCopy(c, id);
    }
  }

  lemma RemovalLeavesCopy(c: ListCache, id: string)
    requires !InOneBucket(c, id)
    ensures exists i :: i in FlattenIssueBuckets(RemoveIssueFromBuckets(c, id)) && i.id == id
  {
    hide FlattenAmong, FindId;
    PaginatedStatuses();
    Located(c, id);
    var s, t :| Paginated(s) && Paginated(t) && HoldsId(c, s, id) && HoldsId(c, t, id) && s != t;
    var next := RemoveIssueFromBuckets(c, id);
    assert Holds(c, s, FindId(GetBucket(c, s).issues, id).value);
    var u := if FindIssueLocation(c, id).value.status == s then t else s;
    var copy := FindId(GetBucket(c, u).issues, id).value;
    assert GetBucket(next, u) == GetBucket(c, u);
    FlattenMembers(next, PAGINATED_STATUSES, copy);
  }

  /**
   After the cleanup with freshly collected metadata: the entries of the issue itself are gone; no
   children entry of a real parent lists it; every list entry is the pruned old one; every children
   entry is the old one without the issue, in order; everything else is as it was.
   */
  lemma CleanupIsComplete(d: Store, ws: string, id: string, parents: seq<string>, k: Key)
    requires IsMetadata(d, ws, id, parents)
    ensures var r := CleanedUp(d, ws, id, parents);
            && (k in r <==> k in d && !IsOwnKey(ws, id, k))
            && (k in r && (IsList(ws, k) || IsMyList(ws, k)) ==> r[k] == PruneData(d[k], id))
            && (k in r && IsChildren(ws, k) && k.parentId != "" ==> r[k] == FilterData(d[k], id) && ChildIn(Get(r, k), id).None?)
            && (k in r && !IsList(ws, k) && !IsMyList(ws, k) && !IsChildren(ws, k) ==> r[k] == d[k])
  {
    hide FindIssueLocation, RemoveIssueFromBuckets, FindId;
    var r := CleanedUp(d, ws, id, parents);
    OwnKeysListed(ws, id, k);
    if k in r && IsChildren(ws, k) && k.parentId != "" && k.parentId !in parents {
      assert !Names(d, ws, id, k, k.parentId);
      assert ChildIn(Get(d, k), id).None?;
      if d[k].Many? {
        WithoutAbsent(d[k].issues, id);
      }
    }
  }

  /**
   A children entry cached under the empty parent id is never visited: the metadata drops empty ids.
   It keeps listing the deleted issue exactly when it listed it before.
   */
  lemma EmptyParentIsSkipped(d: Store, ws: string, id: string, parents: seq<string>)
    requires IsMetadata(d, ws, id, parents) && id != "" && ChildrenKey(ws, "") in d
    ensures CleanedUp(d, ws, id, parents)[ChildrenKey(ws, "")] == d[ChildrenKey(ws, "")]
  {
    hide FindIssueLocation, RemoveIssueFromBuckets, FindId;
    OwnKeysListed(ws, id, ChildrenKey(ws, ""));
    assert "" !in parents;
  }
}
