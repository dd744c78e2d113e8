/**
 The optimistic issue mutations: each takes snapshots, patches the cache, and on failure writes the
 snapshots back. A failed mutation leaves every entry with the data it had.
 */
module IssueMutations {
  import opened Common
  import opened IssueBuckets
  import opened QueryCache
  import opened DeleteCache

  predicate Truthy(s: Option<string>) {
    s.Some? && s.value != ""
  }

  function PatchData(data: Data, id: string, patch: Patch): Data {
    match data
    case Buckets(c) => Buckets(PatchIssueInBuckets(c, id, patch))
    case _ => data
  }

  function MergeDetail(data: Data, patch: Patch): Data {
    match data
    case One(issue) => One(Merge(issue, patch))
    case _ => data
  }

  /** Merges the patch into the children whose ids are in `ids`. */
  function MergeChildren(data: Data, ids: set<string>, patch: Patch): Data {
    match data
    case Many(issues) => Many(Map((i: Issue) => if i.id in ids then Merge(i, patch) else i, issues))
    case _ => data
  }

  // ---------------------------------------------------------------------------
  // Update
  // ---------------------------------------------------------------------------

  datatype UpdateContext = UpdateContext(
    prevLists: seq<Snapshot>, prevDetail: Option<Data>, prevChildren: Option<Data>, parentId: Option<string>, id: string)

  /** The parent named by the detail entry, else by the first list. */
  function KnownParent(d: Store, order: seq<Key>, ws: string, id: string): Option<string> {
    var detail := ParentInDetail(Get(d, DetailKey(ws, id)));
    var lists := Under(k => IsList(ws, k), order);
    if detail.Some? then detail
    else if lists != [] then ParentInBuckets(Get(d, lists[0]), id)
    else None
  }

  /** The first children entry that lists the issue. */
  function ParentByScan(d: Store, keys: seq<Key>, id: string): Option<string> {
    if keys == [] then None
    else if keys[0].ChildrenKey? && ChildIn(Get(d, keys[0]), id).Some? then Some(keys[0].parentId)
    else ParentByScan(d, keys[1..], id)
  }

  function ResolveParent(d: Store, order: seq<Key>, ws: string, id: string): Option<string> {
    var known := KnownParent(d, order, ws, id);
    if Truthy(known) then known
    else
      var scanned := ParentByScan(d, Under(k => IsChildren(ws, k), order), id);
      if scanned.Some? then scanned else known
  }

  function UpdatedStore(d: Store, ws: string, id: string, patch: Patch, parentId: Option<string>): (r: Store)
    ensures r.Keys == d.Keys
    ensures forall k :: k in d ==>
              r[k] == if IsList(ws, k) then PatchData(d[k], id, patch)
                      else if k == DetailKey(ws, id) then MergeDetail(d[k], patch)
                      else if Truthy(parentId) && k == ChildrenKey(ws, parentId.value) then MergeChildren(d[k], {id}, patch)
                      else d[k]
  {
    map k | k in d ::
      if IsList(ws, k) then PatchData(d[k], id, patch)
      else if k == DetailKey(ws, id) then MergeDetail(d[k], patch)
      else if Truthy(parentId) && k == ChildrenKey(ws, parentId.value) then MergeChildren(d[k], {id}, patch)
      else d[k]
  }

  function UpdateSnapshot(d: Store, order: seq<Key>, ws: string, id: string): UpdateContext {
    var parentId := ResolveParent(d, order, ws, id);
    UpdateContext(
      Snapshots(d, Under(k => IsList(ws, k), order)),
      Get(d, DetailKey(ws, id)),
      if Truthy(parentId) then Get(d, ChildrenKey(ws, parentId.value)) else None,
      parentId, id)
  }

  /** What `onError` writes. */
  function UpdateRestores(ctx: UpdateContext, ws: string): seq<Snapshot> {
    ctx.prevLists +
    (if ctx.prevDetail.Some? then [Snapshot(DetailKey(ws, ctx.id), ctx.prevDetail)] else []) +
    (if Truthy(ctx.parentId) && ctx.prevChildren.Some?
     then [Snapshot(ChildrenKey(ws, ctx.parentId.value), ctx.prevChildren)] else [])
  }

  function UpdatedOne(d: Store, k: Key, f: Data -> Data): Store {
    if k in d then d[k := f(d[k])] else d
  }

  /** One update of one entry; an entry without data stays so. */
  method UpdateOne(qc: QueryClient, k: Key, f: Data -> Data)
    requires qc.Valid()
    modifies qc
    ensures qc.Valid() && qc.order == old(qc.order)
    ensures qc.data == UpdatedOne(old(qc.data), k, f)
  {
    qc.SetQueryData(k, if k in qc.data then Some(f(qc.data[k])) else None);
  }

  /** `now` lists what `was` listed, with the patch on exactly the given ids. */
  ghost predicate ChildrenShow(was: seq<Issue>, now: seq<Issue>, ids: set<string>, patch: Patch) {
    && |now| == |was|
    && forall i :: 0 <= i < |was| ==> if was[i].id in ids then ShowsPatch(was[i], patch, now[i]) else now[i] == was[i]
  }

  /** One entry before and after: lists always take the patch, details and children only where they are meant. */
  ghost predicate EntryShows(
      k: Key, was: Data, now: Data, ws: string, ids: set<string>, patch: Patch, detail: bool, children: bool)
  {
    if IsList(ws, k) && was.Buckets? then
      now.Buckets? && (WellFormed(was.lists) ==> ListShows(was.lists, now.lists, ids, patch))
    else if detail && was.One? then now.One? && ShowsPatch(was.issue, patch, now.issue)
    else if children && was.Many? then now.Many? && ChildrenShow(was.issues, now.issues, ids, patch)
    else now == was
  }

  /** Every list, the detail entry and the parent's children show the patch; nothing else changes. */
  ghost predicate UpdateShows(
      before: Store, after: Store, ws: string, id: string, patch: Patch, parentId: Option<string>)
  {
    && after.Keys == before.Keys
    && forall k :: k in before ==>
         EntryShows(k, before[k], after[k], ws, {id}, patch, k == DetailKey(ws, id),
                    Truthy(parentId) && k == ChildrenKey(ws, parentId.value))
  }

  lemma PatchDataShows(k: Key, data: Data, ws: string, id: string, patch: Patch)
    requires IsList(ws, k)
    ensures EntryShows(k, data, PatchData(data, id, patch), ws, {id}, patch, false, false)
  {
    hide WellFormed, ListShows, PatchIssueInBuckets;
    if data.Buckets? && WellFormed(data.lists) {
      PatchListShows(data.lists, id, patch);
    }
  }

  lemma MergeDetailShows(k: Key, data: Data, ws: string, ids: set<string>, patch: Patch)
    requires !IsList(ws, k)
    ensures EntryShows(k, data, MergeDetail(data, patch), ws, ids, patch, true, false)
  {
    hide ShowsPatch;
    if data.One? {
      MergedShowsPatch(data.issue, patch);
    }
  }

  lemma MergeChildrenShows(k: Key, data: Data, ws: string, ids: set<string>, patch: Patch)
    requires !IsList(ws, k)
    ensures EntryShows(k, data, MergeChildren(data, ids, patch), ws, ids, patch, false, true)
  {
    hide ShowsPatch, Merge;
    if data.Many? {
      forall i | 0 <= i < |data.issues| && data.issues[i].id in ids
        ensures ShowsPatch(data.issues[i], patch, Merge(data.issues[i], patch))
      {
        MergedShowsPatch(data.issues[i], patch);
      }
    }
  }

  lemma UpdatedStoreShows(d: Store, ws: string, id: string, patch: Patch, parentId: Option<string>)
    ensures UpdateShows(d, UpdatedStore(d, ws, id, patch, parentId), ws, id, patch, parentId)
  {
    hide UpdatedStore, PatchData, MergeDetail, MergeChildren, EntryShows;
    forall k | k in d
      ensures EntryShows(k, d[k], UpdatedStore(d, ws, id, patch, parentId)[k], ws, {id}, patch, k == DetailKey(ws, id),
                         Truthy(parentId) && k == ChildrenKey(ws, parentId.value))
    {
      if IsList(ws, k) {
        PatchDataShows(k, d[k], ws, id, patch);
      } else if k == DetailKey(ws, id) {
        MergeDetailShows(k, d[k], ws, {id}, patch);
      } else if Truthy(parentId) && k == ChildrenKey(ws, parentId.value) {
        MergeChildrenShows(k, d[k], ws, {id}, patch);
      } else {
        OtherShows(k, d[k], ws, {id}, patch);
      }
    }
  }

  lemma OtherShows(k: Key, data: Data, ws: string, ids: set<string>, patch: Patch)
    requires !IsList(ws, k)
    ensures EntryShows(k, data, data, ws, ids, patch, false, false)
  {
  }

  /** The detail entry decides on the parent; without it the first list that was created does. */
  lemma KnownParentIs(d: Store, order: seq<Key>, ws: string, id: string, first: nat, s: Status, issue: Issue)
    ensures DetailKey(ws, id) in d && d[DetailKey(ws, id)].One? && d[DetailKey(ws, id)].issue.parentId.Some? ==>
              KnownParent(d, order, ws, id) == d[DetailKey(ws, id)].issue.parentId
    ensures DetailKey(ws, id) !in d && first < |order| && IsList(ws, order[first]) &&
            (forall k :: 0 <= k < first ==> !IsList(ws, order[k])) &&
            order[first] in d && d[order[first]].Buckets? && WellFormed(d[order[first]].lists) &&
            Holds(d[order[first]].lists, s, issue) && issue.id == id ==>
              KnownParent(d, order, ws, id) == issue.parentId
  {
    if first < |order| && IsList(ws, order[first]) && forall k :: 0 <= k < first ==> !IsList(ws, order[k]) {
      FirstUnder(k => IsList(ws, k), order, first);
      if order[first] in d && d[order[first]].Buckets? {
        var c := d[order[first]].lists;
        hide Under, WellFormed, FindIssueLocation;
        if WellFormed(c) && Holds(c, s, issue) {
          ViewFromHolds(c, s, issue);
        }
      }
    }
  }

  lemma {:induction false} FirstUnder(matches: Key -> bool, order: seq<Key>, first: nat)
    requires first < |order| && matches(order[first]) && forall k :: 0 <= k < first ==> !matches(order[k])
    ensures Under(matches, order) != [] && Under(matches, order)[0] == order[first]
  {
    if first > 0 {
      FirstUnder(matches, order[1..], first - 1);
    }
  }

  /** Every entry that names a parent of the issue names the same one. */
  ghost predicate OneParent(d: Store, ws: string, id: string, parent: string) {
    parent != "" && forall k, p :: Names(d, ws, id, k, p) ==> p == parent
  }

  lemma {:induction false} ScanFinds(d: Store, keys: seq<Key>, id: string)
    ensures var r := ParentByScan(d, keys, id);
            && (r.Some? ==> exists k :: k in keys && k.ChildrenKey? && ChildIn(Get(d, k), id).Some? && k.parentId == r.value)
            && (r.None? ==> forall k :: k in keys && k.ChildrenKey? ==> ChildIn(Get(d, k), id).None?)
  {
    hide ChildIn, Get;
    if keys != [] {
      ScanFinds(d, keys[1..], id);
    }
  }

  /** While the entries agree on the parent, the children entry that is patched is any that lists the issue. */
  lemma UpdateReachesChildren(d: Store, order: seq<Key>, ws: string, id: string, parent: string, k: Key)
    requires (forall x :: x in d ==> x in order) && OneParent(d, ws, id, parent)
    requires IsChildren(ws, k) && ChildIn(Get(d, k), id).Some?
    ensures ResolveParent(d, order, ws, id) == Some(parent) && k == ChildrenKey(ws, parent)
  {
    hide ChildIn, Under, ParentInBuckets, ParentInDetail;
    assert Names(d, ws, id, k, k.parentId);
    var keys := Under(x => IsChildren(ws, x), order);
    assert k in keys by {
      ListedHasData(d, k, id);
    }
    ScanFinds(d, keys, id);
    var known, scanned := KnownParent(d, order, ws, id), ParentByScan(d, keys, id);
    if known.Some? {
      if ParentInDetail(Get(d, DetailKey(ws, id))).Some? {
        assert Names(d, ws, id, DetailKey(ws, id), known.value);
      } else {
        var from := Under(x => IsList(ws, x), order)[0];
        assert from in Under(x => IsList(ws, x), order);
        assert IsList(ws, from) && Names(d, ws, id, from, known.value);
      }
    }
    if scanned.Some? {
      var from :| from in keys && from.ChildrenKey? && ChildIn(Get(d, from), id).Some? && from.parentId == scanned.value;
      assert Names(d, ws, id, from, scanned.value);
    }
  }

  lemma ListedHasData(d: Store, k: Key, id: string)
    requires ChildIn(Get(d, k), id).Some?
    ensures k in d
  {
  }

  method UpdateOnMutate(qc: QueryClient, ws: string, id: string, patch: Patch) returns (ctx: UpdateContext)
    requires qc.Valid()
    modifies qc
    ensures qc.Valid() && qc.order == old(qc.order)
    ensures ctx == UpdateSnapshot(old(qc.data), old(qc.order), ws, id)
    ensures qc.data == UpdatedStore(old(qc.data), ws, id, patch, ctx.parentId)
    ensures UpdateShows(old(qc.data), qc.data, ws, id, patch, ctx.parentId)
  {
    hide ResolveParent, UpdatedStore, UpdatedAt, UpdatedOne, Under, UpdateShows;
    ctx := UpdateSnapshot(qc.data, qc.order, ws, id);
    UpdateComposes(qc.data, qc.order, ws, id, patch, ctx.parentId);
    UnderNoDup(k => IsList(ws, k), qc.order);
    UpdateEach(qc, Under(k => IsList(ws, k), qc.order), x => PatchData(x, id, patch));
    UpdateOne(qc, DetailKey(ws, id), x => MergeDetail(x, patch));
    if Truthy(ctx.parentId) {
      UpdateOne(qc, ChildrenKey(ws, ctx.parentId.value), x => MergeChildren(x, {id}, patch));
    }
    UpdatedStoreShows(old(qc.data), ws, id, patch, ctx.parentId);
  }

  /** The writes of the update, one after the other, touch separate entries. */
  lemma UpdateComposes(d: Store, order: seq<Key>, ws: string, id: string, patch: Patch, parentId: Option<string>)
    requires forall k :: k in d ==> k in order
    ensures var lists := UpdatedAt(d, Under(k => IsList(ws, k), order), x => PatchData(x, id, patch));
            var detail := UpdatedOne(lists, DetailKey(ws, id), x => MergeDetail(x, patch));
            UpdatedStore(d, ws, id, patch, parentId) ==
            if Truthy(parentId)
            then UpdatedOne(detail, ChildrenKey(ws, parentId.value), x => MergeChildren(x, {id}, patch))
            else detail
  {
    hide PatchData, MergeDetail, MergeChildren, UpdatedAt, UpdatedStore, Under;
  }

  method UpdateOnError(qc: QueryClient, ws: string, ctx: UpdateContext)
    requires qc.Valid()
    modifies qc
    ensures qc.Valid() && qc.data == Restored(old(qc.data), UpdateRestores(ctx, ws))
  {
    RestoreSnapshots(qc, UpdateRestores(ctx, ws));
  }

  lemma CoversOne(s: Snapshot, k: Key)
    ensures Covers([s], k) <==> s.key == k
    ensures !Covers([], k)
  {
    assert [s][0] == s;
  }

  /** Rolling back an update restores the cache. */
  lemma UpdateRollsBack(d: Store, order: seq<Key>, ws: string, id: string, patch: Patch)
    requires forall k :: k in d ==> k in order
    ensures var ctx := UpdateSnapshot(d, order, ws, id);
            Restored(UpdatedStore(d, ws, id, patch, ctx.parentId), UpdateRestores(ctx, ws)) == d
  {
    hide ResolveParent, PatchData, MergeDetail, MergeChildren, Covers, Restored;
    var ctx := UpdateSnapshot(d, order, ws, id);
    var a := ctx.prevLists;
    var b := if ctx.prevDetail.Some? then [Snapshot(DetailKey(ws, ctx.id), ctx.prevDetail)] else [];
    var c := if Truthy(ctx.parentId) && ctx.prevChildren.Some?
             then [Snapshot(ChildrenKey(ws, ctx.parentId.value), ctx.prevChildren)] else [];
    var after := UpdatedStore(d, ws, id, patch, ctx.parentId);
    forall k | k in d && !Covers(a + b + c, k) ensures after[k] == d[k] {
      CoversConcat(a + b, c, k);
      CoversConcat(a, b, k);
      CoversSnapshots(d, Under(k => IsList(ws, k), order), k);
      CoversOne(Snapshot(DetailKey(ws, id), Get(d, DetailKey(ws, id))), k);
      if Truthy(ctx.parentId) {
        CoversOne(Snapshot(ChildrenKey(ws, ctx.parentId.value), Get(d, ChildrenKey(ws, ctx.parentId.value))), k);
      }
    }
    RestoringIsExact(d, after, a + b + c);
  }

  method UpdateThenFail(qc: QueryClient, ws: string, id: string, patch: Patch)
    requires qc.Valid()
    modifies qc
    ensures qc.Valid() && qc.data == old(qc.data)
  {
    UpdateRollsBack(qc.data, qc.order, ws, id, patch);
    var ctx := UpdateOnMutate(qc, ws, id, patch);
    UpdateOnError(qc, ws, ctx);
  }

  // ---------------------------------------------------------------------------
  // Delete
  // ---------------------------------------------------------------------------

  datatype DeleteContext = DeleteContext(
    id: string, parentIds: seq<string>, prevLists: seq<Snapshot>, prevMyLists: seq<Snapshot>,
    prevDetail: Option<Data>, prevChildren: seq<Snapshot>)

  function ChildrenKeys(ws: string, parentIds: seq<string>): seq<Key> {
    Map(p => ChildrenKey(ws, p), parentIds)
  }

  function DeletedStore(d: Store, ws: string, id: string, parentIds: seq<string>): Store {
    PrunedChildren(PrunedLists(d, ws, id), ws, id, parentIds) - {DetailKey(ws, id)}
  }

  function DeleteSnapshot(d: Store, order: seq<Key>, ws: string, id: string, parentIds: seq<string>): DeleteContext {
    DeleteContext(id, parentIds,
      Snapshots(d, Under(k => IsList(ws, k), order)),
      Snapshots(d, Under(k => IsMyList(ws, k), order)),
      Get(d, DetailKey(ws, id)),
      Snapshots(d, ChildrenKeys(ws, parentIds)))
  }

  function DeleteRestores(ctx: DeleteContext, ws: string): seq<Snapshot> {
    ctx.prevLists + ctx.prevMyLists +
    (if ctx.prevDetail.Some? then [Snapshot(DetailKey(ws, ctx.id), ctx.prevDetail)] else []) +
    ctx.prevChildren
  }

  /** After the deletion's writes no entry of any kind shows the issue, and nothing else changed. */
  lemma DeletedIsGone(d: Store, ws: string, id: string, parentIds: seq<string>, k: Key)
    requires IsMetadata(d, ws, id, parentIds)
    ensures var r := DeletedStore(d, ws, id, parentIds);
            && (k in r <==> k in d && k != DetailKey(ws, id))
            && (k in r && (IsList(ws, k) || IsMyList(ws, k)) && d[k].Buckets? && WellFormed(d[k].lists) ==>
                  r[k].Buckets? && WellFormed(r[k].lists) && View(r[k].lists) == View(d[k].lists) - {id})
            && (k in r && IsChildren(ws, k) && k.parentId != "" && d[k].Many? ==>
                  r[k] == Many(Filter((i: Issue) => i.id != id, d[k].issues)))
            && (k in r && !IsList(ws, k) && !IsMyList(ws, k) && !IsChildren(ws, k) ==> r[k] == d[k])
  {
    hide FindIssueLocation, RemoveIssueFromBuckets, FindId, View, WellFormed, Filter;
    if k in d && d[k].Buckets? && WellFormed(d[k].lists) {
      RemoveIsDelete(d[k].lists, id);
    }
    if k in d && IsChildren(ws, k) && k.parentId != "" && k.parentId !in parentIds {
      assert !Names(d, ws, id, k, k.parentId);
      assert ChildIn(Get(d, k), id).None?;
      if d[k].Many? {
        FilterAll((i: Issue) => i.id != id, d[k].issues);
      }
    }
  }

  method DeleteOnMutate(qc: QueryClient, ws: string, id: string) returns (ctx: DeleteContext)
    requires qc.Valid()
    modifies qc
    ensures qc.Valid()
    ensures ctx == DeleteSnapshot(old(qc.data), old(qc.order), ws, id, ctx.parentIds)
    ensures IsMetadata(old(qc.data), ws, id, ctx.parentIds)
    ensures qc.data == DeletedStore(old(qc.data), ws, id, ctx.parentIds)
  {
    hide IsMetadata, PrunedLists, PrunedChildren;
    var parentIds := CollectDeletedIssueCacheMetadata(qc, ws, id);
    ctx := DeleteSnapshot(qc.data, qc.order, ws, id, parentIds);
    PruneDeletedIssueFromListCaches(qc, ws, id);
    PruneDeletedIssueFromParentChildrenCaches(qc, ws, id, parentIds);
    qc.RemoveQueries(DetailKey(ws, id));
  }

  method DeleteOnError(qc: QueryClient, ws: string, ctx: DeleteContext)
    requires qc.Valid()
    modifies qc
    ensures qc.Valid() && qc.data == Restored(old(qc.data), DeleteRestores(ctx, ws))
  {
    RestoreSnapshots(qc, DeleteRestores(ctx, ws));
  }

  lemma CoversChildren(d: Store, ws: string, parentIds: seq<string>, k: Key)
    ensures Covers(Snapshots(d, ChildrenKeys(ws, parentIds)), k) <==> IsChildren(ws, k) && k.parentId in parentIds
  {
    var keys := ChildrenKeys(ws, parentIds);
    CoversSnapshots(d, keys, k);
    if IsChildren(ws, k) && k.parentId in parentIds {
      var i :| 0 <= i < |parentIds| && parentIds[i] == k.parentId;
      assert keys[i] == k;
    }
  }

  lemma DeleteRollsBack(d: Store, order: seq<Key>, ws: string, id: string, parentIds: seq<string>)
    requires forall k :: k in d ==> k in order
    ensures Restored(DeletedStore(d, ws, id, parentIds),
                     DeleteRestores(DeleteSnapshot(d, order, ws, id, parentIds), ws)) == d
  {
    hide PruneData, FilterData, Covers, Restored, IsChildren, Under;
    var ctx := DeleteSnapshot(d, order, ws, id, parentIds);
    var lists, mine, children := ctx.prevLists, ctx.prevMyLists, ctx.prevChildren;
    var detail := if ctx.prevDetail.Some? then [Snapshot(DetailKey(ws, ctx.id), ctx.prevDetail)] else [];
    var after := DeletedStore(d, ws, id, parentIds);
    var all := lists + mine + detail + children;
    forall k | k in d && !Covers(all, k) ensures k in after && after[k] == d[k] {
      CoversConcat(lists + mine + detail, children, k);
      CoversConcat(lists + mine, detail, k);
      CoversConcat(lists, mine, k);
      CoversSnapshots(d, Under(k => IsList(ws, k), order), k);
      CoversSnapshots(d, Under(k => IsMyList(ws, k), order), k);
      CoversOne(Snapshot(DetailKey(ws, id), Get(d, DetailKey(ws, id))), k);
      CoversChildren(d, ws, parentIds, k);
    }
    RestoringIsExact(d, after, all);
  }

  method DeleteThenFail(qc: QueryClient, ws: string, id: string)
    requires qc.Valid()
    modifies qc
    ensures qc.Valid() && qc.data == old(qc.data)
  {
    ghost var d, order := qc.data, qc.order;
    var ctx := DeleteOnMutate(qc, ws, id);
    DeleteOnError(qc, ws, ctx);
    DeleteRollsBack(d, order, ws, id, ctx.parentIds);
  }

  // ---------------------------------------------------------------------------
  // Batch update
  // ---------------------------------------------------------------------------

  datatype BatchUpdateContext = BatchUpdateContext(prevLists: seq<Snapshot>, prevChildren: seq<Snapshot>)

  function PatchAll(c: ListCache, ids: seq<string>, patch: Patch): ListCache {
    if ids == [] then c else PatchIssueInBuckets(PatchAll(c, ids[..|ids| - 1], patch), ids[|ids| - 1], patch)
  }

  function PatchAllData(data: Data, ids: seq<string>, patch: Patch): Data {
    match data
    case Buckets(c) => Buckets(PatchAll(c, ids, patch))
    case _ => data
  }

  /** Patches the issues one after the other, each on the result of the one before. */
  method PatchEveryId(c: ListCache, ids: seq<string>, patch: Patch) returns (next: ListCache)
    ensures next == PatchAll(c, ids, patch)
  {
    hide PatchIssueInBuckets;
    next := c;
    for i := 0 to |ids|
      invariant next == PatchAll(c, ids[..i], patch)
    {
      assert ids[..i + 1][..i] == ids[..i];
      next := PatchIssueInBuckets(next, ids[i], patch);
    }
    assert ids[..|ids|] == ids;
  }

  function IdSet(ids: seq<string>): set<string> {
    set id | id in ids
  }

  /** The entry lists one of the issues. */
  predicate Lists(data: Option<Data>, ids: set<string>) {
    data.Some? && data.value.Many? && exists i :: 0 <= i < |data.value.issues| && data.value.issues[i].id in ids
  }

  function AffectedKeys(d: Store, order: seq<Key>, ws: string, ids: seq<string>): (r: seq<Key>)
    ensures forall k :: k in r <==> k in order && IsChildren(ws, k) && Lists(Get(d, k), IdSet(ids))
  {
    Filter(k => Lists(Get(d, k), IdSet(ids)), Under(k => IsChildren(ws, k), order))
  }

  function BatchUpdatedStore(d: Store, ws: string, ids: seq<string>, patch: Patch): (r: Store)
    ensures r.Keys == d.Keys
    ensures forall k :: k in d ==>
              r[k] == if IsList(ws, k) then PatchAllData(d[k], ids, patch)
                      else if IsChildren(ws, k) then MergeChildren(d[k], IdSet(ids), patch)
                      else d[k]
  {
    map k | k in d ::
      if IsList(ws, k) then PatchAllData(d[k], ids, patch)
      else if IsChildren(ws, k) then MergeChildren(d[k], IdSet(ids), patch)
      else d[k]
  }

  function BatchUpdateSnapshot(d: Store, order: seq<Key>, ws: string, ids: seq<string>): BatchUpdateContext {
    BatchUpdateContext(Snapshots(d, Under(k => IsList(ws, k), order)), Snapshots(d, AffectedKeys(d, order, ws, ids)))
  }

  /** Every list and every loaded children entry show the patch on exactly the given ids; nothing else changes. */
  ghost predicate BatchShows(before: Store, after: Store, ws: string, ids: set<string>, patch: Patch) {
    && after.Keys == before.Keys
    && forall k :: k in before ==> EntryShows(k, before[k], after[k], ws, ids, patch, false, IsChildren(ws, k))
  }

  lemma {:induction false} PatchAllShows(c: ListCache, ids: seq<string>, patch: Patch)
    requires WellFormed(c)
    ensures WellFormed(PatchAll(c, ids, patch)) && ListShows(c, PatchAll(c, ids, patch), IdSet(ids), patch)
  {
    hide WellFormed, PatchIssueInBuckets, ShowsPatch, View;
    if ids == [] {
    } else {
      hide ListShows;
      var init, id := ids[..|ids| - 1], ids[|ids| - 1];
      var mid := PatchAll(c, init, patch);
      PatchAllShows(c, init, patch);
      PatchIsMerge(mid, id, patch);
      PatchListShows(mid, id, patch);
      ListShowsMore(c, mid, PatchIssueInBuckets(mid, id, patch), IdSet(init), {id}, patch);
      assert ids == init + [id] && IdSet(ids) == IdSet(init) + {id};
    }
  }

  lemma BatchUpdatedStoreShows(d: Store, ws: string, ids: seq<string>, patch: Patch)
    ensures BatchShows(d, BatchUpdatedStore(d, ws, ids, patch), ws, IdSet(ids), patch)
  {
    hide BatchUpdatedStore, MergeChildren, IdSet, PatchAll, WellFormed, ListShows, ShowsPatch, ChildrenShow;
    forall k | k in d
      ensures EntryShows(k, d[k], BatchUpdatedStore(d, ws, ids, patch)[k], ws, IdSet(ids), patch, false, IsChildren(ws, k))
    {
      if IsList(ws, k) {
        if d[k].Buckets? && WellFormed(d[k].lists) {
          PatchAllShows(d[k].lists, ids, patch);
        }
      } else if IsChildren(ws, k) {
        MergeChildrenShows(k, d[k], ws, IdSet(ids), patch);
      }
    }
  }

  method BatchUpdateOnMutate(qc: QueryClient, ws: string, ids: seq<string>, patch: Patch) returns (ctx: BatchUpdateContext)
    requires qc.Valid()
    modifies qc
    ensures qc.Valid() && qc.order == old(qc.order)
    ensures ctx == BatchUpdateSnapshot(old(qc.data), old(qc.order), ws, ids)
    ensures qc.data == BatchUpdatedStore(old(qc.data), ws, ids, patch)
    ensures BatchShows(old(qc.data), qc.data, ws, IdSet(ids), patch)
  {
    hide PatchAllData, MergeChildren, Lists, IdSet, BatchShows;
    hide UpdatedAt, BatchUpdatedStore, Under;
    ghost var d := qc.data;
    ctx := BatchUpdateSnapshot(qc.data, qc.order, ws, ids);
    BatchUpdateComposes(d, qc.order, ws, ids, patch);
    BatchPatchLists(qc, ws, ids, patch);
    var now := qc.data;
    var affected := AffectedKeys(now, qc.order, ws, ids);
    UpdateEach(qc, affected, x => MergeChildren(x, IdSet(ids), patch));
    BatchUpdatedStoreShows(d, ws, ids, patch);
  }

  lemma BatchUpdateComposes(d: Store, order: seq<Key>, ws: string, ids: seq<string>, patch: Patch)
    requires NoDup(order) && forall k :: k in d ==> k in order
    ensures var lists := UpdatedAt(d, Under(k => IsList(ws, k), order), x => PatchAllData(x, ids, patch));
            var affected := AffectedKeys(lists, order, ws, ids);
            && NoDup(affected)
            && BatchUpdatedStore(d, ws, ids, patch) == UpdatedAt(lists, affected, x => MergeChildren(x, IdSet(ids), patch))
  {
    hide PatchAllData, MergeChildren, Lists, IdSet, Filter, NoDup, UpdatedAt;
    var lists := UpdatedAt(d, Under(k => IsList(ws, k), order), x => PatchAllData(x, ids, patch));
    var affected := AffectedKeys(lists, order, ws, ids);
    UnderNoDup(k => IsChildren(ws, k), order);
    FilterNoDup(k => Lists(Get(lists, k), IdSet(ids)), Under(k => IsChildren(ws, k), order));
    forall k | k in d && IsChildren(ws, k) && k !in affected ensures MergeChildren(d[k], IdSet(ids), patch) == d[k] {
      MergeNothing(d[k], IdSet(ids), patch);
    }
  }

  lemma MergeNothing(data: Data, ids: set<string>, patch: Patch)
    requires !Lists(Some(data), ids)
    ensures MergeChildren(data, ids, patch) == data
  {
    if data.Many? {
      assert Map((i: Issue) => if i.id in ids then Merge(i, patch) else i, data.issues) == data.issues;
    }
  }

  lemma SameUpdate(d: Store, keys: seq<Key>, f: Data -> Data, g: Data -> Data)
    requires forall x :: f(x) == g(x)
    ensures UpdatedAt(d, keys, f) == UpdatedAt(d, keys, g)
  {
  }

  method BatchPatchLists(qc: QueryClient, ws: string, ids: seq<string>, patch: Patch)
    requires qc.Valid()
    modifies qc
    ensures qc.Valid() && qc.order == old(qc.order)
    ensures qc.data == UpdatedAt(old(qc.data), Under(k => IsList(ws, k), qc.order), x => PatchAllData(x, ids, patch))
  {
    hide PatchAll, UpdatedAt, Under;
    ghost var f := x => PatchAllData(x, ids, patch);
    var keys := Under(k => IsList(ws, k), qc.order);
    UnderNoDup(k => IsList(ws, k), qc.order);
    UpdatedNone(qc.data, f);
    assert keys[..0] == [];
    for i := 0 to |keys|
      invariant qc.Valid() && qc.order == old(qc.order)
      invariant qc.data == UpdatedAt(old(qc.data), keys[..i], f)
    {
      var k := keys[i];
      assert k !in keys[..i] && keys[..i + 1] == keys[..i] + [k];
      UpdatedPush(old(qc.data), keys[..i], k, f);
      if k in qc.data && qc.data[k].Buckets? {
        var next := PatchEveryId(qc.data[k].lists, ids, patch);
        qc.SetQueryData(k, Some(Buckets(next)));
      }
    }
    assert keys[..|keys|] == keys;
    SameUpdate(old(qc.data), keys, f, x => PatchAllData(x, ids, patch));
  }

  lemma BatchUpdateRollsBack(d: Store, order: seq<Key>, ws: string, ids: seq<string>, patch: Patch)
    requires forall k :: k in d ==> k in order
    ensures var ctx := BatchUpdateSnapshot(d, order, ws, ids);
            Restored(BatchUpdatedStore(d, ws, ids, patch), ctx.prevLists + ctx.prevChildren) == d
  {
    hide PatchAllData, MergeChildren, Lists, IdSet, Covers, Restored;
    var ctx := BatchUpdateSnapshot(d, order, ws, ids);
    var after := BatchUpdatedStore(d, ws, ids, patch);
    forall k | k in d && !Covers(ctx.prevLists + ctx.prevChildren, k) ensures after[k] == d[k] {
      CoversConcat(ctx.prevLists, ctx.prevChildren, k);
      CoversSnapshots(d, Under(k => IsList(ws, k), order), k);
      CoversSnapshots(d, AffectedKeys(d, order, ws, ids), k);
      if IsChildren(ws, k) {
        MergeNothing(d[k], IdSet(ids), patch);
      }
    }
    RestoringIsExact(d, after, ctx.prevLists + ctx.prevChildren);
  }

  method BatchUpdateThenFail(qc: QueryClient, ws: string, ids: seq<string>, patch: Patch)
    requires qc.Valid()
    modifies qc
    ensures qc.Valid() && qc.data == old(qc.data)
  {
    BatchUpdateRollsBack(qc.data, qc.order, ws, ids, patch);
    var ctx := BatchUpdateOnMutate(qc, ws, ids, patch);
    RestoreSnapshots(qc, ctx.prevLists + ctx.prevChildren);
  }

  // ---------------------------------------------------------------------------
  // Batch delete
  // ---------------------------------------------------------------------------

  type Metadata = map<string, seq<string>>

  datatype BatchDeleteContext = BatchDeleteContext(
    prevLists: seq<Snapshot>, prevMyLists: seq<Snapshot>, prevChildren: seq<Snapshot>,
    parentIds: seq<string>, metadata: Metadata)

  function BatchDeletedStore(d: Store, ws: string, ids: seq<string>, metadata: Metadata): Store {
    if ids == [] then d
    else
      var before, id := BatchDeletedStore(d, ws, ids[..|ids| - 1], metadata), ids[|ids| - 1];
      var pruned := PrunedLists(before, ws, id);
      if id in metadata then PrunedChildren(pruned, ws, id, metadata[id]) else pruned
  }

  function BatchDeleteRestores(ctx: BatchDeleteContext): seq<Snapshot> {
    ctx.prevLists + ctx.prevMyLists + ctx.prevChildren
  }

  function BatchDeleteSnapshot(
      d: Store, order: seq<Key>, ws: string, parentIds: seq<string>, metadata: Metadata): BatchDeleteContext
  {
    BatchDeleteContext(
      Snapshots(d, Under(k => IsList(ws, k), order)),
      Snapshots(d, Under(k => IsMyList(ws, k), order)),
      Snapshots(d, ChildrenKeys(ws, parentIds)),
      parentIds, metadata)
  }

  /** The parents of every id, each once. */
  ghost predicate Collected(d: Store, ws: string, ids: seq<string>, metadata: Metadata) {
    metadata.Keys == IdSet(ids) && forall id :: id in metadata ==> IsMetadata(d, ws, id, metadata[id])
  }

  ghost predicate AllParents(metadata: Metadata, parentIds: seq<string>) {
    NoDup(parentIds) && forall p :: p in parentIds <==> exists id :: id in metadata && p in metadata[id]
  }

  method CollectBatchMetadata(qc: QueryClient, ws: string, ids: seq<string>)
      returns (metadata: Metadata, parentIds: seq<string>)
    requires qc.Valid()
    ensures Collected(qc.data, ws, ids, metadata) && AllParents(metadata, parentIds)
  {
    hide IsMetadata;
    metadata, parentIds := map[], [];
    for i := 0 to |ids|
      invariant Collected(qc.data, ws, ids[..i], metadata)
    {
      var own := CollectDeletedIssueCacheMetadata(qc, ws, ids[i]);
      metadata := metadata[ids[i] := own];
      assert ids[..i + 1] == ids[..i] + [ids[i]];
    }
    assert ids[..|ids|] == ids;
    for i := 0 to |ids|
      invariant NoDup(parentIds)
      invariant forall p :: p in parentIds <==> exists j :: 0 <= j < i && p in metadata[ids[j]]
    {
      var own := metadata[ids[i]];
      for j := 0 to |own|
        invariant NoDup(parentIds)
        invariant forall p :: p in parentIds <==> (exists j :: 0 <= j < i && p in metadata[ids[j]]) || p in own[..j]
      {
        parentIds := AddParent(parentIds, Some(own[j]));
        assert own[..j + 1] == own[..j] + [own[j]];
        NonEmptyParents(qc.data, ws, ids, metadata, i, own[j]);
      }
      assert own[..|own|] == own;
    }
  }

  lemma NonEmptyParents(d: Store, ws: string, ids: seq<string>, metadata: Metadata, i: nat, p: string)
    requires Collected(d, ws, ids, metadata) && i < |ids| && p in metadata[ids[i]]
    ensures p != ""
  {
    assert IsMetadata(d, ws, ids[i], metadata[ids[i]]);
  }

  /** One more id filtered out of a children list, or none of its children to filter out. */
  lemma ChildrenFilterMore(d: Store, ws: string, k: Key, done: set<string>, id: string, parents: seq<string>)
    requires IsMetadata(d, ws, id, parents) && k in d && d[k].Many? && IsChildren(ws, k) && k.parentId != ""
    ensures var was := Filter((i: Issue) => i.id !in done, d[k].issues);
            (if k.parentId in parents then FilterData(Many(was), id) else Many(was)) ==
            Many(Filter((i: Issue) => i.id !in done + {id}, d[k].issues))
  {
    hide Filter;
    var issues := d[k].issues;
    if k.parentId in parents {
      FilterCompose((i: Issue) => i.id !in done, (i: Issue) => i.id != id, (i: Issue) => i.id !in done + {id}, issues);
    } else {
      assert !Names(d, ws, id, k, k.parentId);
      assert ChildIn(Get(d, k), id).None?;
      FilterAgree((i: Issue) => i.id !in done, (i: Issue) => i.id !in done + {id}, issues);
    }
  }

  /** What a batch deletion leaves of an entry: lists and children without any of the issues, the rest as it was. */
  ghost predicate LeavesOthers(d: Store, r: Store, ws: string, ids: set<string>, k: Key)
    requires k in d
  {
    && k in r
    && ((IsList(ws, k) || IsMyList(ws, k)) && d[k].Buckets? && WellFormed(d[k].lists) ==>
          r[k].Buckets? && WellFormed(r[k].lists) && View(r[k].lists) == View(d[k].lists) - ids)
    && (IsChildren(ws, k) && k.parentId != "" && d[k].Many? ==>
          r[k] == Many(Filter((i: Issue) => i.id !in ids, d[k].issues)))
    && (!IsList(ws, k) && !IsMyList(ws, k) && !IsChildren(ws, k) ==> r[k] == d[k])
  }

  lemma {:induction false} BatchDeletedAreGone(d: Store, ws: string, ids: seq<string>, metadata: Metadata, k: Key)
    requires forall id :: id in ids ==> id in metadata && IsMetadata(d, ws, id, metadata[id])
    requires k in d
    ensures BatchDeletedStore(d, ws, ids, metadata).Keys == d.Keys
    ensures LeavesOthers(d, BatchDeletedStore(d, ws, ids, metadata), ws, IdSet(ids), k)
  {
    hide IsMetadata, PruneData, FilterData, Filter, View, WellFormed;
    if ids == [] {
      NothingDeleted(d, ws, IdSet(ids), k);
    } else {
      var init, id := ids[..|ids| - 1], ids[|ids| - 1];
      assert ids == init + [id] && id in ids && forall x :: x in init ==> x in ids;
      BatchDeletedAreGone(d, ws, init, metadata, k);
      assert IdSet(ids) == IdSet(init) + {id};
      DeletesOneMore(d, BatchDeletedStore(d, ws, init, metadata), ws, IdSet(init), id, metadata[id], k);
      hide LeavesOthers, IdSet;
    }
  }

  lemma NothingDeleted(d: Store, ws: string, none: set<string>, k: Key)
    requires k in d && none == {}
    ensures LeavesOthers(d, d, ws, none, k)
  {
    hide View, WellFormed;
    if d[k].Many? {
      FilterAll((i: Issue) => i.id !in none, d[k].issues);
    }
    if d[k].Buckets? {
      assert View(d[k].lists) - none == View(d[k].lists);
    }
  }

  lemma DeletesOneMore(d: Store, before: Store, ws: string, done: set<string>, id: string, parents: seq<string>, k: Key)
    requires k in d && IsMetadata(d, ws, id, parents) && LeavesOthers(d, before, ws, done, k)
    ensures LeavesOthers(d, PrunedChildren(PrunedLists(before, ws, id), ws, id, parents), ws, done + {id}, k)
  {
    hide IsMetadata, Filter, View, WellFormed, RemoveIssueFromBuckets, FilterData;
    if (IsList(ws, k) || IsMyList(ws, k)) && d[k].Buckets? && WellFormed(d[k].lists) {
      RemoveIsDelete(before[k].lists, id);
      assert View(d[k].lists) - done - {id} == View(d[k].lists) - (done + {id});
    }
    if IsChildren(ws, k) && k.parentId != "" && d[k].Many? {
      ChildrenFilterMore(d, ws, k, done, id, parents);
    }
  }

  method BatchDeleteOnMutate(qc: QueryClient, ws: string, ids: seq<string>) returns (ctx: BatchDeleteContext)
    requires qc.Valid()
    modifies qc
    ensures qc.Valid() && qc.order == old(qc.order)
    ensures ctx == BatchDeleteSnapshot(old(qc.data), old(qc.order), ws, ctx.parentIds, ctx.metadata)
    ensures Collected(old(qc.data), ws, ids, ctx.metadata) && AllParents(ctx.metadata, ctx.parentIds)
    ensures qc.data == BatchDeletedStore(old(qc.data), ws, ids, ctx.metadata)
  {
    hide Collected, AllParents, PrunedLists, PrunedChildren, Snapshots;
    var metadata, parentIds := CollectBatchMetadata(qc, ws, ids);
    ctx := BatchDeleteSnapshot(qc.data, qc.order, ws, parentIds, metadata);
    for i := 0 to |ids|
      invariant qc.Valid() && qc.order == old(qc.order)
      invariant qc.data == BatchDeletedStore(old(qc.data), ws, ids[..i], metadata)
    {
      assert ids[..i + 1][..i] == ids[..i];
      PruneDeletedIssueFromListCaches(qc, ws, ids[i]);
      if ids[i] in metadata {
        PruneDeletedIssueFromParentChildrenCaches(qc, ws, ids[i], metadata[ids[i]]);
      }
    }
    assert ids[..|ids|] == ids;
  }

  /** The deletion failed: the snapshots are written back. */
  method BatchDeleteOnError(qc: QueryClient, ctx: BatchDeleteContext)
    requires qc.Valid()
    modifies qc
    ensures qc.Valid() && qc.data == Restored(old(qc.data), BatchDeleteRestores(ctx))
  {
    RestoreSnapshots(qc, BatchDeleteRestores(ctx));
  }

  function CleanedUpAll(d: Store, ws: string, ids: seq<string>, metadata: Metadata): Store
    requires forall id :: id in ids ==> id in metadata
  {
    if ids == [] then d
    else CleanedUp(CleanedUpAll(d, ws, ids[..|ids| - 1], metadata), ws, ids[|ids| - 1], metadata[ids[|ids| - 1]])
  }

  /** The server has answered: a full success cleans up after every id, a partial one writes the snapshots back. */
  method BatchDeleteOnSuccess(qc: QueryClient, ws: string, ids: seq<string>, deleted: int, ctx: BatchDeleteContext)
    requires qc.Valid() && forall id :: id in ids ==> id in ctx.metadata
    modifies qc
    ensures qc.Valid()
    ensures deleted == |ids| ==> qc.data == CleanedUpAll(old(qc.data), ws, ids, ctx.metadata)
    ensures deleted != |ids| ==> qc.data == Restored(old(qc.data), BatchDeleteRestores(ctx))
  {
    hide CleanedUp;
    if deleted == |ids| {
      for i := 0 to |ids|
        invariant qc.Valid() && forall id :: id in ids[..i] ==> id in ids
        invariant qc.data == CleanedUpAll(old(qc.data), ws, ids[..i], ctx.metadata)
      {
        assert ids[..i + 1][..i] == ids[..i] && ids[i] in ids;
        var _ := CleanupDeletedIssueCaches(qc, ws, ids[i], Some(ctx.metadata[ids[i]]));
      }
      assert ids[..|ids|] == ids;
      return;
    }
    RestoreSnapshots(qc, BatchDeleteRestores(ctx));
  }

  /** After a full success no entry of the deleted issues is left and no list shows any of them. */
  lemma {:induction false} CleanedUpAreGone(d: Store, ws: string, ids: seq<string>, metadata: Metadata, k: Key)
    requires forall id :: id in ids ==> id in metadata
    ensures var r := CleanedUpAll(d, ws, ids, metadata);
            && (k in r <==> k in d && forall id :: id in ids ==> !IsOwnKey(ws, id, k))
            && (k in r && (IsList(ws, k) || IsMyList(ws, k)) && d[k].Buckets? && WellFormed(d[k].lists) ==>
                  r[k].Buckets? && WellFormed(r[k].lists) && View(r[k].lists) == View(d[k].lists) - IdSet(ids))
  {
    hide View, WellFormed, RemoveIssueFromBuckets, IsOwnKey;
    if ids == [] {
      if k in d && d[k].Buckets? {
        assert View(d[k].lists) - IdSet(ids) == View(d[k].lists);
      }
    } else {
      var init, id := ids[..|ids| - 1], ids[|ids| - 1];
      assert ids == init + [id] && id in ids && forall x :: x in init ==> x in ids;
      assert IdSet(ids) == IdSet(init) + {id};
      CleanedUpAreGone(d, ws, init, metadata, k);
      var before := CleanedUpAll(d, ws, init, metadata);
      CleanedOneMore(before, ws, id, metadata[id], k);
      hide CleanedUp, IdSet;
      if k in d && d[k].Buckets? {
        assert View(d[k].lists) - IdSet(init) - {id} == View(d[k].lists) - (IdSet(init) + {id});
      }
    }
  }

  lemma CleanedOneMore(before: Store, ws: string, id: string, parents: seq<string>, k: Key)
    ensures var r := CleanedUp(before, ws, id, parents);
            && (k in r <==> k in before && !IsOwnKey(ws, id, k))
            && (k in r && (IsList(ws, k) || IsMyList(ws, k)) && before[k].Buckets? && WellFormed(before[k].lists) ==>
                  r[k].Buckets? && WellFormed(r[k].lists) && View(r[k].lists) == View(before[k].lists) - {id})
  {
    hide View, WellFormed, RemoveIssueFromBuckets;
    OwnKeysListed(ws, id, k);
    if k in before && before[k].Buckets? && WellFormed(before[k].lists) {
      RemoveIsDelete(before[k].lists, id);
    }
  }

  lemma {:induction false} BatchDeleteTouches(
      d: Store, ws: string, ids: seq<string>, metadata: Metadata, parentIds: seq<string>, k: Key)
    requires AllParents(metadata, parentIds)
    ensures BatchDeletedStore(d, ws, ids, metadata).Keys == d.Keys
    ensures k in d && !IsList(ws, k) && !IsMyList(ws, k) && !(IsChildren(ws, k) && k.parentId in parentIds) ==>
              BatchDeletedStore(d, ws, ids, metadata)[k] == d[k]
  {
    hide PruneData, FilterData;
    if ids != [] {
      BatchDeleteTouches(d, ws, ids[..|ids| - 1], metadata, parentIds, k);
    }
  }

  /** The failed and the partially successful batch deletion both restore the cache. */
  lemma BatchDeleteRollsBack(
      d: Store, order: seq<Key>, ws: string, ids: seq<string>, parentIds: seq<string>, metadata: Metadata)
    requires (forall k :: k in d ==> k in order) && AllParents(metadata, parentIds)
    ensures Restored(BatchDeletedStore(d, ws, ids, metadata),
                     BatchDeleteRestores(BatchDeleteSnapshot(d, order, ws, parentIds, metadata))) == d
  {
    hide BatchDeletedStore, AllParents, Covers, Restored;
    var ctx := BatchDeleteSnapshot(d, order, ws, parentIds, metadata);
    var lists, mine, children := ctx.prevLists, ctx.prevMyLists, ctx.prevChildren;
    var after := BatchDeletedStore(d, ws, ids, metadata);
    BatchDeleteTouches(d, ws, ids, metadata, parentIds, DetailKey(ws, ""));
    forall k | k in d && !Covers(lists + mine + children, k) ensures after[k] == d[k] {
      CoversConcat(lists + mine, children, k);
      CoversConcat(lists, mine, k);
      CoversSnapshots(d, Under(k => IsList(ws, k), order), k);
      CoversSnapshots(d, Under(k => IsMyList(ws, k), order), k);
      CoversChildren(d, ws, parentIds, k);
      BatchDeleteTouches(d, ws, ids, metadata, parentIds, k);
    }
    RestoringIsExact(d, after, lists + mine + children);
  }

  method BatchDeleteThenFail(qc: QueryClient, ws: string, ids: seq<string>)
    requires qc.Valid()
    modifies qc
    ensures qc.Valid() && qc.data == old(qc.data)
  {
    hide Collected, AllParents;
    ghost var d, order := qc.data, qc.order;
    var ctx := BatchDeleteOnMutate(qc, ws, ids);
    BatchDeleteOnError(qc, ctx);
    BatchDeleteRollsBack(d, order, ws, ids, ctx.parentIds, ctx.metadata);
  }

  method BatchDeletePartially(qc: QueryClient, ws: string, ids: seq<string>, deleted: int)
    requires qc.Valid() && deleted != |ids|
    modifies qc
    ensures qc.Valid() && qc.data == old(qc.data)
  {
    hide AllParents;
    ghost var d, order := qc.data, qc.order;
    var ctx := BatchDeleteOnMutate(qc, ws, ids);
    BatchDeleteOnSuccess(qc, ws, ids, deleted, ctx);
    BatchDeleteRollsBack(d, order, ws, ids, ctx.parentIds, ctx.metadata);
  }
}
