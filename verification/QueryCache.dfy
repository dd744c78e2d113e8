/**
 The query cache the issue mutations and event handlers write to: structured keys, cached values, and
 snapshots of them.
 */
module QueryCache {
  import opened Common
  import opened IssueBuckets

  datatype Scope = Timeline | Reactions | Subscribers | Usage | Attachments | Tasks

  /** One constructor per family of keys; `sort` and `scope` stand for the serialized tail of a list key. */
  datatype Key =
    | ListKey(ws: string, sort: string)
    | MyListKey(ws: string, scope: string)
    | DetailKey(ws: string, id: string)
    | ChildrenKey(ws: string, parentId: string)
    | ScopedKey(kind: Scope, id: string)
    | LabelsKey(ws: string, id: string)

  datatype Data = Buckets(lists: ListCache) | One(issue: Issue) | Many(issues: seq<Issue>) | Other(content: string)

  /** The queries that hold data. */
  type Store = map<Key, Data>

  function Get(d: Store, k: Key): Option<Data> {
    if k in d then Some(d[k]) else None
  }

  /** `setQueryData`: an updater that returns undefined changes nothing. */
  function Write(d: Store, k: Key, v: Option<Data>): Store {
    if v.Some? then d[k := v.value] else d
  }

  predicate IsList(ws: string, k: Key) {
    k.ListKey? && k.ws == ws
  }

  predicate IsMyList(ws: string, k: Key) {
    k.MyListKey? && k.ws == ws
  }

  predicate IsChildren(ws: string, k: Key) {
    k.ChildrenKey? && k.ws == ws
  }

  /** The keys under a prefix, in the order the queries were created. */
  function Under(matches: Key -> bool, order: seq<Key>): (r: seq<Key>)
    ensures forall k :: k in r <==> k in order && matches(k)
  {
    Filter(matches, order)
  }

  class QueryClient {
    /** Every query, in creation order, whether or not it has data. */
    var order: seq<Key>
    var data: Store

    ghost predicate Valid()
      reads this
    {
      NoDup(order) && forall k :: k in data ==> k in order
    }

    method SetQueryData(k: Key, v: Option<Data>)
      requires Valid()
      modifies this
      ensures Valid() && data == Write(old(data), k, v)
      ensures order == if v.None? || k in old(order) then old(order) else old(order) + [k]
    {
      if v.None? {
        return;
      }
      if k !in order {
        order := order + [k];
      }
      data := data[k := v.value];
    }

    method RemoveQueries(k: Key)
      requires Valid()
      modifies this
      ensures Valid() && data == old(data) - {k}
      ensures forall x :: x in order <==> x in old(order) && x != k
    {
      FilterNoDup((x: Key) => x != k, order);
      order := Filter((x: Key) => x != k, order);
      data := data - {k};
    }
  }

  // ---------------------------------------------------------------------------
  // One update applied under a prefix
  // ---------------------------------------------------------------------------

  /** `d` with `f` applied to the data of the given keys. */
  function UpdatedAt(d: Store, keys: seq<Key>, f: Data -> Data): (r: Store)
    ensures r.Keys == d.Keys
    ensures forall k :: k in d ==> r[k] == if k in keys then f(d[k]) else d[k]
  {
    map k | k in d :: if k in keys then f(d[k]) else d[k]
  }

  /** One more key. */
  lemma UpdatedPush(d: Store, keys: seq<Key>, k: Key, f: Data -> Data)
    requires k !in keys
    ensures var before := UpdatedAt(d, keys, f);
            && before.Keys == d.Keys && (k in d ==> before[k] == d[k])
            && UpdatedAt(d, keys + [k], f) == if k in d then before[k := f(d[k])] else before
  {
  }

  lemma UpdatedNone(d: Store, f: Data -> Data)
    ensures UpdatedAt(d, [], f) == d
  {
  }

  /** Updates the queries one after the other; a query without data gets none. */
  method UpdateEach(qc: QueryClient, keys: seq<Key>, f: Data -> Data)
    requires qc.Valid() && NoDup(keys) && forall k :: k in keys ==> k in qc.order
    modifies qc
    ensures qc.Valid() && qc.order == old(qc.order)
    ensures qc.data == UpdatedAt(old(qc.data), keys, f)
  {
    hide UpdatedAt;
    UpdatedNone(qc.data, f);
    assert keys[..0] == [];
    for i := 0 to |keys|
      invariant qc.Valid() && qc.order == old(qc.order)
      invariant qc.data == UpdatedAt(old(qc.data), keys[..i], f)
    {
      var k := keys[i];
      assert k !in keys[..i] && keys[..i + 1] == keys[..i] + [k];
      UpdatedPush(old(qc.data), keys[..i], k, f);
      qc.SetQueryData(k, if k in qc.data then Some(f(qc.data[k])) else None);
    }
    assert keys[..|keys|] == keys;
  }

  lemma UnderNoDup(matches: Key -> bool, order: seq<Key>)
    requires NoDup(order)
    ensures NoDup(Under(matches, order))
  {
    FilterNoDup(matches, order);
  }

  // ---------------------------------------------------------------------------
  // Snapshots
  // ---------------------------------------------------------------------------

  datatype Snapshot = Snapshot(key: Key, value: Option<Data>)

  function Snapshots(d: Store, keys: seq<Key>): (r: seq<Snapshot>)
    ensures |r| == |keys| && forall i :: 0 <= i < |r| ==> r[i] == Snapshot(keys[i], Get(d, keys[i]))
  {
    Map(k => Snapshot(k, Get(d, k)), keys)
  }

  /** Writing the snapshots back, in order. */
  function Restored(d: Store, snapshots: seq<Snapshot>): Store {
    if snapshots == [] then d
    else
      var last := snapshots[|snapshots| - 1];
      Write(Restored(d, snapshots[..|snapshots| - 1]), last.key, last.value)
  }

  method RestoreSnapshots(qc: QueryClient, snapshots: seq<Snapshot>)
    requires qc.Valid()
    modifies qc
    ensures qc.Valid() && qc.data == Restored(old(qc.data), snapshots)
  {
    for i := 0 to |snapshots|
      invariant qc.Valid() && qc.data == Restored(old(qc.data), snapshots[..i])
    {
      assert snapshots[..i + 1][..i] == snapshots[..i];
      qc.SetQueryData(snapshots[i].key, snapshots[i].value);
    }
    assert snapshots[..|snapshots|] == snapshots;
  }

  /** Every snapshot was taken from `before`. */
  ghost predicate TakenFrom(before: Store, snapshots: seq<Snapshot>) {
    forall i :: 0 <= i < |snapshots| ==> snapshots[i].value == Get(before, snapshots[i].key)
  }

  ghost predicate Covers(snapshots: seq<Snapshot>, k: Key) {
    exists i :: 0 <= i < |snapshots| && snapshots[i].key == k
  }

  /** Writing back snapshots of `before` sets the covered entries to their old data and leaves the others. */
  lemma {:induction false} RestoredEntry(before: Store, d: Store, snapshots: seq<Snapshot>, k: Key)
    requires TakenFrom(before, snapshots)
    ensures Get(Restored(d, snapshots), k) == if Covers(snapshots, k) && k in before then Some(before[k]) else Get(d, k)
  {
    if snapshots != [] {
      var init, last := snapshots[..|snapshots| - 1], snapshots[|snapshots| - 1];
      RestoredEntry(before, d, init, k);
      assert Covers(init, k) ==> Covers(snapshots, k);
      if last.key == k {
        assert snapshots[|snapshots| - 1].key == k;
      } else if Covers(snapshots, k) {
        var i :| 0 <= i < |snapshots| && snapshots[i].key == k;
        assert init[i].key == k;
      }
    }
  }

  /**
   A write that creates no entry and changes none beyond those snapshotted is undone exactly: every entry
   gets back the data it had.
   */
  lemma RestoringIsExact(before: Store, after: Store, snapshots: seq<Snapshot>)
    requires TakenFrom(before, snapshots)
    requires forall k :: k in after ==> k in before
    requires forall k :: k in before && !Covers(snapshots, k) ==> k in after && after[k] == before[k]
    ensures Restored(after, snapshots) == before
  {
    hide Covers, Restored;
    var r := Restored(after, snapshots);
    forall k ensures Get(r, k) == Get(before, k) {
      RestoredEntry(before, after, snapshots, k);
    }
    SameEntries(r, before);
  }

  lemma SameEntries(a: Store, b: Store)
    requires forall k :: Get(a, k) == Get(b, k)
    ensures a == b
  {
    forall k ensures k in a <==> k in b
      ensures k in a ==> a[k] == b[k]
    {
      assert Get(a, k) == Get(b, k);
    }
  }

  lemma CoversConcat(a: seq<Snapshot>, b: seq<Snapshot>, k: Key)
    ensures Covers(a + b, k) <==> Covers(a, k) || Covers(b, k)
  {
    if i :| 0 <= i < |a| && a[i].key == k {
      assert (a + b)[i].key == k;
    }
    if i :| 0 <= i < |b| && b[i].key == k {
      assert (a + b)[|a| + i].key == k;
    }
  }

  lemma CoversSnapshots(d: Store, keys: seq<Key>, k: Key)
    ensures Covers(Snapshots(d, keys), k) <==> k in keys
  {
    if i :| 0 <= i < |keys| && keys[i] == k {
      assert Snapshots(d, keys)[i].key == k;
    }
  }
}
