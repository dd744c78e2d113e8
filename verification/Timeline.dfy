/** The entries of an issue timeline: activities and comments, in the order the cache holds them. */
module Timeline {
  import opened Common

  datatype Kind = Activity | Comment

  /** `content` stands for the fields no algorithm here looks at. Timestamps are milliseconds. */
  datatype Entry = Entry(
    kind: Kind,
    id: string,
    actorType: string,
    actorId: string,
    createdAt: int,
    action: Option<string>,
    parentId: Option<string>,
    coalescedCount: Option<int>,
    content: string)
  {
    /** `e.parent_id` is truthy: present and not the empty string. */
    predicate HasParent() {
      parentId.Some? && parentId.value != ""
    }
  }

  function Ids(entries: seq<Entry>): (ids: seq<string>)
    ensures |ids| == |entries|
  {
    Map((e: Entry) => e.id, entries)
  }

  function CommentIds(entries: seq<Entry>): set<string> {
    set e | e in entries && e.kind == Comment :: e.id
  }

  /** A comment whose parent is one of the comments of the batch. */
  predicate Nested(entries: seq<Entry>, e: Entry) {
    e.kind == Comment && e.HasParent() && e.parentId.value in CommentIds(entries)
  }

  ghost predicate UniqueCommentIds(entries: seq<Entry>) {
    forall i, j :: 0 <= i < j < |entries| && entries[i].kind == Comment && entries[j].kind == Comment ==>
      entries[i].id != entries[j].id
  }

  lemma {:induction false} FilterKeepsUniqueIds(keep: Entry -> bool, entries: seq<Entry>)
    requires UniqueCommentIds(entries)
    ensures UniqueCommentIds(Filter(keep, entries))
  {
    if entries != [] {
      var rest := entries[1..];
      assert forall i :: 0 <= i < |rest| ==> rest[i] == entries[i + 1];
      FilterKeepsUniqueIds(keep, rest);
      forall e | e in Filter(keep, rest) && e.kind == Comment && entries[0].kind == Comment ensures e.id != entries[0].id {
        var i :| 0 <= i < |rest| && rest[i] == e;
      }
    }
  }

  /** Every id of the set belongs to a reply whose parent is again in the set: following parents never leaves it. */
  ghost predicate ParentTrap(entries: seq<Entry>, ids: set<string>) {
    forall x {:trigger RepliesInto(entries, x, ids)} :: x in ids ==> RepliesInto(entries, x, ids)
  }

  ghost predicate RepliesInto(entries: seq<Entry>, x: string, ids: set<string>) {
    exists e :: e in entries && Nested(entries, e) && e.id == x && e.parentId.value in ids
  }

  /** Following parent links from a comment always ends. */
  ghost predicate Acyclic(entries: seq<Entry>) {
    forall ids: set<string> :: ParentTrap(entries, ids) ==> ids == {}
  }
}
