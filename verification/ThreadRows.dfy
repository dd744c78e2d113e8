/**
 What the rows of a bundled timeline hold: each entry once and each reply under its ultimate
 ancestor, exactly when parent links have no cycle.
 */
module ThreadRows {
  import opened Common
  import opened Timeline
  import opened TimelineThread
  import opened ThreadSearch

  /** Everything the rows show. */
  function Shown(rows: seq<Row>): seq<Entry> {
    if rows == [] then [] else [rows[0].entry] + rows[0].replies + Shown(rows[1..])
  }

  function RepliesIn(entries: seq<Entry>): (r: seq<Entry>)
    ensures forall e :: e in r <==> e in entries && Nested(entries, e)
  {
    Filter(e => Nested(entries, e), entries)
  }

  function AllReplies(rows: seq<Row>): seq<Entry> {
    if rows == [] then [] else rows[0].replies + AllReplies(rows[1..])
  }

  function Heads(rows: seq<Row>): seq<Entry> {
    Map((r: Row) => r.entry, rows)
  }

  lemma {:induction false} ShownParts(rows: seq<Row>)
    ensures multiset(Shown(rows)) == multiset(Heads(rows)) + multiset(AllReplies(rows))
  {
    if rows != [] {
      var row, rest := rows[0], rows[1..];
      ShownParts(rest);
      assert Heads(rows) == [row.entry] + Heads(rest);
      assert Shown(rows) == [row.entry] + row.replies + Shown(rest);
      assert AllReplies(rows) == row.replies + AllReplies(rest);
      hide Heads, Shown, AllReplies;
    }
  }

  lemma {:induction false} AllRepliesMember(rows: seq<Row>, e: Entry)
    ensures e in AllReplies(rows) <==> exists i :: 0 <= i < |rows| && e in rows[i].replies
  {
    if rows != [] {
      AllRepliesMember(rows[1..], e);
      if e in AllReplies(rows[1..]) {
        var i :| 0 <= i < |rows[1..]| && e in rows[1..][i].replies;
        assert e in rows[i + 1].replies;
      }
      if i :| 0 <= i < |rows| && e in rows[i].replies && i > 0 {
        assert e in rows[1..][i - 1].replies;
      }
    }
  }

  // ---------------------------------------------------------------------------
  // Rows do not overlap
  // ---------------------------------------------------------------------------

  /** Two rows that list the same comment belong to the same top-level comment. */
  lemma {:induction false} OneRow(entries: seq<Entry>, a: Row, b: Row, i: nat, j: nat)
    requires UniqueCommentIds(entries) && IsThread(entries, a) && IsThread(entries, b)
    requires i < |a.replies| && j < |b.replies| && a.replies[i].id == b.replies[j].id
    ensures a.entry.id == b.entry.id
    decreases i
  {
    hide UniqueCommentIds, Nested, IsBreadthFirst, InBlock, KidsOfAll;
    var k := ParentBefore(entries, a.entry.id, a.replies, i);
    var l := ParentBefore(entries, b.entry.id, b.replies, j);
    ReplyFacts(entries, a.replies[i]);
    ReplyFacts(entries, b.replies[j]);
    SameComment(entries, a.replies[i], b.replies[j]);
    if k > 0 && l > 0 {
      OneRow(entries, a, b, k - 1, l - 1);
    } else if k > 0 {
      var k' := ParentBefore(entries, a.entry.id, a.replies, k - 1);
      TopIsNotReply(entries, a.replies[k - 1]);
    } else if l > 0 {
      var l' := ParentBefore(entries, b.entry.id, b.replies, l - 1);
      TopIsNotReply(entries, b.replies[l - 1]);
    }
  }

  lemma ReplyFacts(entries: seq<Entry>, e: Entry)
    requires Nested(entries, e)
    ensures e.kind == Comment && e.parentId.Some?
  {
  }

  /** A timeline has at most one bundling. */
  lemma RowsUnique(entries: seq<Entry>, a: seq<Row>, b: seq<Row>)
    requires AreRows(entries, a) && AreRows(entries, b)
    ensures a == b
  {
    hide IsBreadthFirst, TopLevelOf;
    forall i | 0 <= i < |a| ensures a[i] == b[i] {
      if a[i].entry.kind == Comment {
        BreadthFirstUnique(entries, a[i].entry.id, a[i].replies, b[i].replies);
      }
    }
  }

  /** A row headed by a top-level comment, with its breadth-first replies. */
  ghost predicate IsThread(entries: seq<Entry>, row: Row) {
    && row.entry.kind == Comment && row.entry in entries && !Nested(entries, row.entry)
    && IsTopComment(entries, row.entry.id)
    && IsBreadthFirst(entries, row.entry.id, row.replies)
  }

  /** Any selection of the rows of a timeline. */
  ghost predicate Bundled(entries: seq<Entry>, rows: seq<Row>) {
    && (forall i :: 0 <= i < |rows| ==> IsThread(entries, rows[i]) || rows[i].replies == [])
    && forall i, j :: 0 <= i < j < |rows| && IsThread(entries, rows[i]) && IsThread(entries, rows[j]) ==>
         rows[i].entry.id != rows[j].entry.id
  }

  lemma RowsAreBundled(entries: seq<Entry>, rows: seq<Row>)
    requires UniqueCommentIds(entries) && AreRows(entries, rows)
    ensures Bundled(entries, rows)
  {
    hide IsBreadthFirst, Nested;
    FilterKeepsUniqueIds(e => !Nested(entries, e), entries);
    forall i | 0 <= i < |rows| ensures IsThread(entries, rows[i]) || rows[i].replies == [] {
      assert rows[i].entry in TopLevel(entries);
    }
  }

  lemma {:induction false} RepliesDistinct(entries: seq<Entry>, rows: seq<Row>)
    requires UniqueCommentIds(entries) && Bundled(entries, rows)
    ensures NoDup(AllReplies(rows))
  {
    hide IsThread, UniqueCommentIds;
    if rows != [] {
      var rest := rows[1..];
      assert forall i :: 0 <= i < |rest| ==> rest[i] == rows[i + 1];
      RepliesDistinct(entries, rest);
      ThreadDistinct(entries, rows[0]);
      forall i, j | 0 <= i < |rows[0].replies| && 0 <= j < |AllReplies(rest)|
        ensures rows[0].replies[i] != AllReplies(rest)[j]
      {
        RowsApart(entries, rows, rows[0].replies[i]);
      }
      NoDupConcat(rows[0].replies, AllReplies(rest));
    }
  }

  lemma RowsApart(entries: seq<Entry>, rows: seq<Row>, e: Entry)
    requires UniqueCommentIds(entries) && Bundled(entries, rows) && rows != [] && e in rows[0].replies
    ensures e !in AllReplies(rows[1..])
  {
    hide IsThread, UniqueCommentIds;
    if e in AllReplies(rows[1..]) {
      AllRepliesMember(rows[1..], e);
      var j :| 0 <= j < |rows[1..]| && e in rows[1..][j].replies;
      SharedReply(entries, rows[0], rows[j + 1], e);
    }
  }

  lemma ThreadDistinct(entries: seq<Entry>, row: Row)
    requires UniqueCommentIds(entries) && (IsThread(entries, row) || row.replies == [])
    ensures NoDup(row.replies)
  {
    hide UniqueCommentIds, IsBreadthFirst, Nested;
    if row.replies != [] {
      VisitedNoDup(entries, row.entry.id, row.replies);
      var visited := Visited(row.entry.id, row.replies);
      assert forall i :: 0 <= i < |row.replies| ==> visited[i + 1] == row.replies[i].id;
    }
  }

  lemma SharedReply(entries: seq<Entry>, a: Row, b: Row, e: Entry)
    requires UniqueCommentIds(entries)
    requires IsThread(entries, a) || a.replies == []
    requires IsThread(entries, b) || b.replies == []
    requires e in a.replies && e in b.replies
    ensures IsThread(entries, a) && IsThread(entries, b) && a.entry.id == b.entry.id
  {
    hide IsThread, UniqueCommentIds;
    var i :| 0 <= i < |a.replies| && a.replies[i] == e;
    var j :| 0 <= j < |b.replies| && b.replies[j] == e;
    OneRow(entries, a, b, i, j);
  }

  // ---------------------------------------------------------------------------
  // Every reply is shown, unless it follows a cycle
  // ---------------------------------------------------------------------------

  /** A reply to a shown comment is shown in the same row. */
  lemma ShownWithParent(entries: seq<Entry>, row: Row, e: Entry)
    requires IsThread(entries, row) && e in entries && Nested(entries, e) && e.parentId.Some?
    requires e.parentId.value == row.entry.id || exists f :: f in row.replies && f.id == e.parentId.value
    ensures e in row.replies
  {
    hide IsBreadthFirst, Nested, IsTopComment;
    var visited := Visited(row.entry.id, row.replies);
    if e.parentId.value == row.entry.id {
      assert visited[0] == e.parentId.value;
    } else {
      var f :| f in row.replies && f.id == e.parentId.value;
      var i :| 0 <= i < |row.replies| && row.replies[i] == f;
      assert visited[i + 1] == e.parentId.value;
    }
    RepliesClosed(entries, row.entry.id, row.replies, e);
  }

  lemma ParentEntry(entries: seq<Entry>, e: Entry) returns (f: Entry)
    requires Nested(entries, e)
    ensures f in entries && f.kind == Comment && f.id == e.parentId.value
  {
    f :| f in entries && f.kind == Comment && f.id == e.parentId.value;
  }

  lemma RowOf(entries: seq<Entry>, rows: seq<Row>, f: Entry) returns (i: nat)
    requires AreRows(entries, rows) && f in entries && f.kind == Comment && !Nested(entries, f)
    ensures i < |rows| && rows[i].entry == f && IsThread(entries, rows[i])
  {
    hide IsBreadthFirst, Nested;
    assert f in TopLevel(entries);
    i :| 0 <= i < |rows| && TopLevel(entries)[i] == f;
  }

  /** If a reply is not shown then neither is the comment it replies to, which is itself a reply. */
  lemma MissingParent(entries: seq<Entry>, rows: seq<Row>, e: Entry) returns (f: Entry)
    requires UniqueCommentIds(entries) && AreRows(entries, rows)
    requires e in entries && Nested(entries, e) && e !in AllReplies(rows)
    ensures f in entries && Nested(entries, f) && f !in AllReplies(rows) && f.id == e.parentId.value
  {
    hide AreRows, Nested, IsThread, IsBreadthFirst, UniqueCommentIds;
    ReplyFacts(entries, e);
    f := ParentEntry(entries, e);
    AllRepliesMember(rows, e);
    AllRepliesMember(rows, f);
    if !Nested(entries, f) {
      var i := RowOf(entries, rows, f);
      ShownWithParent(entries, rows[i], e);
    } else if f in AllReplies(rows) {
      RowsAreBundled(entries, rows);
      var i :| 0 <= i < |rows| && f in rows[i].replies;
      ShownWithParent(entries, rows[i], e);
    }
  }

  lemma MissingAreTrapped(entries: seq<Entry>, rows: seq<Row>)
    requires UniqueCommentIds(entries) && AreRows(entries, rows)
    ensures ParentTrap(entries, set e | e in entries && Nested(entries, e) && e !in AllReplies(rows) :: e.id)
  {
    hide AreRows, Nested, UniqueCommentIds, RepliesInto;
    var missing := set e | e in entries && Nested(entries, e) && e !in AllReplies(rows) :: e.id;
    forall x {:trigger RepliesInto(entries, x, missing)} | x in missing ensures RepliesInto(entries, x, missing) {
      var e :| e in entries && Nested(entries, e) && e !in AllReplies(rows) && e.id == x;
      var f := MissingParent(entries, rows, e);
      IsReplyInto(entries, e, missing);
    }
  }

  /** Nothing in a cycle is shown below a top-level comment. */
  lemma {:induction false} TrappedNotListed(entries: seq<Entry>, row: Row, ids: set<string>, i: nat)
    requires UniqueCommentIds(entries) && IsThread(entries, row) && ParentTrap(entries, ids)
    requires i < |row.replies|
    ensures row.replies[i].id !in ids
    decreases i
  {
    hide UniqueCommentIds, Nested, IsBreadthFirst, InBlock, KidsOfAll, ParentTrap;
    if row.replies[i].id in ids {
      var k := ParentBefore(entries, row.entry.id, row.replies, i);
      TrapParent(entries, ids, row.replies[i]);
      if k > 0 {
        TrappedNotListed(entries, row, ids, k - 1);
      } else {
        TrapHasNoTop(entries, ids, row.entry);
      }
    }
  }

  lemma TrapParent(entries: seq<Entry>, ids: set<string>, e: Entry)
    requires UniqueCommentIds(entries) && ParentTrap(entries, ids) && e in entries && Nested(entries, e) && e.id in ids
    ensures e.parentId.value in ids
  {
    hide UniqueCommentIds;
    assert RepliesInto(entries, e.id, ids);
    var r :| r in entries && Nested(entries, r) && r.id == e.id && r.parentId.value in ids;
    SameComment(entries, r, e);
  }

  lemma TrapHasNoTop(entries: seq<Entry>, ids: set<string>, e: Entry)
    requires UniqueCommentIds(entries) && ParentTrap(entries, ids)
    requires e in entries && e.kind == Comment && !Nested(entries, e)
    ensures e.id !in ids
  {
    hide UniqueCommentIds;
    if e.id in ids {
      assert RepliesInto(entries, e.id, ids);
      var r :| r in entries && Nested(entries, r) && r.id == e.id && r.parentId.value in ids;
      SameComment(entries, r, e);
    }
  }

  /** Every reply is shown exactly when parent links have no cycle. */
  lemma AllShownIffAcyclic(entries: seq<Entry>, rows: seq<Row>)
    requires UniqueCommentIds(entries) && AreRows(entries, rows)
    ensures Acyclic(entries) <==> forall e :: e in entries && Nested(entries, e) ==> e in AllReplies(rows)
  {
    hide AreRows, Nested, UniqueCommentIds, ParentTrap, IsThread;
    var missing := set e | e in entries && Nested(entries, e) && e !in AllReplies(rows) :: e.id;
    if Acyclic(entries) {
      MissingAreTrapped(entries, rows);
      forall e | e in entries && Nested(entries, e) ensures e in AllReplies(rows) {
        assert e !in AllReplies(rows) ==> e.id in missing;
      }
    }
    if forall e :: e in entries && Nested(entries, e) ==> e in AllReplies(rows) {
      RowsAreBundled(entries, rows);
      forall ids: set<string> | ParentTrap(entries, ids) ensures ids == {} {
        if x :| x in ids {
          var e := TrapMember(entries, ids, x);
          AllRepliesMember(rows, e);
          var i :| 0 <= i < |rows| && e in rows[i].replies;
          var j :| 0 <= j < |rows[i].replies| && rows[i].replies[j] == e;
          TrappedNotListed(entries, rows[i], ids, j);
        }
      }
    }
  }

  lemma TrapMember(entries: seq<Entry>, ids: set<string>, x: string) returns (e: Entry)
    requires ParentTrap(entries, ids) && x in ids
    ensures e in entries && Nested(entries, e) && e.id == x
  {
    assert RepliesInto(entries, x, ids);
    e :| e in entries && Nested(entries, e) && e.id == x && e.parentId.value in ids;
  }

  /**
   The counts agree: with unique comment ids the rows show a permutation of the timeline exactly when
   parent links have no cycle. The comments of a cycle, and the replies below them, are not shown.
   */
  lemma BundlingIsPartition(entries: seq<Entry>, rows: seq<Row>)
    requires UniqueCommentIds(entries) && AreRows(entries, rows)
    ensures multiset(Shown(rows)) == multiset(entries) <==> Acyclic(entries)
  {
    hide Nested, UniqueCommentIds, Acyclic, IsBreadthFirst;
    ShownParts(rows);
    assert Heads(rows) == TopLevel(entries);
    FilterSplit(e => !Nested(entries, e), e => Nested(entries, e), entries);
    assert multiset(entries) == multiset(TopLevel(entries)) + multiset(RepliesIn(entries));
    RowsAreBundled(entries, rows);
    RepliesDistinct(entries, rows);
    RepliesNoDup(entries);
    ListedAreReplies(entries, rows);
    AllShownIffAcyclic(entries, rows);
    if Acyclic(entries) {
      NoDupSameElements(AllReplies(rows), RepliesIn(entries));
    }
    if multiset(Shown(rows)) == multiset(entries) {
      SameMultisetMembers(AllReplies(rows), RepliesIn(entries), multiset(TopLevel(entries)));
    }
  }

  lemma NoMembers(entries: seq<Entry>)
    ensures entries == [] <==> forall e :: e !in entries
  {
    if entries != [] {
      assert entries[0] in entries;
    }
  }

  /** Two comments that name each other as parent: ids are unique, the bundling returns, and shows neither. */
  lemma CycleIsNotShown(a: Entry, b: Entry)
    requires a.kind == Comment && b.kind == Comment && a.id != b.id && a.id != "" && b.id != ""
    requires a.parentId == Some(b.id) && b.parentId == Some(a.id)
    ensures UniqueCommentIds([a, b]) && forall rows :: AreRows([a, b], rows) <==> rows == []
    ensures multiset(Shown([])) != multiset([a, b])
  {
    var entries := [a, b];
    assert a in entries && b in entries && Nested(entries, a) && Nested(entries, b);
    hide IsBreadthFirst, TopLevelOf, Nested;
    NoMembers(TopLevel(entries));
    assert forall rows :: AreRows(entries, rows) <==> rows == [];
    assert a in multiset(entries) && a !in multiset(Shown([]));
  }

  lemma SameMultisetMembers(a: seq<Entry>, b: seq<Entry>, m: multiset<Entry>)
    requires m + multiset(a) == m + multiset(b)
    ensures forall e :: e in b ==> e in a
  {
    forall e | e in b ensures e in a {
      assert (m + multiset(a))[e] == m[e] + multiset(a)[e];
      assert (m + multiset(b))[e] == m[e] + multiset(b)[e];
    }
  }

  lemma RepliesNoDup(entries: seq<Entry>)
    requires UniqueCommentIds(entries)
    ensures NoDup(RepliesIn(entries))
  {
    FilterNoDup(e => Nested(entries, e), entries);
  }

  lemma ListedAreReplies(entries: seq<Entry>, rows: seq<Row>)
    requires Bundled(entries, rows)
    ensures forall e :: e in AllReplies(rows) ==> e in entries && Nested(entries, e)
  {
    hide Nested, IsBreadthFirst, IsTopComment;
    forall e | e in AllReplies(rows) ensures e in entries && Nested(entries, e) {
      AllRepliesMember(rows, e);
      var i :| 0 <= i < |rows| && e in rows[i].replies;
      RepliesClosed(entries, rows[i].entry.id, rows[i].replies, e);
    }
  }

  // ---------------------------------------------------------------------------
  // Each reply sits under its ultimate ancestor
  // ---------------------------------------------------------------------------

  ghost predicate RepliesTo(entries: seq<Entry>, id: string, parent: string) {
    exists e :: e in entries && Nested(entries, e) && e.id == id && e.parentId == Some(parent)
  }

  /** A chain of replies, each to the one before it. */
  ghost predicate IsChain(entries: seq<Entry>, path: seq<string>) {
    path != [] && forall i :: 0 < i < |path| ==> RepliesTo(entries, path[i], path[i - 1])
  }

  /** The ids in a row are exactly those that a chain of replies links to the row's top-level comment. */
  lemma RowIsDescendants(entries: seq<Entry>, row: Row, id: string)
    requires UniqueCommentIds(entries) && IsThread(entries, row)
    ensures id in Visited(row.entry.id, row.replies) <==>
            exists path :: path != [] && IsChain(entries, path) && path[0] == row.entry.id && path[|path| - 1] == id
  {
    hide IsChain, IsThread;
    var visited := Visited(row.entry.id, row.replies);
    if id in visited {
      var i :| 0 <= i < |visited| && visited[i] == id;
      var path := ChainTo(entries, row, i);
    }
    if path :| path != [] && IsChain(entries, path) && path[0] == row.entry.id && path[|path| - 1] == id {
      ChainListed(entries, row, path, |path| - 1);
    }
  }

  lemma {:induction false} ChainTo(entries: seq<Entry>, row: Row, i: nat) returns (path: seq<string>)
    requires IsThread(entries, row) && i < |Visited(row.entry.id, row.replies)|
    ensures path != [] && IsChain(entries, path) && path[0] == row.entry.id
    ensures path[|path| - 1] == Visited(row.entry.id, row.replies)[i]
    decreases i
  {
    hide Nested, IsBreadthFirst, InBlock, KidsOfAll, IsTopComment;
    if i == 0 {
      path := [row.entry.id];
    } else {
      var k := ParentBefore(entries, row.entry.id, row.replies, i - 1);
      var e := row.replies[i - 1];
      var above := ChainTo(entries, row, k);
      ReplyFacts(entries, e);
      path := above + [e.id];
      assert RepliesTo(entries, e.id, above[|above| - 1]);
    }
  }

  lemma {:induction false} ChainListed(entries: seq<Entry>, row: Row, path: seq<string>, i: nat)
    requires UniqueCommentIds(entries) && IsThread(entries, row)
    requires IsChain(entries, path) && path[0] == row.entry.id && i < |path|
    ensures path[i] in Visited(row.entry.id, row.replies)
    decreases i
  {
    hide Nested, IsBreadthFirst, UniqueCommentIds, IsTopComment;
    var visited := Visited(row.entry.id, row.replies);
    if i == 0 {
      assert visited[0] == path[0];
    } else {
      ChainListed(entries, row, path, i - 1);
      assert RepliesTo(entries, path[i], path[i - 1]);
      var e :| e in entries && Nested(entries, e) && e.id == path[i] && e.parentId == Some(path[i - 1]);
      RepliesClosed(entries, row.entry.id, row.replies, e);
      var j :| 0 <= j < |row.replies| && row.replies[j] == e;
      assert visited[j + 1] == e.id;
    }
  }
}
