/**
 The delete cascade and the thread bundler agree: the cascade removes a comment with exactly the
 replies bundled below it, and every other row stays as it was.
 */
module CascadeThreads {
  import opened Common
  import opened Timeline
  import opened TimelineThread
  import opened ThreadRows
  import opened ThreadSearch
  import opened TimelineCache

  /** Only comments name a parent. */
  ghost predicate OnlyCommentsReply(entries: seq<Entry>) {
    forall e :: e in entries && e.HasParent() ==> e.kind == Comment
  }

  /** Where the search below a loaded comment returns, the cascade is that comment and what the search lists. */
  lemma CascadeIsThread(entries: seq<Entry>, commentId: string, out: seq<Entry>, removed: set<string>)
    requires OnlyCommentsReply(entries) && commentId in CommentIds(entries)
    requires IsBreadthFirst(entries, commentId, out) && IsCascade(entries, commentId, removed)
    ensures removed == set x | x in Visited(commentId, out)
  {
    hide KidsOfAll, IsBreadthFirst, IsCascade;
    var thread := set x | x in Visited(commentId, out);
    ThreadIsClosed(entries, commentId, out);
    LeastWithin(entries, commentId, removed, thread);
    forall i | 0 <= i < |Visited(commentId, out)| ensures Visited(commentId, out)[i] in removed {
      ThreadRemoved(entries, commentId, out, removed, i);
    }
  }

  lemma LeastWithin(entries: seq<Entry>, commentId: string, removed: set<string>, other: set<string>)
    requires IsCascade(entries, commentId, removed) && ClosedFrom(entries, commentId, other)
    ensures removed <= other
  {
  }

  lemma ThreadIsClosed(entries: seq<Entry>, commentId: string, out: seq<Entry>)
    requires OnlyCommentsReply(entries) && commentId in CommentIds(entries) && IsBreadthFirst(entries, commentId, out)
    ensures ClosedFrom(entries, commentId, set x | x in Visited(commentId, out))
  {
    hide KidsOfAll, IsBreadthFirst;
    var visited := Visited(commentId, out);
    assert visited[0] == commentId;
    forall e | e in entries && e.HasParent() && e.parentId.value in visited ensures e.id in visited {
      VisitedIsLoaded(entries, commentId, out, e.parentId.value);
      RepliesClosed(entries, commentId, out, e);
      var i :| 0 <= i < |out| && out[i] == e;
      assert visited[i + 1] == e.id;
    }
  }

  lemma VisitedIsLoaded(entries: seq<Entry>, commentId: string, out: seq<Entry>, x: string)
    requires commentId in CommentIds(entries) && IsBreadthFirst(entries, commentId, out) && x in Visited(commentId, out)
    ensures x in CommentIds(entries)
  {
    hide KidsOfAll, IsBreadthFirst;
    if x != commentId {
      var i :| 0 <= i < |Visited(commentId, out)| && Visited(commentId, out)[i] == x;
      RepliesClosed(entries, commentId, out, out[i - 1]);
    }
  }

  lemma {:induction false} ThreadRemoved(
      entries: seq<Entry>, commentId: string, out: seq<Entry>, removed: set<string>, i: nat)
    requires IsBreadthFirst(entries, commentId, out) && IsCascade(entries, commentId, removed)
    requires i < |Visited(commentId, out)|
    ensures Visited(commentId, out)[i] in removed
    decreases i
  {
    hide KidsOfAll, IsBreadthFirst, InBlock;
    if i > 0 {
      var k := ParentBefore(entries, commentId, out, i - 1);
      ThreadRemoved(entries, commentId, out, removed, k);
      ReplyRemoved(entries, commentId, removed, out[i - 1]);
    }
  }

  lemma ReplyRemoved(entries: seq<Entry>, commentId: string, removed: set<string>, e: Entry)
    requires IsCascade(entries, commentId, removed)
    requires e in entries && Nested(entries, e) && e.parentId.value in removed
    ensures e.id in removed
  {
  }

  // ---------------------------------------------------------------------------
  // Every other row stays
  // ---------------------------------------------------------------------------

  function Kept(removed: set<string>, ids: seq<string>): (r: seq<string>)
    ensures |r| <= |ids|
  {
    Filter(x => x !in removed, ids)
  }

  lemma KeptPush(removed: set<string>, ids: seq<string>, x: string)
    ensures Kept(removed, ids + [x]) == Kept(removed, ids) + (if x in removed then [] else [x])
  {
    FilterConcat(y => y !in removed, ids, [x]);
    assert Kept(removed, [x]) == if x in removed then [] else [x];
  }

  lemma SurvivorsConcat(a: seq<Entry>, b: seq<Entry>, removed: set<string>)
    ensures Survivors(a + b, removed) == Survivors(a, removed) + Survivors(b, removed)
  {
    FilterConcat((e: Entry) => e.id !in removed, a, b);
  }

  lemma SurvivorNested(entries: seq<Entry>, removed: set<string>, e: Entry)
    requires ClosedBelow(entries, removed) && e in entries && e.id !in removed
    ensures Nested(Survivors(entries, removed), e) <==> Nested(entries, e)
  {
    var left := Survivors(entries, removed);
    if Nested(entries, e) {
      var c :| c in entries && c.kind == Comment && c.id == e.parentId.value;
      assert c in left;
    }
  }

  /** No reply is promoted to the top level, and no top-level entry moves. */
  lemma TopLevelSurvives(entries: seq<Entry>, removed: set<string>)
    requires ClosedBelow(entries, removed)
    ensures TopLevel(Survivors(entries, removed)) == Survivors(TopLevel(entries), removed)
  {
    var left := Survivors(entries, removed);
    var both := (e: Entry) => e.id !in removed && !Nested(entries, e);
    forall e | e in entries && e.id !in removed ensures Nested(left, e) <==> Nested(entries, e) {
      SurvivorNested(entries, removed, e);
    }
    hide Nested;
    FilterCompose((e: Entry) => e.id !in removed, e => !Nested(left, e), both, entries);
    FilterCompose(e => !Nested(entries, e), (e: Entry) => e.id !in removed, both, entries);
  }

  lemma KidsSurvive(entries: seq<Entry>, removed: set<string>, pid: string)
    requires ClosedBelow(entries, removed)
    ensures Survivors(Kids(entries, pid), removed) == if pid in removed then [] else Kids(Survivors(entries, removed), pid)
  {
    var left := Survivors(entries, removed);
    var both := (e: Entry) => e.id !in removed && Nested(entries, e) && e.parentId.value == pid;
    forall e | e in entries && e.id !in removed ensures Nested(left, e) <==> Nested(entries, e) {
      SurvivorNested(entries, removed, e);
    }
    if pid in removed {
      FilterNone((e: Entry) => e.id !in removed, Kids(entries, pid));
    } else {
      FilterCompose((e: Entry) => e.id !in removed, e => Nested(left, e) && e.parentId.value == pid, both, entries);
      FilterCompose(e => Nested(entries, e) && e.parentId.value == pid, (e: Entry) => e.id !in removed, both, entries);
    }
  }

  lemma {:induction false} KidsOfAllSurvive(entries: seq<Entry>, removed: set<string>, pids: seq<string>)
    requires ClosedBelow(entries, removed)
    ensures KidsOfAll(Survivors(entries, removed), Kept(removed, pids)) == Survivors(KidsOfAll(entries, pids), removed)
  {
    hide KidsOf, Kids, KidsOfAll, Kept, Survivors, ClosedBelow;
    if pids == [] {
      NoKidsSurvive(entries, removed);
    } else {
      var init, last := pids[..|pids| - 1], pids[|pids| - 1];
      assert pids == init + [last];
      KidsOfAllSurvive(entries, removed, init);
      KeptPush(removed, init, last);
      KidsOfAllPush(entries, init, last);
      KidsOfAllPush(Survivors(entries, removed), Kept(removed, init), last);
      SurvivorsConcat(KidsOfAll(entries, init), Kids(entries, last), removed);
      KidsSurvive(entries, removed, last);
      var kept, kids := Kept(removed, init), Survivors(KidsOfAll(entries, init), removed);
      assert kept + [] == kept && kids + [] == kids;
    }
  }

  lemma NoKidsSurvive(entries: seq<Entry>, removed: set<string>)
    ensures KidsOfAll(Survivors(entries, removed), Kept(removed, [])) == Survivors(KidsOfAll(entries, []), removed)
  {
  }

  lemma {:induction false} IdsSurvive(out: seq<Entry>, removed: set<string>)
    ensures Ids(Survivors(out, removed)) == Kept(removed, Ids(out))
  {
    if out != [] {
      hide Ids, Survivors, Kept;
      var x, rest := out[0], out[1..];
      assert out == [x] + rest;
      IdsSurvive(rest, removed);
      IdsCons(x, rest);
      IdsCons(x, Survivors(rest, removed));
      SurvivorsCons(x, rest, removed);
      KeptCons(removed, x.id, Ids(rest));
    } else {
      NothingSurvives(removed);
    }
  }

  lemma NothingSurvives(removed: set<string>)
    ensures Ids([]) == [] && Survivors([], removed) == [] && Kept(removed, []) == []
  {
  }

  lemma IdsCons(x: Entry, rest: seq<Entry>)
    ensures Ids([x] + rest) == [x.id] + Ids(rest)
  {
  }

  lemma SurvivorsCons(x: Entry, rest: seq<Entry>, removed: set<string>)
    ensures Survivors([x] + rest, removed) == if x.id in removed then Survivors(rest, removed) else [x] + Survivors(rest, removed)
  {
    FilterCons((e: Entry) => e.id !in removed, x, rest);
    hide Filter;
  }

  lemma KeptCons(removed: set<string>, id: string, rest: seq<string>)
    ensures Kept(removed, [id] + rest) == if id in removed then Kept(removed, rest) else [id] + Kept(removed, rest)
  {
    FilterCons(x => x !in removed, id, rest);
    hide Filter;
  }

  /** Where the `k`-th kept element comes from. */
  lemma {:induction false} KeptPosition(removed: set<string>, ids: seq<string>, k: nat) returns (m: nat)
    requires k < |Kept(removed, ids)|
    ensures m < |ids| && ids[m] !in removed
    ensures Kept(removed, ids[..m]) == Kept(removed, ids)[..k]
    ensures |Kept(removed, ids[..m + 1])| == k + 1
    decreases |ids|
  {
    hide Kept;
    if ids == [] {
      KeptNothing(removed);
    }
    var init, last := ids[..|ids| - 1], ids[|ids| - 1];
    assert ids == init + [last];
    KeptPush(removed, init, last);
    if k < |Kept(removed, init)| {
      m := KeptPosition(removed, init, k);
      assert init[..m] == ids[..m] && init[..m + 1] == ids[..m + 1];
    } else {
      m := |ids| - 1;
      assert ids[..m + 1] == ids;
    }
  }

  lemma KeptNothing(removed: set<string>)
    ensures Kept(removed, []) == []
  {
  }

  /** Below a comment that stays, the search finds the same replies in the same order, less the removed ones. */
  lemma ThreadSurvives(entries: seq<Entry>, removed: set<string>, root: string, out: seq<Entry>)
    requires ClosedBelow(entries, removed) && root !in removed && IsBreadthFirst(entries, root, out)
    ensures forall list :: IsBreadthFirst(Survivors(entries, removed), root, list) <==> list == Survivors(out, removed)
    ensures Halts(Survivors(entries, removed), [root])
  {
    hide KidsOf, KidsOfAll, ClosedBelow, Halts;
    SurvivorsAreListed(entries, removed, root, out);
    hide IsBreadthFirst;
    forall list | IsBreadthFirst(Survivors(entries, removed), root, list) ensures list == Survivors(out, removed) {
      BreadthFirstUnique(Survivors(entries, removed), root, list, Survivors(out, removed));
    }
    ListedHalts(Survivors(entries, removed), root, Survivors(out, removed));
  }

  lemma SurvivorsAreListed(entries: seq<Entry>, removed: set<string>, root: string, out: seq<Entry>)
    requires ClosedBelow(entries, removed) && root !in removed && IsBreadthFirst(entries, root, out)
    ensures IsBreadthFirst(Survivors(entries, removed), root, Survivors(out, removed))
  {
    hide KidsOf, KidsOfAll, ClosedBelow;
    var left, visited := Survivors(entries, removed), Visited(root, out);
    var visited' := Visited(root, Survivors(out, removed));
    VisitedSurvives(root, out, removed);
    KidsOfAllSurvive(entries, removed, visited);
    forall k | 0 <= k < |visited'| ensures k <= |KidsOfAll(left, visited'[..k])| {
      TurnSurvives(entries, removed, root, out, k);
    }
  }

  lemma VisitedSurvives(root: string, out: seq<Entry>, removed: set<string>)
    requires root !in removed
    ensures Visited(root, Survivors(out, removed)) == Kept(removed, Visited(root, out))
  {
    IdsSurvive(out, removed);
    FilterConcat(x => x !in removed, [root], Ids(out));
    assert Kept(removed, [root]) == [root];
  }

  lemma TurnSurvives(entries: seq<Entry>, removed: set<string>, root: string, out: seq<Entry>, k: nat)
    requires ClosedBelow(entries, removed) && root !in removed && IsBreadthFirst(entries, root, out)
    requires k < |Visited(root, Survivors(out, removed))|
    ensures k <= |KidsOfAll(Survivors(entries, removed), Visited(root, Survivors(out, removed))[..k])|
  {
    hide KidsOf, KidsOfAll, ClosedBelow;
    var visited := Visited(root, out);
    VisitedSurvives(root, out, removed);
    var m := KeptPosition(removed, visited, k);
    KidsOfAllSurvive(entries, removed, visited[..m]);
    KidsOfAllPrefix(entries, visited, m);
    var listed := KidsOfAll(entries, visited[..m]);
    assert listed <= out && m <= |listed|;
    KeptCount(removed, root, out, listed, m);
  }

  lemma KeptCount(removed: set<string>, root: string, out: seq<Entry>, listed: seq<Entry>, m: nat)
    requires root !in removed && listed <= out && m <= |listed|
    ensures |Kept(removed, Visited(root, out)[..m + 1])| <= |Survivors(listed, removed)| + 1
  {
    var visited := Visited(root, out);
    var head := Ids(listed)[..m];
    assert visited[..m + 1] == [root] + head;
    FilterConcat(x => x !in removed, [root], head);
    assert Ids(listed) == head + Ids(listed)[m..];
    FilterConcat(x => x !in removed, head, Ids(listed)[m..]);
    IdsSurvive(listed, removed);
  }

  /** The rows before the deletion, less what was removed. */
  function RowsLeft(rows: seq<Row>, removed: set<string>): seq<Row> {
    if rows == [] then []
    else (if rows[0].entry.id in removed then [] else [Row(rows[0].entry, Survivors(rows[0].replies, removed))]) +
         RowsLeft(rows[1..], removed)
  }

  /**
   Bundling the timeline after a deletion returns, and returns every other row in place, without exactly
   the deleted replies.
   */
  lemma DeletionKeepsOtherRows(entries: seq<Entry>, rows: seq<Row>, commentId: string, removed: set<string>)
    requires AreRows(entries, rows) && IsCascade(entries, commentId, removed)
    ensures var left := Survivors(entries, removed);
            && (forall e :: e in left && !Nested(left, e) && e.kind == Comment ==> Halts(left, [e.id]))
            && (forall next :: AreRows(left, next) <==> next == RowsLeft(rows, removed))
  {
    hide IsCascade, KidsOf, IsBreadthFirst, TopLevelOf, ClosedBelow, Halts, Survivors, Nested;
    var left := Survivors(entries, removed);
    CascadeClosed(entries, commentId, removed);
    TopLevelSurvives(entries, removed);
    RowsLeftMatch(entries, rows, TopLevel(entries), removed);
    assert AreRows(left, RowsLeft(rows, removed));
    hide AreRows;
    forall next | AreRows(left, next) ensures next == RowsLeft(rows, removed) {
      RowsUnique(left, next, RowsLeft(rows, removed));
    }
    forall e | e in left && !Nested(left, e) && e.kind == Comment ensures Halts(left, [e.id]) {
      RowsHalt(left, RowsLeft(rows, removed), e);
    }
  }

  lemma RowsHalt(entries: seq<Entry>, rows: seq<Row>, e: Entry)
    requires AreRows(entries, rows) && e in entries && !Nested(entries, e) && e.kind == Comment
    ensures Halts(entries, [e.id])
  {
    hide IsBreadthFirst, Halts;
    assert e in TopLevel(entries);
    var i :| 0 <= i < |rows| && rows[i].entry == e;
    ListedHalts(entries, e.id, rows[i].replies);
  }

  lemma CascadeClosed(entries: seq<Entry>, commentId: string, removed: set<string>)
    requires IsCascade(entries, commentId, removed)
    ensures ClosedBelow(entries, removed)
  {
  }

  ghost predicate RowOk(entries: seq<Entry>, row: Row) {
    && (row.entry.kind == Comment ==> IsBreadthFirst(entries, row.entry.id, row.replies))
    && (row.entry.kind == Activity ==> row.replies == [])
  }

  ghost predicate RowsFor(entries: seq<Entry>, rows: seq<Row>, heads: seq<Entry>) {
    && |rows| == |heads|
    && forall i :: 0 <= i < |rows| ==> rows[i].entry == heads[i] && RowOk(entries, rows[i])
  }

  lemma RowsForCons(entries: seq<Entry>, row: Row, rows: seq<Row>, head: Entry, heads: seq<Entry>)
    requires row.entry == head && RowOk(entries, row) && RowsFor(entries, rows, heads)
    ensures RowsFor(entries, [row] + rows, [head] + heads)
  {
  }

  lemma RowsForTail(entries: seq<Entry>, rows: seq<Row>, heads: seq<Entry>)
    requires RowsFor(entries, rows, heads) && rows != []
    ensures heads != [] && rows[0].entry == heads[0] && RowOk(entries, rows[0]) && RowsFor(entries, rows[1..], heads[1..])
  {
  }

  lemma {:induction false} RowsLeftMatch(entries: seq<Entry>, rows: seq<Row>, heads: seq<Entry>, removed: set<string>)
    requires ClosedBelow(entries, removed) && RowsFor(entries, rows, heads)
    ensures RowsFor(Survivors(entries, removed), RowsLeft(rows, removed), Survivors(heads, removed))
    decreases |rows|
  {
    hide IsBreadthFirst, ClosedBelow, RowOk, Survivors;
    SurvivorsHead(heads, removed);
    if rows != [] {
      hide RowsFor;
      RowsForTail(entries, rows, heads);
      RowsLeftMatch(entries, rows[1..], heads[1..], removed);
      var left, tail := RowsLeft(rows[1..], removed), Survivors(heads[1..], removed);
      if rows[0].entry.id in removed {
        assert [] + left == left && [] + tail == tail;
      } else {
        RowSurvives(entries, rows[0], removed);
        RowsForCons(Survivors(entries, removed), Row(rows[0].entry, Survivors(rows[0].replies, removed)), left, heads[0], tail);
      }
    }
  }

  lemma SurvivorsHead(entries: seq<Entry>, removed: set<string>)
    ensures entries == [] ==> Survivors(entries, removed) == []
    ensures entries != [] ==>
              Survivors(entries, removed) ==
              (if entries[0].id in removed then [] else [entries[0]]) + Survivors(entries[1..], removed)
  {
  }

  lemma RowSurvives(entries: seq<Entry>, row: Row, removed: set<string>)
    requires ClosedBelow(entries, removed) && RowOk(entries, row) && row.entry.id !in removed
    ensures RowOk(Survivors(entries, removed), Row(row.entry, Survivors(row.replies, removed)))
  {
    hide IsBreadthFirst, ClosedBelow;
    if row.entry.kind == Comment {
      ThreadSurvives(entries, removed, row.entry.id, row.replies);
    }
  }
}
