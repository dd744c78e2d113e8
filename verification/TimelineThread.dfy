/**
 Bundling a timeline into rows: every top-level entry with the breadth-first list of the replies
 below it.
 */
module TimelineThread {
  import opened Common
  import opened Timeline

  datatype Row = Row(entry: Entry, replies: seq<Entry>)

  /** The top-level entries of `part`, a part of the batch `entries`. */
  function TopLevelOf(entries: seq<Entry>, part: seq<Entry>): (r: seq<Entry>)
    ensures forall e :: e in r <==> e in part && !Nested(entries, e)
  {
    Filter(e => !Nested(entries, e), part)
  }

  function TopLevel(entries: seq<Entry>): seq<Entry> {
    TopLevelOf(entries, entries)
  }

  /** An entry heads a row of its own unless it is a comment whose named parent is one of the comments. */
  lemma TopLevelExactly(entries: seq<Entry>, e: Entry)
    ensures e in TopLevel(entries) <==>
            e in entries &&
            (e.kind == Activity || e.parentId in {None, Some("")} ||
             forall c :: c in entries && c.kind == Comment ==> e.parentId != Some(c.id))
  {
    if e.parentId.Some? && exists c :: c in entries && c.kind == Comment && e.parentId == Some(c.id) {
      var c :| c in entries && c.kind == Comment && e.parentId == Some(c.id);
      assert c.id in CommentIds(entries);
    }
  }

  /** The direct replies to `pid` in `part`, in timeline order. */
  function KidsOf(entries: seq<Entry>, part: seq<Entry>, pid: string): (r: seq<Entry>)
    ensures forall e :: e in r <==> e in part && Nested(entries, e) && e.parentId.value == pid
  {
    Filter(e => Nested(entries, e) && e.parentId.value == pid, part)
  }

  function Kids(entries: seq<Entry>, pid: string): seq<Entry> {
    KidsOf(entries, entries, pid)
  }

  function KidsOfAll(entries: seq<Entry>, pids: seq<string>): seq<Entry> {
    if pids == [] then []
    else KidsOfAll(entries, pids[..|pids| - 1]) + Kids(entries, pids[|pids| - 1])
  }

  /**
   `out` is the breadth-first list below `root`: it is the replies to `root` followed by the replies to
   each listed entry in turn, and no entry is listed before the one it hangs from.
   */
  ghost predicate IsBreadthFirst(entries: seq<Entry>, root: string, out: seq<Entry>) {
    var visited := [root] + Ids(out);
    && out == KidsOfAll(entries, visited)
    && forall k :: 0 <= k < |visited| ==> k <= |KidsOfAll(entries, visited[..k])|
  }

  // ---------------------------------------------------------------------------
  // When the queue runs empty
  // ---------------------------------------------------------------------------

  /** One turn of the queue loop. */
  function Turn(entries: seq<Entry>, queue: seq<string>): seq<string> {
    if queue == [] then [] else queue[1..] + Ids(Kids(entries, queue[0]))
  }

  function Turns(entries: seq<Entry>, queue: seq<string>, n: nat): seq<string>
    decreases n
  {
    if n == 0 then queue else Turns(entries, Turn(entries, queue), n - 1)
  }

  ghost predicate Halts(entries: seq<Entry>, queue: seq<string>) {
    exists n: nat :: Turns(entries, queue, n) == []
  }

  /** Every id of `ids` has a direct reply in `ids`: below them the thread never ends. */
  ghost predicate Perpetual(entries: seq<Entry>, ids: set<string>) {
    forall x {:trigger HasKidIn(entries, x, ids)} :: x in ids ==> HasKidIn(entries, x, ids)
  }

  ghost predicate HasKidIn(entries: seq<Entry>, x: string, ids: set<string>) {
    exists e :: e in Kids(entries, x) && e.id in ids
  }

  /** The search below `root` ends exactly when `root` lies in no perpetual set. */
  lemma HaltsExactly(entries: seq<Entry>, root: string)
    ensures Halts(entries, [root]) <==> !exists ids: set<string> :: root in ids && Perpetual(entries, ids)
  {
    hide Perpetual, Halts;
    if !Halts(entries, [root]) {
      NotShallowPerpetual(entries, root);
    } else {
      forall ids: set<string> | root in ids ensures !Perpetual(entries, ids) {
        PerpetualNeverHalts(entries, ids, root);
      }
    }
  }

  lemma PerpetualNeverHalts(entries: seq<Entry>, ids: set<string>, root: string)
    requires root in ids && Halts(entries, [root])
    ensures !Perpetual(entries, ids)
  {
    hide Turns, Perpetual;
    var n: nat :| Turns(entries, [root], n) == [];
    if Perpetual(entries, ids) {
      PerpetualNeverEmpties(entries, ids, [root], 0, n);
    }
  }

  lemma {:induction false} PerpetualNeverEmpties(entries: seq<Entry>, ids: set<string>, queue: seq<string>, at: nat, n: nat)
    requires Perpetual(entries, ids) && at < |queue| && queue[at] in ids
    ensures Turns(entries, queue, n) != []
    decreases n
  {
    hide KidsOf, HasKidIn, Perpetual, Turns;
    TurnsUnfold(entries, queue, n);
    if n > 0 {
      var kids := Ids(Kids(entries, queue[0]));
      var next := queue[1..] + kids;
      if at == 0 {
        var i := KidPosition(entries, queue[0], ids);
        assert next[|queue| - 1 + i] == kids[i];
        PerpetualNeverEmpties(entries, ids, next, |queue| - 1 + i, n - 1);
      } else {
        assert next[at - 1] == queue[at];
        PerpetualNeverEmpties(entries, ids, next, at - 1, n - 1);
      }
    }
  }

  lemma TurnsUnfold(entries: seq<Entry>, queue: seq<string>, n: nat)
    requires queue != []
    ensures n == 0 ==> Turns(entries, queue, n) == queue
    ensures n > 0 ==> Turns(entries, queue, n) == Turns(entries, queue[1..] + Ids(Kids(entries, queue[0])), n - 1)
  {
    hide KidsOf;
  }

  lemma KidPosition(entries: seq<Entry>, x: string, ids: set<string>) returns (i: nat)
    requires Perpetual(entries, ids) && x in ids
    ensures i < |Kids(entries, x)| && Ids(Kids(entries, x))[i] in ids
  {
    hide KidsOf;
    assert HasKidIn(entries, x, ids);
    var e :| e in Kids(entries, x) && e.id in ids;
    i :| 0 <= i < |Kids(entries, x)| && Kids(entries, x)[i] == e;
  }

  /** The thread below `id` is less than `depth` replies deep. */
  ghost predicate Shallow(entries: seq<Entry>, id: string, depth: nat)
    decreases depth
  {
    depth > 0 && forall e :: e in Kids(entries, id) ==> Shallow(entries, e.id, depth - 1)
  }

  ghost predicate AllShallow(entries: seq<Entry>, ids: seq<string>, depth: nat) {
    forall x :: x in ids ==> Shallow(entries, x, depth)
  }

  lemma {:induction false} ShallowMonotone(entries: seq<Entry>, id: string, d: nat, d': nat)
    requires Shallow(entries, id, d) && d <= d'
    ensures Shallow(entries, id, d')
    decreases d
  {
    forall e | e in Kids(entries, id) ensures Shallow(entries, e.id, d' - 1) {
      ShallowMonotone(entries, e.id, d - 1, d' - 1);
    }
  }

  /** The number of turns a queue of shallow ids takes. */
  ghost function Cost(entries: seq<Entry>, ids: seq<string>, depth: nat): nat
    requires AllShallow(entries, ids, depth)
    decreases depth, |ids|
  {
    if ids == [] then 0
    else
      assert ids[0] in ids;
      assert AllShallow(entries, Ids(Kids(entries, ids[0])), depth - 1);
      1 + Cost(entries, Ids(Kids(entries, ids[0])), depth - 1) + Cost(entries, ids[1..], depth)
  }

  lemma {:induction false} CostConcat(entries: seq<Entry>, a: seq<string>, b: seq<string>, depth: nat)
    requires AllShallow(entries, a, depth) && AllShallow(entries, b, depth)
    ensures AllShallow(entries, a + b, depth)
    ensures Cost(entries, a + b, depth) == Cost(entries, a, depth) + Cost(entries, b, depth)
    decreases |a|
  {
    if a == [] {
      assert a + b == b;
    } else {
      assert (a + b)[1..] == a[1..] + b;
      CostConcat(entries, a[1..], b, depth);
    }
  }

  lemma {:induction false} CostMonotone(entries: seq<Entry>, ids: seq<string>, d: nat, d': nat)
    requires AllShallow(entries, ids, d) && d <= d'
    ensures AllShallow(entries, ids, d') && Cost(entries, ids, d) == Cost(entries, ids, d')
    decreases d, |ids|
  {
    hide KidsOf;
    forall x | x in ids ensures Shallow(entries, x, d') {
      ShallowMonotone(entries, x, d, d');
    }
    if ids != [] {
      assert ids[0] in ids;
      assert AllShallow(entries, Ids(Kids(entries, ids[0])), d - 1);
      CostMonotone(entries, Ids(Kids(entries, ids[0])), d - 1, d' - 1);
      CostMonotone(entries, ids[1..], d, d');
    }
  }

  lemma {:induction false} ShallowHalts(entries: seq<Entry>, queue: seq<string>, depth: nat)
    requires AllShallow(entries, queue, depth)
    ensures Turns(entries, queue, Cost(entries, queue, depth)) == []
    decreases Cost(entries, queue, depth)
  {
    hide KidsOf, Cost, AllShallow, Turn;
    if queue == [] {
      CostEmpty(entries, depth);
    } else {
      CostTurn(entries, queue, depth);
      ShallowHalts(entries, Turn(entries, queue), depth);
    }
  }

  lemma CostEmpty(entries: seq<Entry>, depth: nat)
    ensures AllShallow(entries, [], depth) && Cost(entries, [], depth) == 0
  {
  }

  /** Every turn of the queue lowers its cost by one. */
  lemma CostTurn(entries: seq<Entry>, queue: seq<string>, depth: nat)
    requires AllShallow(entries, queue, depth) && queue != []
    ensures AllShallow(entries, Turn(entries, queue), depth)
    ensures Cost(entries, queue, depth) == Cost(entries, Turn(entries, queue), depth) + 1
  {
    hide KidsOf;
    assert queue[0] in queue;
    var kids := Ids(Kids(entries, queue[0]));
    assert AllShallow(entries, kids, depth - 1);
    CostMonotone(entries, kids, depth - 1, depth);
    CostConcat(entries, queue[1..], kids, depth);
  }

  ghost predicate SomeDepth(entries: seq<Entry>, id: string) {
    exists d: nat :: Shallow(entries, id, d)
  }

  /** A common depth for finitely many threads. */
  lemma {:induction false} CommonDepth(entries: seq<Entry>, ids: seq<string>) returns (depth: nat)
    requires forall x :: x in ids ==> SomeDepth(entries, x)
    ensures AllShallow(entries, ids, depth)
  {
    if ids == [] {
      depth := 0;
    } else {
      var d := CommonDepth(entries, ids[1..]);
      assert ids[0] in ids;
      var d0: nat :| Shallow(entries, ids[0], d0);
      depth := d + d0;
      ShallowMonotone(entries, ids[0], d0, depth);
      forall x | x in ids[1..] ensures Shallow(entries, x, depth) {
        ShallowMonotone(entries, x, d, depth);
      }
    }
  }

  lemma ShallowParent(entries: seq<Entry>, id: string, depth: nat)
    requires AllShallow(entries, Ids(Kids(entries, id)), depth)
    ensures SomeDepth(entries, id)
  {
    hide KidsOf;
    var kids := Kids(entries, id);
    forall e | e in kids ensures Shallow(entries, e.id, depth) {
      var i :| 0 <= i < |kids| && kids[i] == e;
      assert Ids(kids)[i] == e.id;
    }
    assert Shallow(entries, id, depth + 1);
  }

  lemma NotShallowPerpetual(entries: seq<Entry>, root: string)
    requires !Halts(entries, [root])
    ensures exists ids: set<string> :: root in ids && Perpetual(entries, ids)
  {
    hide KidsOf, Turns, Shallow;
    var ids := set x | x in {root} + CommentIds(entries) && !SomeDepth(entries, x);
    if SomeDepth(entries, root) {
      var d: nat :| Shallow(entries, root, d);
      ShallowHalts(entries, [root], d);
      assert false;
    }
    forall x | x in ids ensures HasKidIn(entries, x, ids) {
      var kids := Kids(entries, x);
      if forall k :: k in Ids(kids) ==> SomeDepth(entries, k) {
        var d := CommonDepth(entries, Ids(kids));
        ShallowParent(entries, x, d);
        assert false;
      }
      var i :| 0 <= i < |kids| && !SomeDepth(entries, Ids(kids)[i]);
      assert kids[i] in kids && kids[i].id in ids;
    }
    assert root in ids;
  }

  // ---------------------------------------------------------------------------
  // The algorithms
  // ---------------------------------------------------------------------------

  /** The replies below `parentId`; it returns on exactly the inputs where the search ends. */
  method CollectDescendants(entries: seq<Entry>, childrenByParent: map<string, seq<Entry>>, parentId: string)
      returns (out: seq<Entry>)
    requires forall p :: p in childrenByParent ==> childrenByParent[p] == Kids(entries, p)
    requires forall p :: p !in childrenByParent ==> Kids(entries, p) == []
    requires Halts(entries, [parentId])
    ensures IsBreadthFirst(entries, parentId, out)
  {
    hide KidsOf, KidsOfAll, Searching, Turns, Turn;
    out := [];
    var queue := [parentId];
    ghost var left: nat :| Turns(entries, queue, left) == [];
    ghost var done := 0;
    SearchStart(entries, parentId);
    while |queue| > 0
      invariant Searching(entries, parentId, out, queue, done)
      invariant Turns(entries, queue, left) == []
      decreases left
    {
      SearchTurn(entries, parentId, out, queue, done, left);
      var pid := queue[0];
      var kids := if pid in childrenByParent then childrenByParent[pid] else [];
      assert kids == Kids(entries, pid);
      out := out + kids;
      queue := queue[1..] + Ids(kids);
      done := done + 1;
      left := left - 1;
    }
    SearchEnd(entries, parentId, out, done);
  }

  /** The loop state after `done` turns: what is queued is what has been listed but not expanded. */
  ghost predicate Searching(entries: seq<Entry>, root: string, out: seq<Entry>, queue: seq<string>, done: nat) {
    var visited := [root] + Ids(out);
    && done <= |visited| && queue == visited[done..]
    && out == KidsOfAll(entries, visited[..done])
    && forall k :: 0 <= k <= done && k < |visited| ==> k <= |KidsOfAll(entries, visited[..k])|
  }

  lemma SearchStart(entries: seq<Entry>, root: string)
    ensures Searching(entries, root, [], [root], 0)
  {
    assert [root] + Ids([]) == [root];
  }

  lemma SearchTurn(entries: seq<Entry>, root: string, out: seq<Entry>, queue: seq<string>, done: nat, left: nat)
    requires Searching(entries, root, out, queue, done) && queue != [] && Turns(entries, queue, left) == []
    ensures var kids := Kids(entries, queue[0]);
            && Searching(entries, root, out + kids, queue[1..] + Ids(kids), done + 1)
            && left > 0 && Turns(entries, queue[1..] + Ids(kids), left - 1) == []
  {
    hide KidsOf, Searching, Turns;
    SearchExpand(entries, root, out, queue, done);
    TurnsUnfold(entries, queue, left);
  }

  lemma SearchExpand(entries: seq<Entry>, root: string, out: seq<Entry>, queue: seq<string>, done: nat)
    requires Searching(entries, root, out, queue, done) && queue != []
    ensures var kids := Kids(entries, queue[0]);
            Searching(entries, root, out + kids, queue[1..] + Ids(kids), done + 1)
  {
    hide KidsOf, KidsOfAll, Kids, Map;
    var kids := Kids(entries, queue[0]);
    var before, visited := [root] + Ids(out), [root] + Ids(out + kids);
    assert visited == before + Ids(kids);
    assert forall k :: 0 <= k <= |before| ==> visited[..k] == before[..k];
    assert visited[done + 1..] == queue[1..] + Ids(kids);
    KidsOfAllPush(entries, before[..done], queue[0]);
    assert before[..done + 1] == before[..done] + [queue[0]];
  }

  lemma KidsOfAllPush(entries: seq<Entry>, pids: seq<string>, pid: string)
    ensures KidsOfAll(entries, pids + [pid]) == KidsOfAll(entries, pids) + Kids(entries, pid)
  {
    hide KidsOf;
    assert (pids + [pid])[..|pids|] == pids;
  }

  lemma SearchEnd(entries: seq<Entry>, root: string, out: seq<Entry>, done: nat)
    requires Searching(entries, root, out, [], done)
    ensures IsBreadthFirst(entries, root, out)
  {
    var visited := [root] + Ids(out);
    assert visited[done..] == [] && visited[..done] == visited;
  }

  /** The rows: one per top-level entry, in order, each with its breadth-first replies. */
  ghost predicate AreRows(entries: seq<Entry>, rows: seq<Row>) {
    && |rows| == |TopLevel(entries)|
    && forall i :: 0 <= i < |rows| ==>
         && rows[i].entry == TopLevel(entries)[i]
         && (rows[i].entry.kind == Comment ==> IsBreadthFirst(entries, rows[i].entry.id, rows[i].replies))
         && (rows[i].entry.kind == Activity ==> rows[i].replies == [])
  }

  /** Builds the rows; it returns on exactly the inputs where every search ends. */
  method BuildTimelineRows(entries: seq<Entry>) returns (rows: seq<Row>)
    requires forall e :: e in entries && !Nested(entries, e) && e.kind == Comment ==> Halts(entries, [e.id])
    ensures AreRows(entries, rows)
  {
    hide KidsOf, TopLevelOf, Turns, IsBreadthFirst, Halts;
    var commentIds: set<string> := {};
    for i := 0 to |entries|
      invariant commentIds == CommentIds(entries[..i])
    {
      if entries[i].kind == Comment {
        commentIds := commentIds + {entries[i].id};
      }
      assert entries[..i + 1] == entries[..i] + [entries[i]];
    }
    assert entries[..|entries|] == entries;

    PartStart(entries);
    var topLevel: seq<Entry> := [];
    var childrenByParent: map<string, seq<Entry>> := map[];
    for i := 0 to |entries|
      invariant topLevel == TopLevelOf(entries, entries[..i])
      invariant forall p :: p in childrenByParent ==> childrenByParent[p] == KidsOf(entries, entries[..i], p)
      invariant forall p :: p !in childrenByParent ==> KidsOf(entries, entries[..i], p) == []
    {
      var e := entries[i];
      PartPush(entries, i);
      if e.kind == Comment && e.HasParent() && e.parentId.value in commentIds {
        var list := if e.parentId.value in childrenByParent then childrenByParent[e.parentId.value] else [];
        childrenByParent := childrenByParent[e.parentId.value := list + [e]];
      } else {
        topLevel := topLevel + [e];
      }
    }
    assert entries[..|entries|] == entries;
    rows := [];
    for i := 0 to |topLevel|
      invariant |rows| == i
      invariant forall j :: 0 <= j < i ==>
        && rows[j].entry == topLevel[j]
        && (rows[j].entry.kind == Comment ==> IsBreadthFirst(entries, rows[j].entry.id, rows[j].replies))
        && (rows[j].entry.kind == Activity ==> rows[j].replies == [])
    {
      var replies: seq<Entry> := [];
      if topLevel[i].kind == Comment {
        assert topLevel[i] in TopLevel(entries);
        replies := CollectDescendants(entries, childrenByParent, topLevel[i].id);
      }
      rows := rows + [Row(topLevel[i], replies)];
    }
  }

  lemma PartStart(entries: seq<Entry>)
    ensures TopLevelOf(entries, entries[..0]) == [] && forall p :: KidsOf(entries, entries[..0], p) == []
  {
  }

  lemma PartPush(entries: seq<Entry>, i: nat)
    requires i < |entries|
    ensures var e := entries[i];
            && TopLevelOf(entries, entries[..i + 1]) ==
               TopLevelOf(entries, entries[..i]) + (if Nested(entries, e) then [] else [e])
            && (forall p :: KidsOf(entries, entries[..i + 1], p) ==
                  KidsOf(entries, entries[..i], p) + (if Nested(entries, e) && e.parentId.value == p then [e] else []))
  {
    var e := entries[i];
    assert entries[..i + 1] == entries[..i] + [e];
    FilterConcat(e => !Nested(entries, e), entries[..i], [e]);
    forall p ensures KidsOf(entries, entries[..i + 1], p) ==
               KidsOf(entries, entries[..i], p) + (if Nested(entries, e) && e.parentId.value == p then [e] else [])
    {
      FilterConcat(e => Nested(entries, e) && e.parentId.value == p, entries[..i], [e]);
    }
  }
}
