/** The inbox view: one row per issue, newest first, and the archive patch on the list behind it. */
module Inbox {
  import opened Common
  import opened StableSort

  /** `content` stands for the fields no operation here looks at. */
  datatype Item = Item(id: string, issueId: Option<string>, archived: bool, createdAt: int, content: string)

  /** The group an item belongs to: its issue, or itself when it has none. */
  function Key(item: Item): string {
    if item.issueId.Some? then item.issueId.value else item.id
  }

  predicate Newer(a: Item, b: Item) {
    a.createdAt > b.createdAt
  }

  lemma NewerOrder()
    ensures StrictWeakOrder(Newer)
  {
  }

  // ---------------------------------------------------------------------------
  // The view
  // ---------------------------------------------------------------------------

  function Active(items: seq<Item>): (r: seq<Item>)
    ensures forall x :: x in r <==> x in items && !x.archived
  {
    Filter((i: Item) => !i.archived, items)
  }

  function Group(active: seq<Item>, key: string): (r: seq<Item>)
    ensures forall x :: x in r <==> x in active && Key(x) == key
  {
    Filter(i => Key(i) == key, active)
  }

  /** The keys in order of first appearance. */
  function Keys(active: seq<Item>): (keys: seq<string>)
    ensures forall k :: k in keys <==> exists x :: x in active && Key(x) == k
  {
    if active == [] then []
    else
      var init, last := active[..|active| - 1], active[|active| - 1];
      assert active == init + [last];
      if Key(last) in Keys(init) then Keys(init) else Keys(init) + [Key(last)]
  }

  /** The row of a key: the first of its newest items. */
  function Representative(active: seq<Item>, key: string): (r: Item)
    requires key in Keys(active)
    ensures r in active && Key(r) == key
  {
    var group := Group(active, key);
    assert group != [] by {
      var x :| x in active && Key(x) == key;
      assert x in group;
    }
    SortMembers(Newer, group);
    assert Sort(Newer, group)[0] in group;
    Sort(Newer, group)[0]
  }

  function Rows(active: seq<Item>, keys: seq<string>): (rows: seq<Item>)
    requires forall k :: k in keys ==> k in Keys(active)
    ensures |rows| == |keys| && forall i :: 0 <= i < |rows| ==> rows[i] == Representative(active, keys[i])
  {
    seq(|keys|, i requires 0 <= i < |keys| => Representative(active, keys[i]))
  }

  function View(active: seq<Item>): seq<Item> {
    Sort(Newer, Rows(active, Keys(active)))
  }

  method DeduplicateInboxItems(items: seq<Item>) returns (merged: seq<Item>)
    ensures merged == View(Active(items))
  {
    hide View, Representative, Active, Keys, Group, Key, Newer, Sort;
    var active := Active(items);
    var groups: map<string, seq<Item>> := map[];
    var order: seq<string> := [];
    GroupStart(active);
    for i := 0 to |active|
      invariant order == Keys(active[..i])
      invariant groups.Keys == set k | k in order
      invariant forall k :: k in groups ==> groups[k] == Group(active[..i], k)
    {
      var item := active[i];
      var key := Key(item);
      GroupPush(active, i);
      var group := if key in groups then groups[key] else [];
      if key !in groups {
        order := order + [key];
      }
      groups := groups[key := group + [item]];
    }
    assert active[..|active|] == active;
    merged := [];
    for i := 0 to |order|
      invariant merged == Rows(active, order[..i])
    {
      var sorted := Sort(Newer, groups[order[i]]);
      RowPush(active, order, i);
      if sorted != [] {
        merged := merged + [sorted[0]];
      }
    }
    assert order[..|order|] == order;
    ViewOf(active);
    merged := Sort(Newer, merged);
  }

  lemma ViewOf(active: seq<Item>)
    ensures View(active) == Sort(Newer, Rows(active, Keys(active)))
  {
  }

  lemma GroupStart(active: seq<Item>)
    ensures Keys(active[..0]) == []
  {
  }

  lemma GroupPush(active: seq<Item>, i: nat)
    requires i < |active|
    ensures var part, next, key := active[..i], active[..i + 1], Key(active[i]);
            && Keys(next) == (if key in Keys(part) then Keys(part) else Keys(part) + [key])
            && Group(next, key) == Group(part, key) + [active[i]]
            && (key !in Keys(part) ==> Group(part, key) == [])
            && (forall k :: k != key ==> Group(next, k) == Group(part, k))
  {
    var part, next, key := active[..i], active[..i + 1], Key(active[i]);
    assert next == part + [active[i]] && next[..i] == part;
    forall k ensures Group(next, k) == Group(part, k) + (if k == key then [active[i]] else []) {
      FilterConcat(x => Key(x) == k, part, [active[i]]);
    }
    if key !in Keys(part) {
      FilterNone(x => Key(x) == key, part);
    }
  }

  lemma RowPush(active: seq<Item>, order: seq<string>, i: nat)
    requires order == Keys(active) && i < |order|
    ensures forall k :: k in order[..i] ==> k in Keys(active)
    ensures forall k :: k in order[..i + 1] ==> k in Keys(active)
    ensures var sorted := Sort(Newer, Group(active, order[i]));
            sorted != [] && Rows(active, order[..i + 1]) == Rows(active, order[..i]) + [sorted[0]]
  {
    hide Keys, Representative, Group;
    RepresentativeIsHead(active, order[i]);
    assert order[..i + 1] == order[..i] + [order[i]];
  }

  lemma RepresentativeIsHead(active: seq<Item>, key: string)
    requires key in Keys(active)
    ensures var sorted := Sort(Newer, Group(active, key));
            sorted != [] && Representative(active, key) == sorted[0]
  {
    hide Keys, Newer;
    assert Representative(active, key) in Group(active, key);
  }

  // ---------------------------------------------------------------------------
  // What a row is
  // ---------------------------------------------------------------------------

  lemma {:induction false} SortHead(xs: seq<Item>) returns (at: nat)
    requires xs != []
    ensures at < |xs| && Sort(Newer, xs)[0] == xs[at]
    ensures forall j :: 0 <= j < at ==> xs[j].createdAt < xs[at].createdAt
    ensures forall j :: at <= j < |xs| ==> xs[j].createdAt <= xs[at].createdAt
  {
    hide StrictWeakOrder, Ordered, Insert;
    var init, last := xs[..|xs| - 1], xs[|xs| - 1];
    SortStep(xs);
    if init == [] {
      at := 0;
    } else {
      at := SortHead(init);
      if Newer(last, init[at]) {
        at := |xs| - 1;
      }
    }
  }

  lemma SortStep(xs: seq<Item>)
    requires xs != []
    ensures var init, last := xs[..|xs| - 1], xs[|xs| - 1];
            Sort(Newer, xs)[0] == if init == [] || Newer(last, Sort(Newer, init)[0]) then last else Sort(Newer, init)[0]
  {
    var init := xs[..|xs| - 1];
    if init == [] {
      assert Sort(Newer, init) == [];
    } else {
      NewerOrder();
      SortOrders(Newer, init);
      InsertHead(Sort(Newer, init), xs[|xs| - 1]);
    }
  }

  lemma {:induction false} InsertHead(sorted: seq<Item>, x: Item)
    requires sorted != [] && Ordered(Newer, sorted)
    ensures Insert(Newer, sorted, x)[0] == if Newer(x, sorted[0]) then x else sorted[0]
  {
    var last := sorted[|sorted| - 1];
    if Newer(x, last) && |sorted| > 1 {
      InsertHead(sorted[..|sorted| - 1], x);
    }
  }

  /** A row shows the newest item of its group, and of several equally new ones the first. */
  lemma RowIsFirstNewest(active: seq<Item>, key: string) returns (at: nat)
    requires key in Keys(active)
    ensures var group := Group(active, key);
            && at < |group| && Representative(active, key) == group[at]
            && (forall j :: 0 <= j < at ==> group[j].createdAt < group[at].createdAt)
            && (forall j :: at <= j < |group| ==> group[j].createdAt <= group[at].createdAt)
  {
    assert Representative(active, key) in Group(active, key);
    at := SortHead(Group(active, key));
  }

  lemma {:induction false} KeysDistinct(active: seq<Item>)
    ensures NoDup(Keys(active))
  {
    if active != [] {
      KeysDistinct(active[..|active| - 1]);
    }
  }

  /** The rows are one per key, newest first. */
  lemma ViewIsOneRowPerKey(active: seq<Item>)
    ensures Ordered(Newer, View(active))
    ensures forall r :: r in View(active) <==> Key(r) in Keys(active) && r == Representative(active, Key(r))
    ensures forall i, j :: 0 <= i < j < |View(active)| ==> Key(View(active)[i]) != Key(View(active)[j])
  {
    hide Keys, Representative;
    var rows := Rows(active, Keys(active));
    NewerOrder();
    SortOrders(Newer, rows);
    SortMembers(Newer, rows);
    KeysDistinct(active);
    forall r | Key(r) in Keys(active) && r == Representative(active, Key(r)) ensures r in rows {
      var i :| 0 <= i < |Keys(active)| && Keys(active)[i] == Key(r);
      assert rows[i] == r;
    }
    forall i, j | 0 <= i < j < |rows| ensures rows[i] != rows[j] {
      assert Key(rows[i]) == Keys(active)[i] && Key(rows[j]) == Keys(active)[j];
    }
    SortNoDup(Newer, rows);
    var view := View(active);
    forall i, j | 0 <= i < j < |view| ensures Key(view[i]) != Key(view[j]) {
      assert view[i] in rows && view[j] in rows;
    }
  }

  // ---------------------------------------------------------------------------
  // Deduplicating again
  // ---------------------------------------------------------------------------

  lemma {:induction false} KeysOfDistinct(active: seq<Item>)
    requires forall i, j :: 0 <= i < j < |active| ==> Key(active[i]) != Key(active[j])
    ensures |Keys(active)| == |active| && forall i :: 0 <= i < |active| ==> Keys(active)[i] == Key(active[i])
  {
    if active != [] {
      var init := active[..|active| - 1];
      KeysOfDistinct(init);
      assert Key(active[|active| - 1]) !in Keys(init);
    }
  }

  lemma DistinctRepresentative(active: seq<Item>, i: nat)
    requires forall i, j :: 0 <= i < j < |active| ==> Key(active[i]) != Key(active[j])
    requires i < |active| && Key(active[i]) in Keys(active)
    ensures Representative(active, Key(active[i])) == active[i]
  {
    hide Keys, Representative;
    var r := Representative(active, Key(active[i]));
    var j :| 0 <= j < |active| && active[j] == r;
    assert !(i < j) && !(j < i);
  }

  /** Deduplicating the rows gives the rows. */
  lemma DeduplicationIsIdempotent(items: seq<Item>)
    ensures View(Active(View(Active(items)))) == View(Active(items))
  {
    var active := Active(items);
    var view := View(active);
    ViewIsOneRowPerKey(active);
    FilterAll((i: Item) => !i.archived, view) by {
      ViewActive(items);
    }
    ViewOfRows(view);
  }

  lemma ViewActive(items: seq<Item>)
    ensures forall r :: r in View(Active(items)) ==> !r.archived
  {
    hide Keys, View;
    var active := Active(items);
    ViewIsOneRowPerKey(active);
    forall r | r in View(active) ensures !r.archived {
      assert Representative(active, Key(r)) in active;
    }
  }

  lemma ViewOfRows(view: seq<Item>)
    requires Ordered(Newer, view)
    requires forall i, j :: 0 <= i < j < |view| ==> Key(view[i]) != Key(view[j])
    ensures View(view) == view
  {
    hide Keys, Representative;
    KeysOfDistinct(view);
    forall i | 0 <= i < |view| ensures Representative(view, Keys(view)[i]) == view[i] {
      DistinctRepresentative(view, i);
    }
    assert Rows(view, Keys(view)) == view;
    SortOrdered(Newer, view);
  }

  // ---------------------------------------------------------------------------
  // Archiving
  // ---------------------------------------------------------------------------

  /** The first item with the id. */
  function Find(items: seq<Item>, id: string): (r: Option<Item>)
    ensures r.Some? ==> r.value in items && r.value.id == id
    ensures r.None? ==> forall x :: x in items ==> x.id != id
  {
    if items == [] then None
    else if items[0].id == id then Some(items[0])
    else Find(items[1..], id)
  }

  /** Whether the patch that archives `id`, whose item names `issueId`, touches `item`. */
  predicate Touched(item: Item, id: string, issueId: Option<string>) {
    item.id == id || (issueId.Some? && issueId.value != "" && item.issueId == issueId)
  }

  /** The list after archiving `id`: every item of the same issue is archived with it. */
  function Archived(items: seq<Item>, id: string): seq<Item> {
    var target := Find(items, id);
    var issueId := if target.Some? then target.value.issueId else None;
    Map((item: Item) => if Touched(item, id, issueId) then item.(archived := true) else item, items)
  }

  class InboxCache {
    var items: Option<seq<Item>>

    method ArchiveOnMutate(id: string) returns (prev: Option<seq<Item>>)
      modifies this
      ensures prev == old(items)
      ensures items == if prev.Some? then Some(Archived(prev.value, id)) else None
    {
      prev := items;
      var target := if prev.Some? then Find(prev.value, id) else None;
      var issueId := if target.Some? then target.value.issueId else None;
      if items.Some? {
        items := Some(Map((item: Item) => if Touched(item, id, issueId) then item.(archived := true) else item, items.value));
      }
    }

    method ArchiveOnError(prev: Option<seq<Item>>)
      modifies this
      ensures items == if prev.Some? then prev else old(items)
    {
      if prev.Some? {
        items := prev;
      }
    }

    method ArchiveThenFail(id: string)
      modifies this
      ensures items == old(items)
    {
      var prev := ArchiveOnMutate(id);
      ArchiveOnError(prev);
    }
  }

  /** Archiving marks the target and the items of its named issue, keeps every place, and changes nothing else. */
  lemma ArchiveMarksExactly(items: seq<Item>, target: nat, id: string, k: nat)
    requires target < |items| && items[target].id == id && forall j :: 0 <= j < target ==> items[j].id != id
    requires k < |items|
    ensures var after := Archived(items, id);
            && |after| == |items|
            && after[k] == items[k].(archived := after[k].archived)
            && (after[k].archived <==>
                  items[k].archived || items[k].id == id ||
                  (items[k].issueId == items[target].issueId && items[k].issueId !in {None, Some("")}))
  {
    FindAt(items, target);
    hide Find;
  }

  lemma {:induction false} FindAt(items: seq<Item>, target: nat)
    requires target < |items| && forall j :: 0 <= j < target ==> items[j].id != items[target].id
    ensures Find(items, items[target].id) == Some(items[target])
  {
    if target > 0 {
      assert forall j :: 0 <= j < target ==> items[j].id != items[target].id;
      FindAt(items[1..], target - 1);
    }
  }

  ghost predicate UniqueIds(items: seq<Item>) {
    forall i, j :: 0 <= i < j < |items| ==> items[i].id != items[j].id
  }

  ghost predicate IssueIdsApart(items: seq<Item>) {
    forall x, y :: x in items && y in items && x.issueId.Some? ==> x.issueId.value != y.id
  }

  lemma {:induction false} ActiveOfPatched(items: seq<Item>, f: Item -> Item, touched: Item -> bool)
    requires forall x :: f(x) == if touched(x) then x.(archived := true) else x
    ensures Active(Map(f, items)) == Filter(x => !touched(x), Active(items))
  {
    if items != [] {
      var x, rest := items[0], items[1..];
      var left := x => !touched(x);
      hide Active, Filter, Map;
      assert items == [x] + rest;
      MapCons(f, x, rest);
      ActiveCons(x, rest);
      ActiveCons(f(x), Map(f, rest));
      FilterCons(left, x, Active(rest));
      ActiveOfPatched(rest, f, touched);
      assert f(x) == if touched(x) then x.(archived := true) else x;
    }
  }

  lemma ActiveCons(x: Item, rest: seq<Item>)
    ensures Active([x] + rest) == if x.archived then Active(rest) else [x] + Active(rest)
  {
    FilterCons((i: Item) => !i.archived, x, rest);
  }

  lemma {:induction false} KeysWithout(active: seq<Item>, key: string)
    ensures Keys(Filter(x => Key(x) != key, active)) == Filter(k => k != key, Keys(active))
  {
    hide Keys, Filter;
    if active == [] {
      KeysOfNothing(key);
    } else {
      var init, last := active[..|active| - 1], active[|active| - 1];
      var left := Filter(x => Key(x) != key, init);
      assert active == init + [last];
      KeysWithout(init, key);
      FilterLast(x => Key(x) != key, active);
      KeysPush(init, last);
      KeysPush(left, last);
      KeyPush(Keys(init), key, Key(last));
    }
  }

  lemma KeysOfNothing(key: string)
    ensures Keys([]) == [] && Filter((x: Item) => Key(x) != key, []) == [] && Filter((k: string) => k != key, []) == []
  {
  }

  lemma KeysPush(active: seq<Item>, item: Item)
    ensures Keys(active + [item]) == if Key(item) in Keys(active) then Keys(active) else Keys(active) + [Key(item)]
  {
    assert (active + [item])[..|active|] == active;
  }

  lemma KeyPush(keys: seq<string>, key: string, k: string)
    ensures Filter(x => x != key, keys + [k]) == Filter(x => x != key, keys) + (if k == key then [] else [k])
  {
    FilterConcat(x => x != key, keys, [k]);
    assert Filter(x => x != key, [k]) == if k == key then [] else [k];
  }

  lemma RepresentativeWithout(active: seq<Item>, key: string, k: string)
    requires k != key && k in Keys(active)
    ensures var left := Filter(x => Key(x) != key, active);
            k in Keys(left) && Representative(left, k) == Representative(active, k)
  {
    hide Keys;
    var left := Filter(x => Key(x) != key, active);
    var x :| x in active && Key(x) == k;
    assert x in left;
    FilterCompose(x => Key(x) != key, x => Key(x) == k, x => Key(x) == k, active);
  }

  lemma {:induction false} RowsWithout(active: seq<Item>, key: string, keys: seq<string>)
    requires forall k :: k in keys ==> k in Keys(active)
    ensures var left := Filter(x => Key(x) != key, active);
            var kept := Filter(k => k != key, keys);
            (forall k :: k in kept ==> k in Keys(left)) &&
            Rows(left, kept) == Filter(x => Key(x) != key, Rows(active, keys))
  {
    hide Keys, Representative;
    var left := Filter(x => Key(x) != key, active);
    var kept := Filter(k => k != key, keys);
    forall k | k in kept ensures k in Keys(left) {
      RepresentativeWithout(active, key, k);
    }
    if keys != [] {
      RowsWithout(active, key, keys[1..]);
      var tail := Filter(k => k != key, keys[1..]);
      RowsCons(active, keys);
      if keys[0] != key {
        RepresentativeWithout(active, key, keys[0]);
        assert kept == [keys[0]] + tail;
        RowsCons(left, kept);
      } else {
        assert kept == tail;
      }
    }
  }

  lemma RowsCons(active: seq<Item>, keys: seq<string>)
    requires keys != [] && forall k :: k in keys ==> k in Keys(active)
    ensures Rows(active, keys) == [Representative(active, keys[0])] + Rows(active, keys[1..])
  {
  }

  /** Dropping a group from the list drops its row from the view and changes nothing else. */
  lemma ViewWithout(active: seq<Item>, key: string)
    ensures View(Filter(x => Key(x) != key, active)) == Filter(x => Key(x) != key, View(active))
  {
    hide Keys, Representative;
    KeysWithout(active, key);
    RowsWithout(active, key, Keys(active));
    NewerOrder();
    FilterSort(Newer, x => Key(x) != key, Rows(active, Keys(active)));
  }

  /**
   The archive patch reaches the whole group of the target. An item may carry the empty string as its
   issue id: deduplication groups by it, the patch does not.
   */
  ghost predicate ReachesGroup(items: seq<Item>, id: string)
    requires Find(items, id).Some?
  {
    Find(items, id).value.issueId == Some("") ==>
      forall x :: x in Active(items) && x.issueId == Some("") ==> x.id == id
  }

  /** Then it touches exactly the target's group. */
  lemma TouchedIsGroup(items: seq<Item>, id: string, item: Item)
    requires UniqueIds(items) && IssueIdsApart(items) && item in Active(items)
    requires Find(items, id).Some? && ReachesGroup(items, id)
    ensures var target := Find(items, id).value;
            Touched(item, id, target.issueId) <==> Key(item) == Key(target)
  {
    var target := Find(items, id).value;
    if item.id == id {
      var i :| 0 <= i < |items| && items[i] == item;
      var j :| 0 <= j < |items| && items[j] == target;
      assert !(i < j) && !(j < i);
    }
  }

  /** The active items that archiving leaves. */
  lemma ArchivedActive(items: seq<Item>, id: string)
    requires Find(items, id).Some?
    ensures Active(Archived(items, id)) ==
            Filter(x => !Touched(x, id, Find(items, id).value.issueId), Active(items))
  {
    var issueId := Find(items, id).value.issueId;
    var touched := x => Touched(x, id, issueId);
    hide Touched, Active;
    ActiveOfPatched(items, (item: Item) => if Touched(item, id, issueId) then item.(archived := true) else item, touched);
    FilterAgree(x => !touched(x), x => !Touched(x, id, issueId), Active(items));
  }

  /**
   Archiving commutes with the view exactly when the patch reaches the target's group: deduplicating the
   archived list is then deduplicating first and dropping the target's row, and every other row keeps its
   representative and its place, ties included.
   */
  lemma ArchiveCommutesWithView(items: seq<Item>, id: string)
    requires UniqueIds(items) && IssueIdsApart(items)
    ensures Find(items, id).Some? ==>
              (View(Active(Archived(items, id))) ==
               Filter(r => Key(r) != Key(Find(items, id).value), View(Active(items))) <==>
               ReachesGroup(items, id))
    ensures Find(items, id).None? ==> Archived(items, id) == items
  {
    hide View, Active, ReachesGroup;
    if Find(items, id).Some? {
      var target := Find(items, id).value;
      var touched, key := x => Touched(x, id, target.issueId), Key(target);
      ArchivedActive(items, id);
      if ReachesGroup(items, id) {
        forall x | x in Active(items) ensures !touched(x) <==> Key(x) != key {
          TouchedIsGroup(items, id, x);
        }
        FilterAgree(x => !Touched(x, id, target.issueId), x => Key(x) != key, Active(items));
        ViewWithout(Active(items), key);
      } else {
        ArchiveHidesRowExactly(items, id);
      }
    }
  }

  /** And the target's row goes away exactly then: otherwise another active item of the group takes its place. */
  lemma ArchiveHidesRowExactly(items: seq<Item>, id: string)
    requires UniqueIds(items) && IssueIdsApart(items) && Find(items, id).Some?
    ensures (forall r :: r in View(Active(Archived(items, id))) ==> Key(r) != Key(Find(items, id).value)) <==>
            ReachesGroup(items, id)
  {
    hide View, Keys;
    var target := Find(items, id).value;
    var left := Active(Archived(items, id));
    ArchivedActive(items, id);
    ViewIsOneRowPerKey(left);
    if ReachesGroup(items, id) {
      forall x | x in left ensures Key(x) != Key(target) {
        TouchedIsGroup(items, id, x);
      }
    } else {
      var x :| x in Active(items) && x.issueId == Some("") && x.id != id;
      assert x in left && Key(x) == "" == Key(target);
      assert Representative(left, "") in View(left);
    }
  }
}
