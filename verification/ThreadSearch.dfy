/**
 The breadth-first search below one comment: when it returns, and what it lists.
 */
module ThreadSearch {
  import opened Common
  import opened Timeline
  import opened TimelineThread

  function Visited(root: string, out: seq<Entry>): seq<string> {
    [root] + Ids(out)
  }

  // ---------------------------------------------------------------------------
  // The search returns on top-level rows
  // ---------------------------------------------------------------------------

  ghost function PickKid(entries: seq<Entry>, x: string, ids: set<string>): (e: Entry)
    requires HasKidIn(entries, x, ids)
    ensures e in Kids(entries, x) && e.id in ids
  {
    var e :| e in Kids(entries, x) && e.id in ids;
    e
  }

  lemma SameComment(entries: seq<Entry>, a: Entry, b: Entry)
    requires UniqueCommentIds(entries) && a in entries && b in entries
    requires a.kind == Comment && b.kind == Comment && a.id == b.id
    ensures a == b
  {
    var i :| 0 <= i < |entries| && entries[i] == a;
    var j :| 0 <= j < |entries| && entries[j] == b;
    assert !(i < j) && !(j < i);
  }

  ghost function KidMap(entries: seq<Entry>, ids: set<string>): (kid: map<string, string>)
    requires Perpetual(entries, ids)
    ensures kid.Keys == ids
    ensures forall x {:trigger kid[x]} :: x in ids ==> HasKidIn(entries, x, ids) && kid[x] == PickKid(entries, x, ids).id
  {
    hide HasKidIn, Nested;
    map x {:trigger HasKidIn(entries, x, ids)} | x in ids :: assert HasKidIn(entries, x, ids); PickKid(entries, x, ids).id
  }

  lemma KidFacts(entries: seq<Entry>, ids: set<string>, x: string)
    requires Perpetual(entries, ids) && x in ids
    ensures HasKidIn(entries, x, ids)
    ensures var e := PickKid(entries, x, ids);
            && e in entries && Nested(entries, e) && e.parentId.value == x && e.kind == Comment
            && e.id in ids && KidMap(entries, ids)[x] == e.id
  {
    hide KidsOf;
    assert HasKidIn(entries, x, ids);
    assert PickKid(entries, x, ids) in Kids(entries, x);
  }

  /** Different ids have different replies. */
  lemma KidInjective(entries: seq<Entry>, ids: set<string>)
    requires UniqueCommentIds(entries) && Perpetual(entries, ids)
    ensures KidMap(entries, ids).Keys == ids && Injective(KidMap(entries, ids), ids)
  {
    hide KidsOf, HasKidIn, Perpetual, Nested, UniqueCommentIds, KidMap, PickKid;
    var kid := KidMap(entries, ids);
    forall x, y {:trigger kid[x], kid[y]} | x in ids && y in ids && kid[x] == kid[y] ensures x == y {
      KidFacts(entries, ids, x);
      KidFacts(entries, ids, y);
      SameComment(entries, PickKid(entries, x, ids), PickKid(entries, y, ids));
    }
  }

  /** With unique comment ids a set in which every id has a reply is one in which every id is a reply. */
  lemma PerpetualIsTrap(entries: seq<Entry>, ids: set<string>)
    requires UniqueCommentIds(entries) && Perpetual(entries, ids)
    ensures ParentTrap(entries, ids)
  {
    hide KidsOf, HasKidIn, Perpetual, Nested, UniqueCommentIds, KidMap, RepliesInto, PickKid;
    var kid := KidMap(entries, ids);
    forall x {:trigger kid[x]} | x in ids ensures kid[x] in ids {
      KidFacts(entries, ids, x);
    }
    KidInjective(entries, ids);
    hide Injective;
    hide Image;
    assert Image(kid, ids) <= ids by {
      forall y | y in Image(kid, ids) ensures y in ids {
        var x := OriginOf(kid, ids, y);
      }
    }
    InjectiveIsOnto(kid, ids);
    forall y {:trigger RepliesInto(entries, y, ids)} | y in ids ensures RepliesInto(entries, y, ids) {
      var x := OriginOf(kid, ids, y);
      KidFacts(entries, ids, x);
      IsReplyInto(entries, PickKid(entries, x, ids), ids);
    }
  }

  function Image(f: map<string, string>, s: set<string>): set<string>
    requires s <= f.Keys
  {
    set x | x in s :: f[x]
  }

  lemma OriginOf(f: map<string, string>, s: set<string>, y: string) returns (x: string)
    requires s <= f.Keys && y in Image(f, s)
    ensures x in s && f[x] == y
  {
    x :| x in s && f[x] == y;
  }

  lemma IsReplyInto(entries: seq<Entry>, e: Entry, ids: set<string>)
    requires e in entries && Nested(entries, e) && e.parentId.value in ids
    ensures RepliesInto(entries, e.id, ids)
  {
  }

  ghost predicate Injective(f: map<string, string>, s: set<string>)
    requires s <= f.Keys
  {
    forall x, y {:trigger f[x], f[y]} :: x in s && y in s && f[x] == f[y] ==> x == y
  }

  lemma InjectiveIsOnto(f: map<string, string>, s: set<string>)
    requires s <= f.Keys && Injective(f, s) && Image(f, s) <= s
    ensures Image(f, s) == s
  {
    InjectiveSize(f, s);
    SubsetSameSize(Image(f, s), s);
  }

  lemma {:induction false} InjectiveSize(f: map<string, string>, s: set<string>)
    requires s <= f.Keys && Injective(f, s)
    ensures |Image(f, s)| == |s|
    decreases |s|
  {
    if s == {} {
      assert Image(f, s) == {};
    } else {
      var x :| x in s;
      var rest := s - {x};
      assert Image(f, s) == Image(f, rest) + {f[x]};
      assert f[x] !in Image(f, rest);
      InjectiveSize(f, rest);
    }
  }

  /** With unique comment ids the search below a top-level comment always returns. */
  lemma TopLevelHalts(entries: seq<Entry>, e: Entry)
    requires UniqueCommentIds(entries) && e in entries && e.kind == Comment && !Nested(entries, e)
    ensures Halts(entries, [e.id])
  {
    hide KidsOf, Halts, Perpetual;
    HaltsExactly(entries, e.id);
    if ids: set<string> :| e.id in ids && Perpetual(entries, ids) {
      PerpetualIsTrap(entries, ids);
      assert RepliesInto(entries, e.id, ids);
      var r :| r in entries && Nested(entries, r) && r.id == e.id && r.parentId.value in ids;
      SameComment(entries, r, e);
    }
  }

  /** Without cycles it returns below every comment. */
  lemma AcyclicHalts(entries: seq<Entry>, root: string)
    requires UniqueCommentIds(entries) && Acyclic(entries)
    ensures Halts(entries, [root])
  {
    hide KidsOf, Halts, Perpetual, ParentTrap;
    HaltsExactly(entries, root);
    if ids: set<string> :| root in ids && Perpetual(entries, ids) {
      PerpetualIsTrap(entries, ids);
    }
  }

  /** Two comments with one id, one replying to that id: the search below it never returns. */
  lemma DuplicateIdNeverReturns(top: Entry, reply: Entry)
    requires top.kind == Comment && reply.kind == Comment && top.id == reply.id && top.id != ""
    requires top.parentId == None && reply.parentId == Some(top.id)
    ensures !Nested([top, reply], top) && !Halts([top, reply], [top.id])
  {
    hide KidsOf, Halts;
    var entries := [top, reply];
    assert top in entries && reply in entries && Nested(entries, reply);
    assert reply in Kids(entries, top.id);
    HaltsExactly(entries, top.id);
    assert HasKidIn(entries, top.id, {top.id});
    assert Perpetual(entries, {top.id});
    assert top.id in {top.id};
  }

  // ---------------------------------------------------------------------------
  // One row
  // ---------------------------------------------------------------------------

  lemma {:induction false} KidsOfAllMember(entries: seq<Entry>, pids: seq<string>, e: Entry)
    ensures e in KidsOfAll(entries, pids) <==> e in entries && Nested(entries, e) && e.parentId.value in pids
  {
    hide KidsOf;
    if pids != [] {
      KidsOfAllMember(entries, pids[..|pids| - 1], e);
      assert pids == pids[..|pids| - 1] + [pids[|pids| - 1]];
    }
  }

  lemma {:induction false} KidsOfAllPrefix(entries: seq<Entry>, pids: seq<string>, k: nat)
    requires k <= |pids|
    ensures KidsOfAll(entries, pids[..k]) <= KidsOfAll(entries, pids)
    decreases |pids|
  {
    hide KidsOf;
    if k == |pids| {
      assert pids[..k] == pids;
    } else {
      var init := pids[..|pids| - 1];
      assert init[..k] == pids[..k];
      KidsOfAllPrefix(entries, init, k);
    }
  }

  /** The listed entries are the replies to listed ids, and every such reply is listed. */
  lemma RepliesClosed(entries: seq<Entry>, root: string, out: seq<Entry>, e: Entry)
    requires IsBreadthFirst(entries, root, out)
    ensures e in out <==> e in entries && Nested(entries, e) && e.parentId.value in Visited(root, out)
  {
    KidsOfAllMember(entries, Visited(root, out), e);
  }

  // ---------------------------------------------------------------------------
  // The one breadth-first list
  // ---------------------------------------------------------------------------

  /** Two breadth-first lists below one root agree as far as the first goes. */
  lemma {:induction false} ListsAgree(entries: seq<Entry>, root: string, a: seq<Entry>, b: seq<Entry>, i: nat)
    requires IsBreadthFirst(entries, root, a) && IsBreadthFirst(entries, root, b) && i <= |a|
    ensures i <= |b| && a[..i] == b[..i]
  {
    hide KidsOf, KidsOfAll;
    if i > 0 {
      ListsAgree(entries, root, a, b, i - 1);
      var seen := Visited(root, a)[..i];
      IdsOfPrefix(root, a, b, i - 1);
      assert seen == Visited(root, b)[..i];
      assert i <= |KidsOfAll(entries, seen)|;
      KidsOfAllPrefix(entries, Visited(root, a), i);
      KidsOfAllPrefix(entries, Visited(root, b), i);
      assert a[i - 1] == KidsOfAll(entries, seen)[i - 1] == b[i - 1];
      assert a[..i] == a[..i - 1] + [a[i - 1]] && b[..i] == b[..i - 1] + [b[i - 1]];
    }
  }

  lemma IdsOfPrefix(root: string, a: seq<Entry>, b: seq<Entry>, i: nat)
    requires i <= |a| && i <= |b| && a[..i] == b[..i]
    ensures Visited(root, a)[..i + 1] == Visited(root, b)[..i + 1]
  {
    assert Visited(root, a)[..i + 1] == [root] + Ids(a[..i]);
    assert Visited(root, b)[..i + 1] == [root] + Ids(b[..i]);
  }

  /** There is at most one breadth-first list below a root. */
  lemma BreadthFirstUnique(entries: seq<Entry>, root: string, a: seq<Entry>, b: seq<Entry>)
    requires IsBreadthFirst(entries, root, a) && IsBreadthFirst(entries, root, b)
    ensures a == b
  {
    hide IsBreadthFirst;
    ListsAgree(entries, root, a, b, |a|);
    ListsAgree(entries, root, b, a, |b|);
  }

  /** Nothing listed lies in a perpetual set: its members would have to be followed by others without end. */
  lemma {:induction false} ListedNotPerpetual(entries: seq<Entry>, root: string, out: seq<Entry>, ids: set<string>, k: nat)
    requires IsBreadthFirst(entries, root, out) && Perpetual(entries, ids) && k < |Visited(root, out)|
    ensures Visited(root, out)[k] !in ids
    decreases |out| - k
  {
    hide IsBreadthFirst, Perpetual;
    if Visited(root, out)[k] in ids {
      var i := KidPosition(entries, Visited(root, out)[k], ids);
      var m := KidVisited(entries, root, out, k, i);
      ListedNotPerpetual(entries, root, out, ids, m);
    }
  }

  /** A reply to a visited id is visited later. */
  lemma KidVisited(entries: seq<Entry>, root: string, out: seq<Entry>, k: nat, i: nat) returns (m: nat)
    requires IsBreadthFirst(entries, root, out) && k < |Visited(root, out)|
    requires i < |Kids(entries, Visited(root, out)[k])|
    ensures k < m < |Visited(root, out)| && Visited(root, out)[m] == Ids(Kids(entries, Visited(root, out)[k]))[i]
  {
    hide KidsOf, KidsOfAll, Ids;
    var visited := Visited(root, out);
    var base, kids := KidsOfAll(entries, visited[..k]), Kids(entries, visited[k]);
    assert out == KidsOfAll(entries, visited) && k <= |base|;
    hide IsBreadthFirst, Kids;
    assert visited[..k + 1] == visited[..k] + [visited[k]];
    KidsOfAllPush(entries, visited[..k], visited[k]);
    KidsOfAllPrefix(entries, visited, k + 1);
    assert base + kids <= out;
    assert out[|base| + i] == kids[i];
    VisitedAt(root, out, |base| + i);
    IdAt(kids, i);
    m := |base| + i + 1;
  }

  lemma IdAt(entries: seq<Entry>, i: nat)
    requires i < |entries|
    ensures Ids(entries)[i] == entries[i].id
  {
  }

  lemma VisitedAt(root: string, out: seq<Entry>, i: nat)
    requires i < |out|
    ensures i + 1 < |Visited(root, out)| && Visited(root, out)[i + 1] == out[i].id
  {
  }

  /** The search below a root ends when there is a breadth-first list for it to return. */
  lemma ListedHalts(entries: seq<Entry>, root: string, out: seq<Entry>)
    requires IsBreadthFirst(entries, root, out)
    ensures Halts(entries, [root])
  {
    hide Halts, Perpetual, IsBreadthFirst;
    HaltsExactly(entries, root);
    forall ids: set<string> | Perpetual(entries, ids) ensures root !in ids {
      ListedNotPerpetual(entries, root, out, ids, 0);
    }
  }

  /** `pids[k]` is where the `i`-th listed entry comes from: entry `i` lies in the block of replies to it. */
  ghost predicate InBlock(entries: seq<Entry>, pids: seq<string>, i: nat, k: nat) {
    && k < |pids| && i < |KidsOfAll(entries, pids)|
    && var base := |KidsOfAll(entries, pids[..k])|;
       var kids := Kids(entries, pids[k]);
       base <= i < base + |kids| && KidsOfAll(entries, pids)[i] == kids[i - base]
  }

  lemma {:induction false} BlockOf(entries: seq<Entry>, pids: seq<string>, i: nat) returns (k: nat)
    requires i < |KidsOfAll(entries, pids)|
    ensures InBlock(entries, pids, i, k)
    decreases |pids|
  {
    hide KidsOf;
    var init := pids[..|pids| - 1];
    if i < |KidsOfAll(entries, init)| {
      k := BlockOf(entries, init, i);
      assert init[..k] == pids[..k];
    } else {
      k := |pids| - 1;
    }
  }

  /** A reply is listed after the entry it hangs from. */
  lemma ParentBefore(entries: seq<Entry>, root: string, out: seq<Entry>, i: nat) returns (k: nat)
    requires IsBreadthFirst(entries, root, out) && i < |out|
    ensures k <= i && InBlock(entries, Visited(root, out), i, k) && out == KidsOfAll(entries, Visited(root, out))
    ensures out[i] in entries && Nested(entries, out[i]) && out[i].parentId.value == Visited(root, out)[k]
  {
    hide KidsOf, KidsOfAll;
    var visited := Visited(root, out);
    k := BlockOf(entries, visited, i);
    assert out[i] in Kids(entries, visited[k]);
  }

  lemma KidsNoDup(entries: seq<Entry>, pid: string)
    requires UniqueCommentIds(entries)
    ensures NoDup(Kids(entries, pid))
  {
    FilterNoDup(e => Nested(entries, e) && e.parentId.value == pid, entries);
  }

  ghost predicate IsTopComment(entries: seq<Entry>, id: string) {
    exists e :: e in entries && e.kind == Comment && !Nested(entries, e) && e.id == id
  }

  lemma TopIsNotReply(entries: seq<Entry>, e: Entry)
    requires UniqueCommentIds(entries) && e in entries && Nested(entries, e)
    ensures !IsTopComment(entries, e.id)
  {
    if IsTopComment(entries, e.id) {
      var t :| t in entries && t.kind == Comment && !Nested(entries, t) && t.id == e.id;
      SameComment(entries, t, e);
    }
  }

  /** No id is visited twice below a top-level comment. */
  lemma VisitedNoDup(entries: seq<Entry>, root: string, out: seq<Entry>)
    requires UniqueCommentIds(entries) && IsTopComment(entries, root) && IsBreadthFirst(entries, root, out)
    ensures NoDup(Visited(root, out))
  {
    hide KidsOf, KidsOfAll, IsBreadthFirst;
    var visited := Visited(root, out);
    forall i, j | 0 <= i < j < |visited| ensures visited[i] != visited[j] {
      FirstVisit(entries, root, out, i, j);
    }
  }

  lemma {:induction false} FirstVisit(entries: seq<Entry>, root: string, out: seq<Entry>, i: nat, j: nat)
    requires UniqueCommentIds(entries) && IsTopComment(entries, root) && IsBreadthFirst(entries, root, out)
    requires i < j < |Visited(root, out)|
    ensures Visited(root, out)[i] != Visited(root, out)[j]
    decreases j
  {
    hide KidsOf, KidsOfAll, IsBreadthFirst;
    var visited := Visited(root, out);
    if visited[i] == visited[j] {
      var kj := ParentBefore(entries, root, out, j - 1);
      TopIsNotReply(entries, out[j - 1]);
      assert i > 0;
      var ki := ParentBefore(entries, root, out, i - 1);
      SameComment(entries, out[i - 1], out[j - 1]);
      if ki < kj {
        FirstVisit(entries, root, out, ki, kj);
      } else if kj < ki {
        FirstVisit(entries, root, out, kj, ki);
      } else {
        KidsNoDup(entries, visited[ki]);
      }
      assert false;
    }
  }

  // ---------------------------------------------------------------------------
  // Order among siblings
  // ---------------------------------------------------------------------------

  lemma OwnKids(entries: seq<Entry>, q: string, p: string)
    ensures Filter((e: Entry) => e.parentId == Some(p), Kids(entries, q)) == if p == q then Kids(entries, p) else []
  {
    hide Filter;
    var kids := Kids(entries, q);
    assert forall e :: e in kids ==> e.parentId == Some(q);
    if p == q {
      FilterAll((e: Entry) => e.parentId == Some(p), kids);
    } else {
      FilterNone((e: Entry) => e.parentId == Some(p), kids);
    }
  }

  lemma {:induction false} KidsOfOne(entries: seq<Entry>, pids: seq<string>, p: string)
    requires NoDup(pids)
    ensures Filter((e: Entry) => e.parentId == Some(p), KidsOfAll(entries, pids)) ==
            if p in pids then Kids(entries, p) else []
  {
    hide Filter, Kids, Nested;
    if pids != [] {
      var init, q := pids[..|pids| - 1], pids[|pids| - 1];
      assert pids == init + [q];
      KidsOfOne(entries, init, p);
      FilterConcat((e: Entry) => e.parentId == Some(p), KidsOfAll(entries, init), Kids(entries, q));
      OwnKids(entries, q, p);
    }
  }

  /** Below a top-level comment the replies to one comment are listed all, once, and in timeline order. */
  lemma SiblingsInOrder(entries: seq<Entry>, root: string, out: seq<Entry>, parent: Entry)
    requires UniqueCommentIds(entries) && IsTopComment(entries, root) && IsBreadthFirst(entries, root, out)
    requires parent in entries && parent.kind == Comment && parent.id != "" && (parent.id == root || parent in out)
    ensures Filter((e: Entry) => e.parentId == Some(parent.id), out) ==
            Filter((e: Entry) => e.kind == Comment && e.parentId == Some(parent.id), entries)
  {
    hide Filter, UniqueCommentIds, IsTopComment, KidsOfAll;
    var visited, p := Visited(root, out), parent.id;
    VisitedNoDup(entries, root, out);
    assert out == KidsOfAll(entries, visited);
    KidsOfOne(entries, visited, p);
    if p != root {
      var i :| 0 <= i < |out| && out[i] == parent;
      VisitedAt(root, out, i);
    }
    assert p in visited;
    assert p in CommentIds(entries);
    FilterAgree(e => Nested(entries, e) && e.parentId.value == p,
                (e: Entry) => e.kind == Comment && e.parentId == Some(p), entries);
  }
}
