/** The persisted list of recently visited issues and projects, per workspace, with eviction of workspaces. */
module RecentContexts {
  import opened Common

  const MAX_RECENT_CONTEXTS := 20
  const MAX_WORKSPACES := 50

  datatype ContextType = IssueContext | ProjectContext

  /** `details` stands for the label, subtitle, statuses and icon. */
  datatype Entry = Entry(kind: ContextType, id: string, details: string, visitedAt: int)

  type Buckets = map<string, seq<Entry>>

  function TypeName(kind: ContextType): string {
    match kind
    case IssueContext => "issue"
    case ProjectContext => "project"
  }

  function EntryKey(kind: ContextType, id: string): string {
    TypeName(kind) + ":" + id
  }

  function KeyOf(e: Entry): string {
    EntryKey(e.kind, e.id)
  }

  /** Keys tell issues from projects and ids from one another. */
  lemma EntryKeyInjective(a: ContextType, x: string, b: ContextType, y: string)
    requires EntryKey(a, x) == EntryKey(b, y)
    ensures a == b && x == y
  {
    var s, t := EntryKey(a, x), EntryKey(b, y);
    assert s[0] == TypeName(a)[0] && t[0] == TypeName(b)[0];
    assert s[|TypeName(a)| + 1..] == x && t[|TypeName(b)| + 1..] == y;
  }

  function Others(bucket: seq<Entry>, key: string): (r: seq<Entry>)
    ensures forall e :: e in r <==> e in bucket && KeyOf(e) != key
  {
    Filter(e => KeyOf(e) != key, bucket)
  }

  function Take(xs: seq<Entry>, n: nat): (r: seq<Entry>)
    ensures r <= xs && |r| <= n
  {
    if |xs| <= n then xs else xs[..n]
  }

  function BucketOf(s: Buckets, ws: string): seq<Entry> {
    if ws in s then s[ws] else []
  }

  /** The time of the latest visit; zero for a workspace without one. */
  function HeadTime(s: Buckets, ws: string): int {
    if BucketOf(s, ws) == [] then 0 else BucketOf(s, ws)[0].visitedAt
  }

  function Visited(s: Buckets, ws: string, e: Entry): Buckets {
    s[ws := Take([e] + Others(BucketOf(s, ws), KeyOf(e)), MAX_RECENT_CONTEXTS)]
  }

  /** The first key, in the given order, with the smallest head time. */
  function Oldest(s: Buckets, ids: seq<string>): string
    requires ids != []
  {
    if |ids| == 1 then ids[0]
    else
      var best, candidate := Oldest(s, ids[..|ids| - 1]), ids[|ids| - 1];
      if HeadTime(s, candidate) < HeadTime(s, best) then candidate else best
  }

  /** Every workspace once, in some order. */
  ghost predicate KeyOrder(s: Buckets, ids: seq<string>) {
    NoDup(ids) && forall w :: w in ids <==> w in s
  }

  function Recorded(s: Buckets, ws: string, e: Entry, ids: seq<string>): Buckets
    requires forall w :: w in Visited(s, ws, e) ==> w in ids
  {
    var next := Visited(s, ws, e);
    if |ids| > MAX_WORKSPACES then next - {Oldest(next, ids)} else next
  }

  function Forgotten(s: Buckets, ws: string, kind: ContextType, id: string): Buckets {
    if ws !in s then s
    else
      var next := Others(s[ws], EntryKey(kind, id));
      if |next| == |s[ws]| then s
      else if |next| == 0 then s - {ws}
      else s[ws := next]
  }

  function Pruned(s: Buckets, allow: set<string>): (r: Buckets)
    ensures forall w :: w in r <==> w in s && w in allow
    ensures forall w :: w in r ==> r[w] == s[w]
  {
    map w | w in s && w in allow :: s[w]
  }

  class RecentContextStore {
    var byWorkspace: Buckets

    constructor ()
      ensures byWorkspace == map[]
    {
      byWorkspace := map[];
    }

    /** `now` is the clock and `ids` the order in which the runtime lists the workspaces after the visit. */
    method RecordVisit(ws: string, kind: ContextType, id: string, details: string, now: int, ids: seq<string>)
      requires KeyOrder(Visited(byWorkspace, ws, Entry(kind, id, details, now)), ids)
      modifies this
      ensures byWorkspace == Recorded(old(byWorkspace), ws, Entry(kind, id, details, now), ids)
    {
      hide Oldest, Take, Others;
      var updated := Entry(kind, id, details, now);
      var nextBucket := Take([updated] + Others(BucketOf(byWorkspace, ws), EntryKey(kind, id)), MAX_RECENT_CONTEXTS);
      var next := byWorkspace[ws := nextBucket];
      if |ids| > MAX_WORKSPACES {
        var oldest := FindOldest(next, ids);
        next := next - {oldest};
      }
      byWorkspace := next;
    }

    /** Reduces the keys to the one with the oldest head, as the eviction does. */
    static method FindOldest(s: Buckets, ids: seq<string>) returns (oldest: string)
      requires ids != []
      ensures oldest == Oldest(s, ids)
    {
      oldest := ids[0];
      for i := 1 to |ids|
        invariant oldest == Oldest(s, ids[..i])
      {
        assert ids[..i + 1][..i] == ids[..i];
        if HeadTime(s, ids[i]) < HeadTime(s, oldest) {
          oldest := ids[i];
        }
      }
      assert ids[..|ids|] == ids;
    }

    method ForgetContext(ws: string, kind: ContextType, id: string)
      modifies this
      ensures byWorkspace == Forgotten(old(byWorkspace), ws, kind, id)
    {
      if ws !in byWorkspace {
        return;
      }
      var bucket := byWorkspace[ws];
      var nextBucket := Others(bucket, EntryKey(kind, id));
      if |nextBucket| == |bucket| {
        return;
      }
      if |nextBucket| == 0 {
        byWorkspace := byWorkspace - {ws};
        return;
      }
      byWorkspace := byWorkspace[ws := nextBucket];
    }

    method PruneWorkspaces(active: seq<string>)
      modifies this
      ensures byWorkspace == Pruned(old(byWorkspace), set w | w in active)
    {
      var allow := set w | w in active;
      var changed := false;
      var next: Buckets := map[];
      var left := byWorkspace.Keys;
      while left != {}
        invariant left <= byWorkspace.Keys && unchanged(this)
        invariant forall w :: w in next <==> w in byWorkspace && w !in left && w in allow
        invariant forall w :: w in next ==> next[w] == byWorkspace[w]
        invariant !changed ==> forall w :: w in byWorkspace && w !in left ==> w in allow
        decreases |left|
      {
        var w :| w in left;
        left := left - {w};
        if w in allow {
          next := next[w := byWorkspace[w]];
        } else {
          changed := true;
        }
      }
      if changed {
        assert next == Pruned(byWorkspace, allow);
        byWorkspace := next;
      } else {
        assert byWorkspace == Pruned(byWorkspace, allow);
      }
    }
  }

  // ---------------------------------------------------------------------------
  // Every reachable state
  // ---------------------------------------------------------------------------

  ghost predicate DistinctKeys(bucket: seq<Entry>) {
    forall i, j :: 0 <= i < j < |bucket| ==> KeyOf(bucket[i]) != KeyOf(bucket[j])
  }

  ghost predicate BucketOk(bucket: seq<Entry>) {
    0 < |bucket| <= MAX_RECENT_CONTEXTS && DistinctKeys(bucket)
  }

  ghost predicate Ok(s: Buckets) {
    |s| <= MAX_WORKSPACES && forall w :: w in s ==> BucketOk(s[w])
  }

  lemma {:induction false} OthersDistinct(bucket: seq<Entry>, key: string)
    requires DistinctKeys(bucket)
    ensures DistinctKeys(Others(bucket, key))
  {
    if bucket != [] {
      var rest := bucket[1..];
      assert forall i :: 0 <= i < |rest| ==> rest[i] == bucket[i + 1];
      OthersDistinct(rest, key);
      var tail := Others(rest, key);
      forall i | 0 <= i < |tail| ensures KeyOf(tail[i]) != KeyOf(bucket[0]) {
        assert tail[i] in rest;
      }
    }
  }

  lemma VisitedBucketOk(bucket: seq<Entry>, e: Entry)
    requires DistinctKeys(bucket)
    ensures BucketOk(Take([e] + Others(bucket, KeyOf(e)), MAX_RECENT_CONTEXTS))
    ensures Take([e] + Others(bucket, KeyOf(e)), MAX_RECENT_CONTEXTS)[0] == e
  {
    OthersDistinct(bucket, KeyOf(e));
    var rest := Others(bucket, KeyOf(e));
    forall i | 0 <= i < |rest| ensures KeyOf(rest[i]) != KeyOf(e) {
      assert rest[i] in rest;
    }
  }

  lemma {:induction false} OldestIsLeast(s: Buckets, ids: seq<string>)
    requires ids != []
    ensures Oldest(s, ids) in ids && forall w :: w in ids ==> HeadTime(s, Oldest(s, ids)) <= HeadTime(s, w)
  {
    if |ids| > 1 {
      var init := ids[..|ids| - 1];
      OldestIsLeast(s, init);
      assert ids == init + [ids[|ids| - 1]];
    }
  }

  lemma KeyOrderSize(s: Buckets, ids: seq<string>)
    requires KeyOrder(s, ids)
    ensures |ids| == |s|
  {
    DistinctSize(ids);
    assert s.Keys == set w | w in ids;
  }

  lemma {:induction false} DistinctSize(ids: seq<string>)
    requires NoDup(ids)
    ensures |set w | w in ids| == |ids|
  {
    if ids != [] {
      var init, last := ids[..|ids| - 1], ids[|ids| - 1];
      DistinctSize(init);
      assert (set w | w in ids) == (set w | w in init) + {last};
      assert last !in init;
    }
  }

  lemma VisitedOk(s: Buckets, ws: string, e: Entry)
    requires Ok(s)
    ensures var next := Visited(s, ws, e);
            |next| <= MAX_WORKSPACES + 1 && forall w :: w in next ==> BucketOk(next[w])
  {
    hide DistinctKeys, Others, Take;
    var next := Visited(s, ws, e);
    EmptyDistinct();
    VisitedBucketOk(BucketOf(s, ws), e);
    assert BucketOk(next[ws]);
    assert forall w :: w in s ==> BucketOk(s[w]);
    hide BucketOk, BucketOf;
    assert next.Keys == s.Keys + {ws};
  }

  lemma EmptyDistinct()
    ensures DistinctKeys([])
  {
  }

  lemma DropOne(s: Buckets, w: string)
    requires w in s && forall x :: x in s ==> BucketOk(s[x])
    ensures |s - {w}| == |s| - 1 && forall x :: x in s - {w} ==> BucketOk((s - {w})[x])
  {
    hide BucketOk;
    assert (s - {w}).Keys == s.Keys - {w};
  }

  /** A visit keeps the bounds, whatever the clock says. */
  lemma RecordKeepsOk(s: Buckets, ws: string, e: Entry, ids: seq<string>)
    requires Ok(s) && KeyOrder(Visited(s, ws, e), ids)
    ensures Ok(Recorded(s, ws, e, ids))
  {
    hide BucketOk, Visited, Oldest;
    var next := Visited(s, ws, e);
    VisitedOk(s, ws, e);
    KeyOrderSize(next, ids);
    if |ids| > MAX_WORKSPACES {
      OldestIsLeast(next, ids);
      DropOne(next, Oldest(next, ids));
    }
  }

  lemma ForgetKeepsOk(s: Buckets, ws: string, kind: ContextType, id: string)
    requires Ok(s)
    ensures Ok(Forgotten(s, ws, kind, id))
  {
    if ws in s {
      OthersDistinct(s[ws], EntryKey(kind, id));
      assert (s - {ws}).Keys == s.Keys - {ws};
      var next := Others(s[ws], EntryKey(kind, id));
      assert s[ws := next].Keys == s.Keys;
    }
  }

  lemma PruneKeepsOk(s: Buckets, allow: set<string>)
    requires Ok(s)
    ensures Ok(Pruned(s, allow))
  {
    var r := Pruned(s, allow);
    assert r.Keys <= s.Keys;
    assert s.Keys == r.Keys + (s.Keys - r.Keys);
  }

  datatype Event =
    | Record(ws: string, entry: Entry, ids: seq<string>)
    | Forget(ws: string, kind: ContextType, id: string)
    | Prune(allow: set<string>)

  ghost predicate Possible(s: Buckets, e: Event) {
    e.Record? ==> KeyOrder(Visited(s, e.ws, e.entry), e.ids)
  }

  function Step(s: Buckets, e: Event): Buckets
    requires Possible(s, e)
  {
    match e
    case Record(ws, entry, ids) => Recorded(s, ws, entry, ids)
    case Forget(ws, kind, id) => Forgotten(s, ws, kind, id)
    case Prune(allow) => Pruned(s, allow)
  }

  ghost predicate Reaches(s: Buckets, events: seq<Event>, final: Buckets)
    decreases |events|
  {
    if events == [] then s == final
    else Possible(s, events[0]) && Reaches(Step(s, events[0]), events[1..], final)
  }

  lemma OkBounds(s: Buckets)
    ensures Ok(s) ==> |s| <= 50 && forall ws :: ws in s ==> 0 < |s[ws]| <= 20
  {
  }

  /**
   Every reachable state has at most 50 workspaces, no empty bucket, and in each bucket at most 20
   entries, all distinct.
   */
  lemma {:induction false} ReachableIsBounded(s: Buckets, events: seq<Event>, final: Buckets)
    requires Ok(s) && Reaches(s, events, final)
    ensures Ok(final) && |final| <= 50
    ensures forall ws :: ws in final ==> 0 < |final[ws]| <= 20
    decreases |events|
  {
    OkBounds(final);
    hide Ok, KeyOrder;
    if events != [] {
      match events[0] {
        case Record(ws, entry, ids) => RecordKeepsOk(s, ws, entry, ids);
        case Forget(ws, kind, id) => ForgetKeepsOk(s, ws, kind, id);
        case Prune(allow) => PruneKeepsOk(s, allow);
      }
      ReachableIsBounded(Step(s, events[0]), events[1..], final);
    }
  }

  // ---------------------------------------------------------------------------
  // Eviction
  // ---------------------------------------------------------------------------

  /**
   At most one workspace is evicted, only when the limit is exceeded, and none of the others has an
   older head; in particular never the one just visited when some other head is strictly older.
   */
  lemma EvictionDropsOldest(s: Buckets, ws: string, e: Entry, ids: seq<string>)
    requires Ok(s) && KeyOrder(Visited(s, ws, e), ids)
    ensures var next, r := Visited(s, ws, e), Recorded(s, ws, e, ids);
            && (|next| <= MAX_WORKSPACES ==> r == next)
            && (|next| > MAX_WORKSPACES ==>
                  exists out :: out in next && r == next - {out} &&
                                forall w :: w in next ==> HeadTime(next, out) <= HeadTime(next, w))
            && ((exists w :: w in s && w != ws && HeadTime(s, w) < e.visitedAt) ==> ws in r && r[ws] == next[ws])
  {
    hide Oldest, Take, Others, BucketOk, HeadTime;
    var next := Visited(s, ws, e);
    KeyOrderSize(next, ids);
    HeadsAfterVisit(s, ws, e);
    if |ids| > MAX_WORKSPACES {
      OldestIsLeast(next, ids);
      assert Oldest(next, ids) in next;
    }
  }

  /** The evicted workspace is one whose newest entry was visited no later than that of any other. */
  lemma EvictedHeadIsOldest(s: Buckets, ws: string, e: Entry, ids: seq<string>) returns (out: string)
    requires Ok(s) && KeyOrder(Visited(s, ws, e), ids) && |Visited(s, ws, e)| > 50
    ensures var next: Buckets := Visited(s, ws, e);
            && out in next && Recorded(s, ws, e, ids) == next - {out}
            && (forall w: string :: w in next ==> next[w] != [])
            && forall w: string :: w in next ==> next[out][0].visitedAt <= next[w][0].visitedAt
  {
    hide Oldest, Others, DistinctKeys, Recorded;
    var next: Buckets := Visited(s, ws, e);
    forall w: string | w in next ensures next[w] != [] && HeadTime(next, w) == next[w][0].visitedAt {
      assert w != ws ==> BucketOk(s[w]);
    }
    hide Take, HeadTime, Visited;
    EvictionDropsOldest(s, ws, e, ids);
    out :| out in next && Recorded(s, ws, e, ids) == next - {out} &&
           forall w :: w in next ==> HeadTime(next, out) <= HeadTime(next, w);
  }

  /** The evicted key is the first of those with the least head time. */
  lemma {:induction false} OldestIsFirstLeast(s: Buckets, ids: seq<string>) returns (at: nat)
    requires ids != []
    ensures at < |ids| && ids[at] == Oldest(s, ids)
    ensures forall i :: 0 <= i < at ==> HeadTime(s, ids[at]) < HeadTime(s, ids[i])
    ensures forall i :: at <= i < |ids| ==> HeadTime(s, ids[at]) <= HeadTime(s, ids[i])
  {
    hide HeadTime;
    var n := |ids| - 1;
    if n == 0 {
      at := 0;
    } else {
      at := OldestIsFirstLeast(s, ids[..n]);
      if HeadTime(s, ids[n]) < HeadTime(s, Oldest(s, ids[..n])) {
        at := n;
      }
    }
  }

  /** The `i`-th workspace is evicted before the one at `p`, which was just visited: ties go to the earlier key. */
  predicate GoesFirst(s: Buckets, ids: seq<string>, i: nat, p: nat, visitedAt: int)
    requires i < |ids|
  {
    i != p && if i < p then HeadTime(s, ids[i]) <= visitedAt else HeadTime(s, ids[i]) < visitedAt
  }

  /**
   Whether the visited workspace itself survives its visit: within the limit always, beyond it exactly
   when some other workspace goes first, by an older head or, at the same time, by an earlier key.
   */
  lemma VisitStaysExactly(s: Buckets, ws: string, e: Entry, ids: seq<string>, p: nat)
    requires Ok(s) && KeyOrder(Visited(s, ws, e), ids) && p < |ids| && ids[p] == ws
    ensures ws in Recorded(s, ws, e, ids) <==>
            |ids| <= MAX_WORKSPACES || exists i: nat :: i < |ids| && GoesFirst(s, ids, i, p, e.visitedAt)
  {
    hide Oldest, Take, Others, BucketOk, HeadTime;
    var next := Visited(s, ws, e);
    var at := OldestIsFirstLeast(next, ids);
    HeadsAfterVisit(s, ws, e);
    forall i | 0 <= i < |ids| && i != p ensures ids[i] != ws && HeadTime(next, ids[i]) == HeadTime(s, ids[i]) {
    }
    assert ws in Recorded(s, ws, e, ids) <==> |ids| <= MAX_WORKSPACES || at != p;
    if at != p {
      assert GoesFirst(s, ids, at, p, e.visitedAt);
    }
  }

  /** So with later heads everywhere else the visit is the one that goes, whatever the key order. */
  lemma VisitCanBeEvicted(s: Buckets, ws: string, e: Entry, ids: seq<string>)
    requires Ok(s) && KeyOrder(Visited(s, ws, e), ids) && |ids| > MAX_WORKSPACES
    requires forall w :: w in s && w != ws ==> e.visitedAt < HeadTime(s, w)
    ensures ws !in Recorded(s, ws, e, ids)
  {
    hide Oldest, Take, Others, BucketOk, HeadTime;
    assert ws in Visited(s, ws, e) && ws in ids;
    var p :| 0 <= p < |ids| && ids[p] == ws;
    VisitStaysExactly(s, ws, e, ids, p);
    forall i: nat | i < |ids| ensures !GoesFirst(s, ids, i, p, e.visitedAt) {
      assert ids[i] in ids;
    }
  }

  lemma HeadsAfterVisit(s: Buckets, ws: string, e: Entry)
    requires Ok(s)
    ensures var next := Visited(s, ws, e);
            HeadTime(next, ws) == e.visitedAt && forall w :: w != ws ==> HeadTime(next, w) == HeadTime(s, w)
  {
    EmptyDistinct();
    VisitedBucketOk(BucketOf(s, ws), e);
  }

  // ---------------------------------------------------------------------------
  // The full history
  // ---------------------------------------------------------------------------

  /** A run of the store from its empty state. */
  ghost predicate Runs(events: seq<Event>)
    decreases |events|, 0
  {
    events == [] ||
    (Runs(events[..|events| - 1]) && Possible(Run(events[..|events| - 1]), events[|events| - 1]))
  }

  ghost function Run(events: seq<Event>): Buckets
    requires Runs(events)
    decreases |events|, 1
  {
    if events == [] then map[] else Step(Run(events[..|events| - 1]), events[|events| - 1])
  }

  /** The event drops the workspace as a whole: an eviction or a pruning. */
  ghost predicate Loses(s: Buckets, e: Event, ws: string)
    requires Possible(s, e)
  {
    !e.Forget? && ws !in Step(s, e) && (ws in s || (e.Record? && e.ws == ws))
  }

  /** Everything visited in a workspace since it was last dropped, never truncated, most recent first. */
  ghost function History(events: seq<Event>, ws: string): seq<Entry>
    requires Runs(events)
    decreases |events|
  {
    if events == [] then []
    else
      var before, e := events[..|events| - 1], events[|events| - 1];
      if Loses(Run(before), e, ws) then [] else HistoryStep(History(before, ws), e, ws)
  }

  function HistoryStep(history: seq<Entry>, e: Event, ws: string): seq<Entry> {
    match e
    case Record(w, entry, _) => if w == ws then [entry] + Others(history, KeyOf(entry)) else history
    case Forget(w, kind, id) => if w == ws then Others(history, EntryKey(kind, id)) else history
    case Prune(_) => history
  }

  /** The visit at `at` is the workspace's latest of its entry, and nothing has removed it since. */
  ghost predicate LatestVisit(events: seq<Event>, ws: string, entry: Entry, at: nat)
    requires Runs(events)
  {
    && at < |events| && events[at].Record? && events[at].ws == ws && events[at].entry == entry
    && (forall j :: at < j < |events| ==> !Supersedes(events[j], ws, KeyOf(entry)))
    && (forall j :: at <= j < |events| ==> !LostAt(events, j, ws))
  }

  /** A later visit of the same entry, or its removal. */
  predicate Supersedes(e: Event, ws: string, key: string) {
    || (e.Record? && e.ws == ws && KeyOf(e.entry) == key)
    || (e.Forget? && e.ws == ws && EntryKey(e.kind, e.id) == key)
  }

  ghost predicate LostAt(events: seq<Event>, j: nat, ws: string)
    requires Runs(events) && j < |events|
  {
    PrefixRuns(events, j);
    PrefixRuns(events, j + 1);
    assert events[..j + 1][..j] == events[..j];
    Loses(Run(events[..j]), events[j], ws)
  }

  lemma {:induction false} PrefixRuns(events: seq<Event>, j: nat)
    requires Runs(events) && j <= |events|
    ensures Runs(events[..j])
    decreases |events|
  {
    if j == |events| {
      assert events[..j] == events;
    } else {
      var before := events[..|events| - 1];
      assert before[..j] == events[..j];
      PrefixRuns(before, j);
    }
  }

  lemma LostBefore(events: seq<Event>, j: nat, ws: string)
    requires Runs(events) && events != [] && j < |events| - 1
    ensures Runs(events[..|events| - 1]) && (LostAt(events[..|events| - 1], j, ws) <==> LostAt(events, j, ws))
  {
    hide Loses, Run;
    assert events[..|events| - 1][..j] == events[..j];
  }

  lemma LostLast(events: seq<Event>, ws: string)
    requires Runs(events) && events != []
    ensures LostAt(events, |events| - 1, ws) <==> Loses(Run(events[..|events| - 1]), events[|events| - 1], ws)
  {
  }

  /** What one more event does to a visit's being the latest. */
  lemma LatestPush(events: seq<Event>, ws: string, entry: Entry, at: nat)
    requires Runs(events) && events != []
    ensures var n := |events| - 1;
            var before, e := events[..n], events[n];
            && Runs(before)
            && (at < n ==>
                  (LatestVisit(events, ws, entry, at) <==>
                   LatestVisit(before, ws, entry, at) && !Supersedes(e, ws, KeyOf(entry)) && !LostAt(events, n, ws)))
            && (at == n ==>
                  (LatestVisit(events, ws, entry, at) <==>
                   e.Record? && e.ws == ws && e.entry == entry && !LostAt(events, n, ws)))
            && (LatestVisit(before, ws, entry, at) ==> at < n) && (LatestVisit(events, ws, entry, at) ==> at <= n)
  {
    hide Supersedes, LostAt;
    var n := |events| - 1;
    var before := events[..n];
    var e := events[n];
    if LatestVisit(events, ws, entry, at) && at < n {
      forall j | at < j < n ensures !Supersedes(before[j], ws, KeyOf(entry)) {
        assert before[j] == events[j];
      }
      forall j | at <= j < n ensures !LostAt(before, j, ws) {
        LostBefore(events, j, ws);
        assert !LostAt(events, j, ws);
      }
      assert before[at] == events[at] && !Supersedes(events[n], ws, KeyOf(entry)) && !LostAt(events, n, ws);
    }
    if at < n && LatestVisit(before, ws, entry, at) && !Supersedes(e, ws, KeyOf(entry)) && !LostAt(events, n, ws) {
      forall j | at < j < |events| ensures !Supersedes(events[j], ws, KeyOf(entry)) {
        assert j < n ==> before[j] == events[j];
      }
      forall j | at <= j < |events| ensures !LostAt(events, j, ws) {
        if j < n {
          LostBefore(events, j, ws);
          assert !LostAt(before, j, ws);
        }
      }
      assert before[at] == events[at];
    }
    if at == n {
      assert LatestVisit(events, ws, entry, at) ==> !LostAt(events, n, ws);
    }
  }

  /** The history lists exactly the latest visits, each with the data of that visit. */
  lemma {:induction false} HistoryMembers(events: seq<Event>, ws: string, entry: Entry)
    requires Runs(events)
    ensures entry in History(events, ws) <==> exists at: nat :: LatestVisit(events, ws, entry, at)
    decreases |events|
  {
    if events != [] {
      var n := |events| - 1;
      var before, e := events[..n], events[n];
      HistoryMembers(before, ws, entry);
      LostLast(events, ws);
      hide Loses, LatestVisit, LostAt;
      HistoryStepMember(History(before, ws), e, ws, entry);
      LatestPush(events, ws, entry, n);
      if at: nat :| LatestVisit(events, ws, entry, at) {
        LatestPush(events, ws, entry, at);
      }
      if at: nat :| LatestVisit(before, ws, entry, at) {
        LatestPush(events, ws, entry, at);
      }
    }
  }

  lemma HistoryStepMember(history: seq<Entry>, e: Event, ws: string, entry: Entry)
    ensures entry in HistoryStep(history, e, ws) <==>
            (entry in history && !Supersedes(e, ws, KeyOf(entry))) || (e.Record? && e.ws == ws && e.entry == entry)
  {
    hide KeyOf, EntryKey;
  }

  lemma {:induction false} HistoryDistinct(events: seq<Event>, ws: string)
    requires Runs(events)
    ensures DistinctKeys(History(events, ws))
    decreases |events|
  {
    if events != [] {
      var before, e := events[..|events| - 1], events[|events| - 1];
      HistoryDistinct(before, ws);
      StepDistinct(History(before, ws), e, ws);
      EmptyDistinct();
      hide DistinctKeys, HistoryStep, Loses;
    }
  }

  lemma StepDistinct(history: seq<Entry>, e: Event, ws: string)
    requires DistinctKeys(history)
    ensures DistinctKeys(HistoryStep(history, e, ws))
  {
    match e
    case Record(w, entry, _) =>
      OthersDistinct(history, KeyOf(entry));
      OneMoreDistinct(entry, Others(history, KeyOf(entry)));
      hide DistinctKeys, Others;
    case Forget(w, kind, id) =>
      OthersDistinct(history, EntryKey(kind, id));
      hide DistinctKeys, Others;
    case Prune(_) =>
  }

  lemma OneMoreDistinct(entry: Entry, rest: seq<Entry>)
    requires DistinctKeys(rest) && forall x :: x in rest ==> KeyOf(x) != KeyOf(entry)
    ensures DistinctKeys([entry] + rest)
  {
    hide KeyOf;
    forall i | 0 <= i < |rest| ensures KeyOf(rest[i]) != KeyOf(entry) {
      assert rest[i] in rest;
    }
  }

  /** It is ordered by the latest visit. */
  lemma {:induction false} HistoryOrder(events: seq<Event>, ws: string, i: nat, j: nat) returns (a: nat, b: nat)
    requires Runs(events) && i < j < |History(events, ws)|
    ensures LatestVisit(events, ws, History(events, ws)[i], a) && LatestVisit(events, ws, History(events, ws)[j], b)
    ensures a > b
    decreases |events|
  {
    var n := |events| - 1;
    var before, e, h := events[..n], events[n], History(events, ws);
    var h0 := History(before, ws);
    LostLast(events, ws);
    hide LatestVisit, LostAt, Loses, HistoryStep, Supersedes;
    StepOrigin(h0, e, ws, j);
    if e.Record? && e.ws == ws && i == 0 {
      a := n;
      HistoryMembers(before, ws, h[j]);
      b :| LatestVisit(before, ws, h[j], b);
      StepHead(h0, e, ws);
    } else {
      StepOrigin(h0, e, ws, i);
      var p, q := StepOrder(h0, e, ws, i, j);
      a, b := HistoryOrder(before, ws, p, q);
    }
    LatestPush(events, ws, h[i], a);
    LatestPush(events, ws, h[j], b);
  }

  lemma StepHead(history: seq<Entry>, e: Event, ws: string)
    requires e.Record? && e.ws == ws
    ensures HistoryStep(history, e, ws) != [] && HistoryStep(history, e, ws)[0] == e.entry
  {
  }

  /** Whatever is listed but a fresh visit was listed before. */
  lemma StepOrigin(history: seq<Entry>, e: Event, ws: string, i: nat)
    requires i < |HistoryStep(history, e, ws)| && (e.Record? && e.ws == ws ==> i > 0)
    ensures HistoryStep(history, e, ws)[i] in history && !Supersedes(e, ws, KeyOf(HistoryStep(history, e, ws)[i]))
  {
    hide KeyOf, EntryKey;
    match e
    case Record(w, entry, _) =>
      if w == ws {
        var tail := Others(history, KeyOf(entry));
        assert tail[i - 1] in tail;
      }
    case Forget(w, kind, id) =>
      if w == ws {
        var tail := Others(history, EntryKey(kind, id));
        assert tail[i] in tail;
      }
    case Prune(_) =>
  }

  lemma StepOrder(history: seq<Entry>, e: Event, ws: string, i: nat, j: nat) returns (p: nat, q: nat)
    requires i < j < |HistoryStep(history, e, ws)| && (e.Record? && e.ws == ws ==> i > 0)
    ensures p < q < |history|
    ensures history[p] == HistoryStep(history, e, ws)[i] && history[q] == HistoryStep(history, e, ws)[j]
  {
    hide KeyOf, EntryKey;
    if e.Record? && e.ws == ws {
      p, q := OthersOrder(history, KeyOf(e.entry), i - 1, j - 1);
    } else if e.Forget? && e.ws == ws {
      p, q := OthersOrder(history, EntryKey(e.kind, e.id), i, j);
    } else {
      p, q := i, j;
    }
  }

  lemma {:induction false} OthersOrder(xs: seq<Entry>, key: string, i: nat, j: nat) returns (p: nat, q: nat)
    requires i < j < |Others(xs, key)|
    ensures p < q < |xs| && xs[p] == Others(xs, key)[i] && xs[q] == Others(xs, key)[j]
  {
    hide KeyOf;
    if KeyOf(xs[0]) == key {
      p, q := OthersOrder(xs[1..], key, i, j);
      p, q := p + 1, q + 1;
    } else if i == 0 {
      var kept := Others(xs[1..], key);
      assert kept[j - 1] in kept;
      p := 0;
      var k :| 0 <= k < |xs[1..]| && xs[1..][k] == kept[j - 1];
      q := k + 1;
    } else {
      p, q := OthersOrder(xs[1..], key, i - 1, j - 1);
      p, q := p + 1, q + 1;
    }
  }

  /** Truncating before a visit loses nothing the truncation after it would keep. */
  lemma TakeOthers(xs: seq<Entry>, e: Entry, n: nat)
    requires n > 0 && DistinctKeys(xs)
    ensures Take([e] + Others(Take(xs, n), KeyOf(e)), n) == Take([e] + Others(xs, KeyOf(e)), n)
  {
    TakeIs(xs, n);
    hide Take, KeyOf, Others;
    if |xs| > n {
      var head, rest, key := xs[..n], xs[n..], KeyOf(e);
      assert xs == head + rest;
      DistinctFront(xs, n);
      OthersConcat(head, rest, key);
      DropsAtMostOne(head, key);
      hide DistinctKeys;
      assert [e] + (Others(head, key) + Others(rest, key)) == ([e] + Others(head, key)) + Others(rest, key);
      TakeFront([e] + Others(head, key), Others(rest, key), n);
    }
  }

  lemma TakeIs(xs: seq<Entry>, n: nat)
    ensures Take(xs, n) == if |xs| <= n then xs else xs[..n]
  {
  }

  lemma DistinctFront(xs: seq<Entry>, n: nat)
    requires DistinctKeys(xs) && n <= |xs|
    ensures DistinctKeys(xs[..n])
  {
    hide KeyOf;
  }

  lemma OthersConcat(a: seq<Entry>, b: seq<Entry>, key: string)
    ensures Others(a + b, key) == Others(a, key) + Others(b, key)
  {
    FilterConcat(x => KeyOf(x) != key, a, b);
  }

  lemma TakeFront(a: seq<Entry>, b: seq<Entry>, n: nat)
    requires |a| >= n
    ensures Take(a + b, n) == Take(a, n)
  {
  }

  lemma {:induction false} DropsAtMostOne(xs: seq<Entry>, key: string)
    requires DistinctKeys(xs)
    ensures |Others(xs, key)| >= |xs| - 1
  {
    hide KeyOf;
    if xs != [] {
      if KeyOf(xs[0]) == key {
        forall x | x in xs[1..] ensures KeyOf(x) != key {
          var i :| 0 <= i < |xs[1..]| && xs[1..][i] == x;
          assert xs[i + 1] == x;
        }
        FilterAll(x => KeyOf(x) != key, xs[1..]);
      } else {
        assert DistinctKeys(xs[1..]);
        DropsAtMostOne(xs[1..], key);
      }
    }
  }

  /** What one event does to a workspace's bucket. */
  lemma StepBucket(s: Buckets, e: Event, ws: string)
    requires Possible(s, e)
    ensures BucketOf(Step(s, e), ws) ==
            if Loses(s, e, ws) then []
            else
              match e
              case Record(w, entry, _) =>
                if w == ws then Take([entry] + Others(BucketOf(s, ws), KeyOf(entry)), MAX_RECENT_CONTEXTS) else BucketOf(s, ws)
              case Forget(w, kind, id) =>
                if w == ws then Others(BucketOf(s, ws), EntryKey(kind, id)) else BucketOf(s, ws)
              case Prune(_) => BucketOf(s, ws)
  {
    match e
    case Record(w, entry, ids) => RecordBucket(s, w, entry, ids, ws); hide Take, Others, Recorded;
    case Forget(w, kind, id) => ForgetBucket(s, w, kind, id, ws); hide Others, Forgotten;
    case Prune(_) =>
  }

  lemma RecordBucket(s: Buckets, w: string, entry: Entry, ids: seq<string>, ws: string)
    requires KeyOrder(Visited(s, w, entry), ids)
    ensures var next := Recorded(s, w, entry, ids);
            && (ws in next && w == ws ==>
                  BucketOf(next, ws) == Take([entry] + Others(BucketOf(s, ws), KeyOf(entry)), MAX_RECENT_CONTEXTS))
            && (ws in next && w != ws ==> BucketOf(next, ws) == BucketOf(s, ws))
            && (ws !in next && ws !in s && w != ws ==> BucketOf(s, ws) == BucketOf(next, ws) == [])
  {
    hide Take, Others, Oldest;
  }

  lemma {:induction false} ForgetBucket(s: Buckets, w: string, kind: ContextType, id: string, ws: string)
    ensures BucketOf(Forgotten(s, w, kind, id), ws) ==
            if w == ws then Others(BucketOf(s, ws), EntryKey(kind, id)) else BucketOf(s, ws)
  {
    SameLength(BucketOf(s, w), EntryKey(kind, id));
    hide EntryKey, Filter;
  }

  lemma {:induction false} SameLength(bucket: seq<Entry>, key: string)
    ensures |Others(bucket, key)| == |bucket| ==> Others(bucket, key) == bucket
    ensures |Others(bucket, key)| <= |bucket|
  {
    hide KeyOf;
    if bucket != [] {
      SameLength(bucket[1..], key);
    }
  }

  lemma OthersPrefix(xs: seq<Entry>, ys: seq<Entry>, key: string)
    requires xs <= ys
    ensures Others(xs, key) <= Others(ys, key)
  {
    assert ys == xs + ys[|xs|..];
    FilterConcat(x => KeyOf(x) != key, xs, ys[|xs|..]);
  }

  /** After any run a workspace's bucket is the beginning of its history. */
  lemma {:induction false} BucketIsPrefixOfHistory(events: seq<Event>, ws: string)
    requires Runs(events)
    ensures BucketOf(Run(events), ws) <= History(events, ws)
    decreases |events|
  {
    if events != [] {
      var before, e := events[..|events| - 1], events[|events| - 1];
      BucketIsPrefixOfHistory(before, ws);
      StepBucket(Run(before), e, ws);
      hide Step, Loses, Take, Others, Possible;
      match e
      case Record(w, entry, _) => OthersPrefix(BucketOf(Run(before), ws), History(before, ws), KeyOf(entry));
      case Forget(w, kind, id) => OthersPrefix(BucketOf(Run(before), ws), History(before, ws), EntryKey(kind, id));
      case Prune(_) =>
    }
  }

  ghost predicate NothingForgotten(events: seq<Event>, ws: string) {
    forall e :: e in events ==> !(e.Forget? && e.ws == ws)
  }

  /** When nothing of it was forgotten by hand, it is exactly the first twenty entries. */
  lemma {:induction false} BucketIsFirstTwenty(events: seq<Event>, ws: string)
    requires Runs(events) && NothingForgotten(events, ws)
    ensures BucketOf(Run(events), ws) ==
            if |History(events, ws)| <= 20 then History(events, ws) else History(events, ws)[..20]
    decreases |events|
  {
    if events != [] {
      var before, e := events[..|events| - 1], events[|events| - 1];
      assert e in events && forall x :: x in before ==> x in events;
      BucketIsFirstTwenty(before, ws);
      StepBucket(Run(before), e, ws);
      HistoryDistinct(before, ws);
      if e.Record? {
        TakeOthers(History(before, ws), e.entry, MAX_RECENT_CONTEXTS);
      }
      hide Step, Loses, Others, Possible, DistinctKeys;
    }
  }

  /** Forgetting an entry takes out that one alone: the entries before and after it stay, in order. */
  lemma ForgettingKeepsOthers(s: Buckets, ws: string, before: seq<Entry>, e: Entry, after: seq<Entry>)
    requires ws in s && s[ws] == before + [e] + after && DistinctKeys(s[ws])
    ensures BucketOf(Forgotten(s, ws, e.kind, e.id), ws) == before + after
    ensures forall w :: w != ws ==> BucketOf(Forgotten(s, ws, e.kind, e.id), w) == BucketOf(s, w)
  {
    var key := KeyOf(e);
    forall w ensures w != ws ==> BucketOf(Forgotten(s, ws, e.kind, e.id), w) == BucketOf(s, w) {
      ForgetBucket(s, ws, e.kind, e.id, w);
    }
    ForgetBucket(s, ws, e.kind, e.id, ws);
    hide Forgotten;
    forall x | x in before || x in after ensures KeyOf(x) != key {
      var all := before + [e] + after;
      if x in before {
        var i :| 0 <= i < |before| && before[i] == x;
        assert all[i] == x && all[|before|] == e;
      } else {
        var i :| 0 <= i < |after| && after[i] == x;
        assert all[|before| + 1 + i] == x && all[|before|] == e;
      }
    }
    hide DistinctKeys;
    var keep := (x: Entry) => KeyOf(x) != key;
    FilterConcat(keep, before + [e], after);
    FilterConcat(keep, before, [e]);
    FilterAll(keep, before);
    FilterAll(keep, after);
    FilterNone(keep, [e]);
    assert before + [] == before;
  }
}
