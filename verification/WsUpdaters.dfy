/** The issue events from the server, replayed over every cached list of a workspace. */
module WsUpdaters {
  import opened Common
  import opened IssueBuckets
  import opened QueryCache
  import opened DeleteCache
  import opened IssueMutations

  function AddData(data: Data, issue: Issue): Data {
    match data
    case Buckets(c) => Buckets(AddIssueToBuckets(c, issue))
    case _ => data
  }

  function StepData(data: Data, e: Event): Data {
    match data
    case Buckets(c) => Buckets(Step(c, e))
    case _ => data
  }

  /** The list entries of a workspace. */
  function ListsOf(d: Store, ws: string): (r: Store)
    ensures forall k :: k in r <==> k in d && IsList(ws, k)
    ensures forall k :: k in r ==> r[k] == d[k]
  {
    map k | k in d && IsList(ws, k) :: d[k]
  }

  function StepLists(lists: Store, e: Event): (r: Store)
    ensures r.Keys == lists.Keys
    ensures forall k :: k in lists ==> r[k] == StepData(lists[k], e)
  {
    map k | k in lists :: StepData(lists[k], e)
  }

  /** The parent the cache knew before the event. */
  function OldParent(d: Store, order: seq<Key>, ws: string, id: string): Option<string> {
    KnownParent(d, order, ws, id)
  }

  function NewParent(patch: Patch): Option<string> {
    if patch.parentId.Some? then patch.parentId.value else None
  }

  predicate ParentChanged(patch: Patch, oldParent: Option<string>) {
    patch.parentId.Some? && NewParent(patch) != oldParent
  }

  method OnIssueCreated(qc: QueryClient, ws: string, issue: Issue)
    requires qc.Valid()
    modifies qc
    ensures qc.Valid()
    ensures ListsOf(qc.data, ws) == StepLists(ListsOf(old(qc.data), ws), IssueCreated(issue))
    ensures Get(qc.data, DetailKey(ws, issue.id)) == Some(One(issue))
    ensures forall k :: !IsList(ws, k) && k != DetailKey(ws, issue.id) ==> Get(qc.data, k) == Get(old(qc.data), k)
  {
    hide UpdatedAt, Under, ListsOf, StepLists;
    qc.SetQueryData(DetailKey(ws, issue.id), Some(One(issue)));
    CreateComposes(old(qc.data), qc.order, ws, issue, qc.data);
    UnderNoDup(k => IsList(ws, k), qc.order);
    UpdateEach(qc, Under(k => IsList(ws, k), qc.order), x => AddData(x, issue));
  }

  lemma CreateComposes(d: Store, order: seq<Key>, ws: string, issue: Issue, now: Store)
    requires now == d[DetailKey(ws, issue.id) := One(issue)] && forall k :: k in now ==> k in order
    ensures var r := UpdatedAt(now, Under(k => IsList(ws, k), order), x => AddData(x, issue));
            && ListsOf(r, ws) == StepLists(ListsOf(d, ws), IssueCreated(issue))
            && Get(r, DetailKey(ws, issue.id)) == Some(One(issue))
            && forall k :: !IsList(ws, k) && k != DetailKey(ws, issue.id) ==> Get(r, k) == Get(d, k)
  {
    hide UpdatedAt, AddData, StepData, Under;
    var r := UpdatedAt(now, Under(k => IsList(ws, k), order), x => AddData(x, issue));
    forall k | IsList(ws, k) ensures Get(r, k) == StepEntry(d, IssueCreated(issue), k) {
      CreateEntry(d, order, ws, issue, now, k);
    }
    ListsFromEntries(d, r, ws, IssueCreated(issue));
    forall k | !IsList(ws, k) ensures Get(r, k) == CreatedEntry(d, ws, issue, k) {
      CreateEntry(d, order, ws, issue, now, k);
    }
  }

  function StepEntry(d: Store, e: Event, k: Key): Option<Data> {
    if k in d then Some(StepData(d[k], e)) else None
  }

  lemma ListsFromEntries(d: Store, r: Store, ws: string, e: Event)
    requires forall k :: IsList(ws, k) ==> Get(r, k) == StepEntry(d, e, k)
    ensures ListsOf(r, ws) == StepLists(ListsOf(d, ws), e)
  {
    hide StepData;
    var a, b := ListsOf(r, ws), StepLists(ListsOf(d, ws), e);
    forall k ensures k in a <==> k in b
      ensures k in a ==> a[k] == b[k]
    {
      assert IsList(ws, k) ==> Get(r, k) == StepEntry(d, e, k);
    }
  }

  function CreatedEntry(d: Store, ws: string, issue: Issue, k: Key): Option<Data> {
    if k == DetailKey(ws, issue.id) then Some(One(issue))
    else if IsList(ws, k) && k in d then Some(AddData(d[k], issue))
    else Get(d, k)
  }

  lemma CreateEntry(d: Store, order: seq<Key>, ws: string, issue: Issue, now: Store, k: Key)
    requires now == d[DetailKey(ws, issue.id) := One(issue)] && forall k :: k in now ==> k in order
    ensures Get(UpdatedAt(now, Under(k => IsList(ws, k), order), x => AddData(x, issue)), k) == CreatedEntry(d, ws, issue, k)
    ensures IsList(ws, k) ==> CreatedEntry(d, ws, issue, k) == StepEntry(d, IssueCreated(issue), k)
  {
    hide AddIssueToBuckets;
  }

  /** The store after an update event. */
  function WithUpdate(d: Store, ws: string, id: string, patch: Patch, oldParent: Option<string>): Store {
    var children := if ParentChanged(patch, oldParent) then None else oldParent;
    UpdatedStore(d, ws, id, patch, children)
  }

  method OnIssueUpdated(qc: QueryClient, ws: string, id: string, patch: Patch)
    requires qc.Valid()
    modifies qc
    ensures qc.Valid() && qc.order == old(qc.order)
    ensures qc.data == WithUpdate(old(qc.data), ws, id, patch, OldParent(old(qc.data), old(qc.order), ws, id))
    ensures ListsOf(qc.data, ws) == StepLists(ListsOf(old(qc.data), ws), IssueUpdated(id, patch))
    ensures var oldParent := OldParent(old(qc.data), old(qc.order), ws, id);
            UpdateShows(old(qc.data), qc.data, ws, id, patch,
                        if patch.parentId.Some? && patch.parentId.value != oldParent then None else oldParent)
  {
    hide UpdateShows, UpdatedStore, UpdatedAt, UpdatedOne, Under, KnownParent, ListsOf, StepLists;
    var oldParent := OldParent(qc.data, qc.order, ws, id);
    var changed := ParentChanged(patch, oldParent);
    UpdateComposes(qc.data, qc.order, ws, id, patch, if changed then None else oldParent);
    UpdateSteps(qc.data, ws, id, patch, if changed then None else oldParent);
    UpdatedStoreShows(qc.data, ws, id, patch, if changed then None else oldParent);
    UnderNoDup(k => IsList(ws, k), qc.order);
    UpdateEach(qc, Under(k => IsList(ws, k), qc.order), x => PatchData(x, id, patch));
    UpdateOne(qc, DetailKey(ws, id), x => MergeDetail(x, patch));
    if Truthy(oldParent) && !changed {
      UpdateOne(qc, ChildrenKey(ws, oldParent.value), x => MergeChildren(x, {id}, patch));
    }
  }

  lemma UpdateSteps(d: Store, ws: string, id: string, patch: Patch, parentId: Option<string>)
    ensures ListsOf(UpdatedStore(d, ws, id, patch, parentId), ws) == StepLists(ListsOf(d, ws), IssueUpdated(id, patch))
  {
    hide PatchIssueInBuckets, MergeDetail, MergeChildren;
  }

  method OnIssueDeleted(qc: QueryClient, ws: string, id: string) returns (parents: seq<string>)
    requires qc.Valid()
    modifies qc
    ensures qc.Valid() && IsMetadata(old(qc.data), ws, id, parents)
    ensures qc.data == CleanedUp(old(qc.data), ws, id, parents)
    ensures ListsOf(qc.data, ws) == StepLists(ListsOf(old(qc.data), ws), IssueDeleted(id))
  {
    hide CleanedUp, IsMetadata, ListsOf, StepLists;
    parents := CleanupDeletedIssueCaches(qc, ws, id, None);
    DeleteSteps(old(qc.data), ws, id, parents);
  }

  lemma DeleteSteps(d: Store, ws: string, id: string, parents: seq<string>)
    ensures ListsOf(CleanedUp(d, ws, id, parents), ws) == StepLists(ListsOf(d, ws), IssueDeleted(id))
  {
    hide CleanedUp, StepEntry;
    forall k | IsList(ws, k) ensures Get(CleanedUp(d, ws, id, parents), k) == StepEntry(d, IssueDeleted(id), k) {
      CleanedList(d, ws, id, parents, k);
    }
    ListsFromEntries(d, CleanedUp(d, ws, id, parents), ws, IssueDeleted(id));
  }

  lemma CleanedList(d: Store, ws: string, id: string, parents: seq<string>, k: Key)
    requires IsList(ws, k)
    ensures Get(CleanedUp(d, ws, id, parents), k) == StepEntry(d, IssueDeleted(id), k)
  {
    hide RemoveIssueFromBuckets, OwnKeys;
    OwnKeysListed(ws, id, k);
  }

  // ---------------------------------------------------------------------------
  // Every cached list over a run of events
  // ---------------------------------------------------------------------------

  function RunLists(lists: Store, events: seq<Event>): (r: Store)
    decreases |events|
  {
    if events == [] then lists else RunLists(StepLists(lists, events[0]), events[1..])
  }

  lemma {:induction false} RunPerList(lists: Store, events: seq<Event>, k: Key)
    requires k in lists && lists[k].Buckets?
    ensures k in RunLists(lists, events) && RunLists(lists, events)[k] == Buckets(Run(lists[k].lists, events))
    decreases |events|
  {
    hide Step;
    if events != [] {
      RunPerList(StepLists(lists, events[0]), events[1..], k);
    }
  }

  /** Every list stays well-formed and keeps, per status, what the server has beyond what is loaded. */
  lemma EveryListStaysWellFormed(lists: Store, events: seq<Event>, k: Key)
    requires k in lists && lists[k].Buckets? && WellFormed(lists[k].lists)
    requires CreationsAllowed(View(lists[k].lists), events)
    ensures k in RunLists(lists, events) && RunLists(lists, events)[k].Buckets?
    ensures var before, after := lists[k].lists, RunLists(lists, events)[k].lists;
            WellFormed(after) && forall s :: Remainder(after, s) == Remainder(before, s)
  {
    hide View, WellFormed, CreationsAllowed, Run;
    RunPerList(lists, events, k);
    RunRefinesMap(lists[k].lists, events);
  }

  /** Two lists that show the same issues, sorted differently, keep showing the same issues. */
  lemma ListsAgree(lists: Store, events: seq<Event>, a: Key, b: Key)
    requires a in lists && b in lists && lists[a].Buckets? && lists[b].Buckets?
    requires WellFormed(lists[a].lists) && WellFormed(lists[b].lists) && View(lists[a].lists) == View(lists[b].lists)
    requires CreationsAllowed(View(lists[a].lists), events)
    ensures var r := RunLists(lists, events);
            a in r && b in r && r[a].Buckets? && r[b].Buckets? && View(r[a].lists) == View(r[b].lists)
  {
    hide View, WellFormed, CreationsAllowed, Run;
    RunPerList(lists, events, a);
    RunPerList(lists, events, b);
    RunRefinesMap(lists[a].lists, events);
    RunRefinesMap(lists[b].lists, events);
  }
}
