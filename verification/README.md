# Client state of a collaboration workspace

The web and mobile clients keep local state that must stay right while server data, optimistic edits and
WebSocket events arrive in any order. This project models that state and the code that changes it, and
proves what the code is for: caches that agree with a plain map, timelines whose threads are a partition,
mentions that never lose text, streams that converge, rollbacks that are exact.

## How the model is laid out

- **Mention composer.** `MentionSerialize` pairs a sentinel-marked draft with its ordered markers and prints
  markdown links; `MentionLinks` reads the printed text back. `MentionInput` is the editing session that produces such drafts.
- **Timeline.** `Timeline` holds the entries. `TimelineThread` is the breadth-first bundling, with
  `ThreadSearch` (when the search returns, what it visits) and `ThreadRows` (what the rows show) about it.
  `TimelineCoalesce` merges neighbouring activities. `TimelineCache` is the sort, the created comment and the
  delete cascade on the cached list; `CascadeThreads` connects the cascade with the threads.
- **Issue caches.** `IssueBuckets` is the per-status cache and the map it refines, `LoadMore` its paging.
  `QueryCache` is the store of keyed entries with snapshots. `IssueMutations`, `DeleteCache` and
  `WsUpdaters` are the optimistic mutations, the cleanup after a deletion and the event handlers over it.
  `GanttWalk` is the page walk of the project view.
- **Event-driven machines.** `TaskMessages` (streamed task output), `ChatPending` (pending task and chat
  messages), `WsClient` (reconnecting socket), `Analytics` with `PageviewPath`, `WorkspaceStorage`.
- **Derived views and recency lists.** `Inbox`, `ViewedIssues`, `RecentContexts`.
- **Shared vocabulary.** `Common`, `StableSort` and `OrderedAppend` (append unless present, then sort).

Code that changes state is a class or a method with loops, proved against a function of the old state
(`Step`, `Run` or the name of the operation); the theorems are then about those functions, over every input or every run.
The query cache is a map from structured keys to data, and an updater that returns undefined changes
nothing. WebSocket events, timers and microtasks are steps that may come in any order. The clock, the server's
replies and the key order of an object are parameters. A handler that is one branch of its machine has that
branch as its contract and no row of its own below; the table lists what is proved about them, and the methods
with loops or several steps.

## What turned out not to hold as documented

- `timeline-thread.ts` promises that the rows show as many entries as came in. With unique comment ids this
  is so exactly when the parent links have no cycle (`ThreadRows.BundlingIsPartition`, failing input `ThreadRows.CycleIsNotShown`); with repeated ids the
  search may never return (`ThreadSearch.DuplicateIdNeverReturns`, exact condition `TimelineThread.HaltsExactly`).
- `addIssueToBuckets` looks for a duplicate in the target bucket only, so adding keeps ids unique exactly when
  the id is not shown from another bucket (`IssueBuckets.AddKeepsWellFormed`). After a deletion the flattened
  list loses the issue exactly when one bucket held it (`DeleteCache.RemovalHidesIssue`).
- An issue parked in the unpaginated cancelled bucket cannot be brought back by a later patch
  (`IssueBuckets.ParkedStaysParked`).
- "Load more" asks for the page after the number of loaded issues, so it ends with everything loaded exactly
  when the loaded part has no gap. A created issue opens one unless the server sorts it right there
  (`LoadMore.PressingCompletesExactly`, `LoadMore.CreatedIssueOpensGapUnlessNext`).
- A comment in `analytics/index.ts` says the first pageview before initialization is kept; the code keeps the
  last (`Analytics.LastPendingPageviewWins`, exact condition `Analytics.EarlierPageviewKeptExactly`). Events
  replayed after a late initialization carry the user of that moment (`Analytics.LateInitStampsLaterUser`,
  exact condition `Analytics.LateInitChangesNothingExactly`).
- The inbox groups items by an empty issue id while the archive patch ignores it
  (exact condition for both effects: `Inbox.ArchiveCommutesWithView`, `Inbox.ArchiveHidesRowExactly`).
- Coalescing twice can merge further when the timeline is out of time order
  (`TimelineCoalesce.SecondPassMergesOutOfOrder`, exact condition `TimelineCoalesce.CoalescingTwiceExactly`).
- `ws-client.ts` keeps one connection only if nothing could reconnect when `connect` is called from outside;
  after a second `connect` the first socket outlives `disconnect` (`WsClient.ConnectKeepsSingleExactly`,
  `WsClient.DisconnectQuietsExactly`, `WsClient.DoubleConnectOutlivesDisconnect`).

## Model

| member | source | states |
|---|---|---|
| `MentionSerialize.SerializeMentions` | apps/mobile/lib/mention-serialize.ts:122-175 | The print loop returns the rendering of the pieces the scan finds, for every text and marker list; the scan is the independent grammar the next rows are about |
| `MentionSerialize.LinksExactlyWhenTokensMatch` | apps/mobile/lib/mention-serialize.ts:108-175 | Markers are linked, each once and in order, if and only if the words of the marked runs are exactly the marker names; otherwise nothing is linked |
| `MentionSerialize.SerializingKeepsText` | apps/mobile/lib/mention-serialize.ts:108-175 | Turning every printed link back into `@name` gives the draft without sentinels, whatever the text and markers with sentinel-free names |
| `MentionSerialize.SerializingDropsSentinels` | apps/mobile/lib/mention-serialize.ts:122-175 | No sentinel survives in the printed text when names and ids have none |
| `MentionSerialize.PrintsPlain` | apps/mobile/lib/mention-serialize.ts:127-173 | Both plain-text exits: on a mismatch the text without sentinels, on a text without sentinels the text itself |
| `MentionSerialize.SpacedNameFallsBack` | apps/mobile/lib/mention-serialize.ts:148-173 | A marker whose name has white space forces the plain-text fallback for the whole draft |
| `MentionLinks.LinkReadsBackExactly` | apps/mobile/lib/mention-serialize.ts:161-167 | A reader that knows the link syntax and the type words only finds the marker's own kind, id and name in its printed link, if and only if name and id leave that syntax room |
| `MentionLinks.PrintedReadsBack` | apps/mobile/lib/mention-serialize.ts:108-175 | What is printed is read back, for text without `[` and such markers: the mentions read are the kinds, ids and names of all markers in order, or none on a mismatch, and the text read is the draft without sentinels |
| `MentionLinks.ReadLink` | packages/views/editor/extensions/mention-extension.ts:50-60 | A link is read only where the text starts with one: a non-empty label without `]`, a non-empty id without `)`, and less text left than before |
| `MentionInput.TokenAtCursor` | apps/mobile/lib/mention-serialize.ts:47-78 | The backward walk finds the `@` run before the caret with the text up to the caret as its query, and reports none only if no position qualifies |
| `MentionInput.StepKeepsAnchor` | apps/mobile/lib/use-mention-input.ts:115-213 | Every event that edits after the last mention keeps the invariant that the earlier text holds exactly the markers' tokens and ends at a word boundary |
| `MentionInput.SessionLinksEveryMention` | apps/mobile/lib/use-mention-input.ts:115-218 | After any run of such events every marked run prints as its own marker's link, in order, with no fallback |
| `MentionInput.AppendOnlySessionLinks` | apps/mobile/lib/use-mention-input.ts:115-218 | In particular from the empty draft when text is only appended and mentions are picked at the end |
| `MentionInput.InsertBeforeMentions` | apps/mobile/lib/use-mention-input.ts:156-172 | Picking a mention before existing ones keeps the draft linkable if and only if all later runs carry that very name |
| `MentionInput.PickingReplacesQuery` | apps/mobile/lib/use-mention-input.ts:115-172 | The whole gesture wherever the caret is: the button, a typed query and the pick replace the query, and nothing else, by the marked name and a space, append the marker and leave the caret behind it |
| `MentionInput.QueryFollowsCaret` | apps/mobile/lib/use-mention-input.ts:115-136 | After every change of text or caret the draft has exactly the new text or caret, and the open query is the one the text has at the caret |
| `MentionInput.ButtonsOnlyAdd` | apps/mobile/lib/use-mention-input.ts:174-213 | The formatting buttons replace the selection or prefix its line; everything else of text and markers stays |
| `TimelineThread.CollectDescendants` | apps/mobile/lib/timeline-thread.ts:63-80 | On exactly the inputs where the queue empties, the loop returns the breadth-first list below the parent |
| `TimelineThread.BuildTimelineRows` | apps/mobile/lib/timeline-thread.ts:37-87 | One row per top-level entry in order, each with its breadth-first replies, from the two grouping loops and the searches |
| `TimelineThread.HaltsExactly` | apps/mobile/lib/timeline-thread.ts:63-80 | The search below an id ends if and only if the id lies in no set in which every id has a reply inside the set |
| `TimelineThread.TopLevelExactly` | apps/mobile/lib/timeline-thread.ts:41-61 | An entry heads a row unless it is a comment whose non-empty parent id is that of a comment of the batch |
| `ThreadSearch.TopLevelHalts` | apps/mobile/lib/timeline-thread.ts:48-80 | With unique comment ids the search below every top-level comment ends, cycles elsewhere or not |
| `ThreadSearch.AcyclicHalts` | apps/mobile/lib/timeline-thread.ts:63-80 | With unique ids and no cycle it ends below every comment |
| `ThreadSearch.DuplicateIdNeverReturns` | apps/mobile/lib/timeline-thread.ts:41-80 | Two comments sharing an id, one replying to it, make the search run forever |
| `ThreadSearch.RepliesClosed` | apps/mobile/lib/timeline-thread.ts:63-80 | The listed entries are exactly the nested comments whose parent was visited |
| `ThreadSearch.ParentBefore` | apps/mobile/lib/timeline-thread.ts:70-79 | Each listed reply hangs from an id visited no later than it |
| `ThreadSearch.VisitedNoDup` | apps/mobile/lib/timeline-thread.ts:63-80 | No id is visited twice below a top-level comment |
| `ThreadSearch.SiblingsInOrder` | apps/mobile/lib/timeline-thread.ts:63-80 | In a row the replies to one comment are all its replies in the timeline, in timeline order |
| `ThreadSearch.BreadthFirstUnique` | apps/mobile/lib/timeline-thread.ts:63-80 | There is at most one breadth-first list below a root, so the relation the search is proved against determines what it returns |
| `ThreadSearch.ListedHalts` | apps/mobile/lib/timeline-thread.ts:70-78 | Where such a list exists the search ends |
| `ThreadRows.RowsUnique` | apps/mobile/lib/timeline-thread.ts:37-87 | A timeline has at most one bundling |
| `ThreadRows.OneRow` | apps/mobile/lib/timeline-thread.ts:82-86 | Two rows that list the same comment have the same head |
| `ThreadRows.RepliesDistinct` | apps/mobile/lib/timeline-thread.ts:82-86 | No reply is shown twice, within a row or across rows |
| `ThreadRows.AllShownIffAcyclic` | apps/mobile/lib/timeline-thread.ts:37-87 | Every reply is shown if and only if parent links have no cycle |
| `ThreadRows.BundlingIsPartition` | apps/mobile/lib/timeline-thread.ts:37-87 | The rows' entries with their replies are a permutation of the input if and only if parent links have no cycle |
| `ThreadRows.CycleIsNotShown` | apps/mobile/lib/timeline-thread.ts:37-87 | The failing input: two comments naming each other as parent have unique ids, and the one bundling shows neither |
| `ThreadRows.RowIsDescendants` | apps/mobile/lib/timeline-thread.ts:63-87 | An id is in a row if and only if a chain of replies links it to the row's head |
| `TimelineCoalesce.CoalesceTimeline` | apps/mobile/lib/timeline-coalesce.ts:29-58 | The loop returns, for every maximal run of mergeable neighbours, its last entry with the run's accumulated count |
| `TimelineCoalesce.BlocksCutTheInput` | apps/mobile/lib/timeline-coalesce.ts:33-56 | The runs are contiguous, cover the input in order, and neighbouring runs cannot be joined |
| `TimelineCoalesce.CutIsUnique` | apps/mobile/lib/timeline-coalesce.ts:33-56 | That is the only such cut |
| `TimelineCoalesce.CutBetweenActivities` | apps/mobile/lib/timeline-coalesce.ts:25-53 | Neighbours share a run if and only if they are activities with the same action and actor, no evaluation by the squad leader, and at most 120000 ms apart unless a task completed or failed |
| `TimelineCoalesce.RunShowsItsLast` | apps/mobile/lib/timeline-coalesce.ts:46-56 | On input without counts a run shows its last entry with its length as the count, a run of one as it came |
| `TimelineCoalesce.CountsAddUp` | apps/mobile/lib/timeline-coalesce.ts:33-56 | On input without counts the counts sum to the input length |
| `TimelineCoalesce.UnchangedIffNothingToMerge` | apps/mobile/lib/timeline-coalesce.ts:29-58 | The output equals the input if and only if no two neighbours are mergeable, and is shorter otherwise |
| `TimelineCoalesce.CoalescingTwiceExactly` | apps/mobile/lib/timeline-coalesce.ts:29-58 | For every input a second pass changes nothing if and only if the last entries of no two neighbouring runs could be merged |
| `TimelineCoalesce.CoalescingIsIdempotent` | apps/mobile/lib/timeline-coalesce.ts:29-58 | Which is always so on timelines ascending by time |
| `TimelineCoalesce.SecondPassMergesOutOfOrder` | apps/mobile/lib/timeline-coalesce.ts:25-58 | The failing input: a timeline out of time order on which a second pass does merge |
| `StableSort.SortOrders` | packages/core/issues/timeline-sort.ts:14-22 | Sorting leaves no element after one it comes before |
| `StableSort.SortPermutes` | packages/core/issues/timeline-sort.ts:14-22 | Sorting keeps every element with its multiplicity |
| `StableSort.SortIsStable` | packages/core/inbox/queries.ts:48-58 | Elements that tie keep their relative order |
| `StableSort.FilterSort` | packages/core/inbox/queries.ts:48-58 | Filtering and sorting commute for every filter |
| `TimelineCache.EntryOrder` | packages/core/issues/timeline-sort.ts:14-22 | The order by creation time and then id is a strict weak order, in which only entries equal in both tie |
| `TimelineCache.OrderedIsOldestFirst` | packages/core/issues/timeline-sort.ts:14-22 | A list ordered so never has an earlier time after a later one, and at equal times ids ascend by the first code unit that differs or by being a prefix |
| `TimelineCache.SortTimelineEntriesAsc` | packages/core/issues/timeline-sort.ts:14-22 | The array ends up oldest first and at equal times ascending by id, code unit by code unit; a permutation of what it held, entries equal in both in their old order |
| `TimelineCache.TimelineCache.OnCommentCreated` | packages/core/issues/mutations.ts:607-629 | Nothing changes if the id is cached; otherwise the list holds what it held and the comment, oldest first. A missing list becomes the comment alone |
| `TimelineCache.CreatedCommentsConverge` | packages/core/issues/mutations.ts:607-629 | The same comments arriving in any order and any number of times leave the same timeline |
| `TimelineCache.CollectRemovals` | packages/core/issues/mutations.ts:677-696 | The fixpoint loop ends for every entry order and parent graph with the least set that holds the comment and is closed under replies |
| `TimelineCache.TimelineCache.OnDeleteMutate` | packages/core/issues/mutations.ts:673-700 | The cached list loses exactly that set, in order, and the snapshot is the old list |
| `TimelineCache.SurvivorsKeepParents` | packages/core/issues/mutations.ts:677-698 | No surviving entry has a removed parent |
| `TimelineCache.TimelineCache.DeleteThenFail` | packages/core/issues/mutations.ts:673-705 | A failed deletion leaves the timeline as it was |
| `CascadeThreads.CascadeIsThread` | packages/core/issues/mutations.ts:677-698 | Where the thread search below a loaded comment returns, the cascade is that comment and the ids the search lists |
| `CascadeThreads.TopLevelSurvives` | packages/core/issues/mutations.ts:677-698 | A deletion promotes no reply to the top level and moves no top-level entry |
| `CascadeThreads.ThreadSurvives` | packages/core/issues/mutations.ts:677-698 | Below a comment that stays, the search ends again and its one result is the old list less the removed replies |
| `CascadeThreads.DeletionKeepsOtherRows` | apps/mobile/lib/timeline-thread.ts:37-87 | After the deletion every search ends, and the one bundling of the survivors is the old rows without the removed head and replies |
| `OrderedAppend.AppendAllMembers` | packages/core/issues/mutations.ts:624-628 | After any deliveries the list is strictly ascending and holds exactly what was cached or received |
| `OrderedAppend.DeliveriesConverge` | packages/core/realtime/use-realtime-sync.ts:792-800 | Two deliveries of the same values leave the same list |
| `TaskMessages.TaskMessageCache.OnTaskMessage` | packages/core/realtime/use-realtime-sync.ts:792-800 | Nothing changes if the number is there; otherwise the task's list holds what it held and the message, ascending by number, and no other list changes |
| `TaskMessages.RunPerTask` | packages/core/realtime/use-realtime-sync.ts:792-800 | Tasks do not interfere: each list depends on its own task's events only |
| `TaskMessages.StreamsConverge` | packages/core/realtime/use-realtime-sync.ts:792-800 | Two event sequences with the same messages, any order and repetition, leave the same cache, each list strictly ascending with exactly the received messages |
| `IssueBuckets.FindAmong` | packages/core/issues/cache-helpers.ts:27-37 | The search returns a bucket that holds the id, and none only if no searched bucket does |
| `IssueBuckets.ViewShows` | packages/core/issues/queries.ts:99-110 | In a well-formed cache the flattened list and the map from id to issue show the same issues, once each |
| `IssueBuckets.FlattenInColumnOrder` | packages/core/issues/queries.ts:100-110 | The flattened list is the backlog, todo, in-progress, in-review, done and blocked issues, in this order and each once |
| `IssueBuckets.AddKeepsWellFormed` | packages/core/issues/cache-helpers.ts:40-50 | Adding keeps ids unique and statuses matching if and only if the id is not shown from another bucket |
| `IssueBuckets.AddIsInsert` | packages/core/issues/cache-helpers.ts:40-50 | Adding is map insertion unless present, and the not-yet-loaded remainder of every status stays |
| `IssueBuckets.RemoveIsDelete` | packages/core/issues/cache-helpers.ts:53-64 | Removing is map deletion, and every remainder stays |
| `IssueBuckets.PatchIsMerge` | packages/core/issues/cache-helpers.ts:71-100 | Patching is map merge, or deletion when the new status is unpaginated, and every remainder stays |
| `IssueBuckets.PatchedViewShowsPatch` | packages/core/issues/cache-helpers.ts:71-100 | After a patch the issue shows the patch's value for every property it gives and its own old value for every other, or is gone if cancelled; every other issue is as before |
| `IssueBuckets.PatchKeepsOrder` | packages/core/issues/cache-helpers.ts:71-100 | A patched issue keeps its place or goes last in the bucket of its new status; all others keep bucket and order |
| `IssueBuckets.CreatedGoesLast` | packages/core/issues/cache-helpers.ts:40-50 | A created issue goes last in the bucket of its status and no other bucket changes |
| `IssueBuckets.PatchIsIdempotent` | packages/core/issues/cache-helpers.ts:71-100 | The same patch twice leaves the whole cache as once |
| `IssueBuckets.PatchesCommute` | packages/core/issues/cache-helpers.ts:71-100 | Patches to two ids commute on the view and on the total of every status, cancelled included |
| `IssueBuckets.ParkedStaysParked` | packages/core/issues/cache-helpers.ts:27-100 | An issue patched into the unpaginated bucket leaves the view and no later patch reaches it |
| `IssueBuckets.RunRefinesMap` | packages/core/issues/ws-updaters.ts:14-102 | Over every run of created, updated and deleted events with allowed creations the cache stays well-formed, its view is the run on the plain map, and no remainder changes |
| `IssueBuckets.ClampNeverActs` | packages/core/issues/cache-helpers.ts:59-64 | After every such run a bucket that holds an issue counts at least one, so the clamp at zero never acts |
| `LoadMore.PagedList.OnReply` | packages/core/issues/mutations.ts:100-109 | The reply is merged into what the entry holds by then: known ids skipped, order kept, total replaced, no entry created |
| `LoadMore.PagedList.PressLoadMore` | packages/core/issues/mutations.ts:89-112 | Request and reply together: one press on the status's bucket, no other bucket touched |
| `LoadMore.LoadKeepsGapsExactly` | packages/core/issues/mutations.ts:93-109 | Loading a page neither opens nor closes a gap in the loaded part |
| `LoadMore.PressesLoadInOrder` | packages/core/issues/mutations.ts:83-112 | From a loaded beginning each press loads the next fifty issues in the server's order until all are loaded |
| `LoadMore.LoadingCompletesExactly` | packages/core/issues/mutations.ts:93-109 | Loading page after page ends with every server issue loaded if and only if the loaded part had no gap |
| `LoadMore.PressingCompletesExactly` | packages/core/issues/mutations.ts:83-112 | From any cached bucket and count: while more is offered, presses end complete if and only if there is no gap; a bucket that offers nothing stays as it is |
| `LoadMore.GapNeverFinishes` | packages/core/issues/mutations.ts:83-109 | With a gap the button is offered after any number of loads |
| `LoadMore.CreatedIssueOpensGapUnlessNext` | packages/core/issues/cache-helpers.ts:40-50 | Appending a created issue keeps the part gapless if and only if the server sorts it directly after it |
| `QueryCache.UpdateEach` | packages/core/issues/mutations.ts:232-236 | Updating the queries under a prefix one by one changes exactly their data and creates none |
| `QueryCache.RestoreSnapshots` | packages/core/issues/mutations.ts:268-282 | Writing snapshots back in order, empty ones changing nothing |
| `QueryCache.RestoringIsExact` | packages/core/issues/mutations.ts:268-282 | Snapshots undo every write that created no entry and changed only snapshotted ones |
| `IssueMutations.UpdateOnMutate` | packages/core/issues/mutations.ts:217-267 | The context is the snapshot of the old cache. Lists, detail entry and the known parent's children show the patch's value for every property it gives and the old one for every other; nothing else changes |
| `IssueMutations.KnownParentIs` | packages/core/issues/mutations.ts:234-237 | The parent is the one the detail entry names; without a detail entry the one in the first list |
| `IssueMutations.UpdateReachesChildren` | packages/core/issues/mutations.ts:238-267 | While all entries agree on the issue's parent, the children entry that is patched is any that lists the issue, even if neither detail entry nor list names the parent |
| `IssueMutations.UpdateRollsBack` | packages/core/issues/mutations.ts:217-282 | For every cache, `onError` after `onMutate` gives back every entry |
| `IssueMutations.UpdateThenFail` | packages/core/issues/mutations.ts:217-282 | The two callbacks in sequence leave the cache data as it was |
| `IssueMutations.DeleteOnMutate` | packages/core/issues/mutations.ts:335-363 | Parents are collected from the old cache and the issue pruned from lists, my-lists and their children entries |
| `IssueMutations.DeletedIsGone` | packages/core/issues/mutations.ts:335-363 | Afterwards the detail entry is gone, no list and no children entry of a named parent shows the issue, and nothing else changed |
| `IssueMutations.DeleteRollsBack` | packages/core/issues/mutations.ts:335-383 | Writing the deletion's snapshots back gives the old cache |
| `IssueMutations.DeleteThenFail` | packages/core/issues/mutations.ts:335-383 | A failed deletion leaves the cache data as it was, the removed detail entry included |
| `IssueMutations.BatchUpdateOnMutate` | packages/core/issues/mutations.ts:410-440 | Lists and children entries show the patch on exactly the listed ids, property by property, and nothing else changes; the context is the snapshot of the old cache |
| `IssueMutations.PatchAllShows` | packages/core/issues/mutations.ts:417-425 | Patching id after id shows the patch on exactly the listed ids |
| `IssueMutations.BatchUpdateRollsBack` | packages/core/issues/mutations.ts:410-452 | Writing the batch snapshots back gives the old cache |
| `IssueMutations.BatchUpdateThenFail` | packages/core/issues/mutations.ts:410-452 | A failed batch update leaves the cache data as it was |
| `IssueMutations.CollectBatchMetadata` | packages/core/issues/mutations.ts:486-497 | Each id gets its parents from the cache, and the batch's parents are their union, each once |
| `IssueMutations.BatchDeleteOnMutate` | packages/core/issues/mutations.ts:481-523 | All ids are pruned with their own metadata, after snapshots of everything that is going to change |
| `IssueMutations.BatchDeletedAreGone` | packages/core/issues/mutations.ts:499-523 | Afterwards no list and no children entry of a named parent shows any of the issues; the others keep their order |
| `IssueMutations.BatchDeleteOnSuccess` | packages/core/issues/mutations.ts:541-571 | A full success cleans up after every id, a partial one writes the snapshots back |
| `IssueMutations.CleanedUpAreGone` | packages/core/issues/mutations.ts:541-571 | After a full success exactly the entries of the deleted issues are gone, and no list shows any of them |
| `IssueMutations.BatchDeleteRollsBack` | packages/core/issues/mutations.ts:481-571 | Failure and partial success both give back every entry |
| `IssueMutations.BatchDeleteThenFail` | packages/core/issues/mutations.ts:481-540 | A failed batch deletion leaves the cache data as it was |
| `IssueMutations.BatchDeletePartially` | packages/core/issues/mutations.ts:541-565 | A partially successful one too |
| `DeleteCache.CollectDeletedIssueCacheMetadata` | packages/core/issues/delete-cache.ts:41-73 | The collected parents are exactly the non-empty ids that some detail, list, my-list or children entry names as the issue's parent |
| `DeleteCache.PruneDeletedIssueFromListCaches` | packages/core/issues/delete-cache.ts:75-95 | Every list and my-list entry loses the issue and no other entry changes |
| `DeleteCache.PruneDeletedIssueFromParentChildrenCaches` | packages/core/issues/delete-cache.ts:97-108 | Exactly the children entries of the collected parents lose the issue |
| `DeleteCache.CleanupDeletedIssueCaches` | packages/core/issues/delete-cache.ts:148-181 | With fresh or given metadata the cache becomes the cleaned-up one |
| `DeleteCache.RemovalFiltersFlattened` | packages/core/issues/delete-cache.ts:75-95 | The flattened list loses exactly the issue, the rest unchanged and in order, if and only if at most one visible bucket held it |
| `DeleteCache.RemovalHidesIssue` | packages/core/issues/delete-cache.ts:75-95 | The issue is gone from the flattened list if and only if at most one visible bucket held it |
| `DeleteCache.CleanupIsComplete` | packages/core/issues/delete-cache.ts:148-181 | After the cleanup the issue's own entries are gone, no children entry of a named parent lists it, and everything else is as before |
| `DeleteCache.EmptyParentIsSkipped` | packages/core/issues/delete-cache.ts:18-23 | A children entry under the empty parent id is left alone |
| `WsUpdaters.OnIssueCreated` | packages/core/issues/ws-updaters.ts:14-38 | Every list takes the creation step, the detail entry is the issue, nothing else changes |
| `WsUpdaters.OnIssueUpdated` | packages/core/issues/ws-updaters.ts:40-102 | Every list takes the update step. Lists, detail entry and the known parent's children show the patch property by property, the children only if the event does not change the parent; nothing else changes |
| `WsUpdaters.OnIssueDeleted` | packages/core/issues/ws-updaters.ts:173-182 | Every list takes the deletion step by way of the cleanup with collected parents |
| `WsUpdaters.RunPerList` | packages/core/issues/ws-updaters.ts:14-182 | Over every run each list entry evolves on its own as the bucket cache does |
| `WsUpdaters.EveryListStaysWellFormed` | packages/core/issues/ws-updaters.ts:14-182 | Over every run each list stays well-formed and keeps every remainder |
| `WsUpdaters.ListsAgree` | packages/core/issues/ws-updaters.ts:14-182 | Two lists that show the same issues, sorted differently, go on showing the same issues |
| `GanttWalk.FetchProjectGanttIssues` | packages/core/issues/queries.ts:301-318 | Against arbitrary replies: 1 to 20 requests, everything they brought in order, going on exactly until a reply stops it |
| `GanttWalk.WalkIsPrefix` | packages/core/issues/queries.ts:292-318 | Over a fixed project with a true total the walk is its first 10000 issues in order, and only the first page can be empty |
| `GanttWalk.FetchFromFixedProject` | packages/core/issues/queries.ts:292-318 | The loop itself returns its first 10000 issues, and asks for a page of 500 after the first only if there is one |
| `ChatPending.ChatCache.ApplyChatDoneToCache` | packages/core/realtime/use-realtime-sync.ts:92-131 | The message is added to list and pages unless known, absent entries stay absent, and the pending task is cleared |
| `ChatPending.PendingIsLatestQueued` | packages/core/realtime/use-realtime-sync.ts:861-979 | Over every trace a task is pending if and only if the latest `task:queued` named it and nothing ended it since, or it was pending initially and nothing was queued or ended; its status is that of its own latest stage event |
| `ChatPending.StaleStageChangesNothing` | packages/core/realtime/use-realtime-sync.ts:881-929 | A stage event for any other task leaves the whole cache as it is |
| `ChatPending.PendingKeepsItsStart` | packages/core/realtime/use-realtime-sync.ts:861-979 | Over every trace the pending task's start time is the initial one until something ends the task, and none after that |
| `ChatPending.PatchIsFreshAppend` | packages/core/realtime/use-realtime-sync.ts:133-150 | Patching the pages is appending to page 0 what no page holds |
| `ChatPending.RunMessages` | packages/core/realtime/use-realtime-sync.ts:92-131 | Over every trace the message list is the initial one with the delivered messages appended once each |
| `ChatPending.MessagesAreAnswers` | packages/core/realtime/use-realtime-sync.ts:92-131 | Over every trace the list is the old one followed by messages with the very id, text, task and times of some `chat:done` of the session, and every such payload is listed under its id |
| `ChatPending.DeliveredAnswers` | packages/core/realtime/use-realtime-sync.ts:104-118 | The delivered messages are exactly those payloads that carry an id and content, `now` standing in for a missing time |
| `ChatPending.RunPages` | packages/core/realtime/use-realtime-sync.ts:92-150 | Over every trace only page 0 grows, by the delivered messages no page holds |
| `ChatPending.FreshIds` | packages/core/realtime/use-realtime-sync.ts:92-150 | Which ids end up in the list: those it had and those delivered that the other pages lack |
| `ChatPending.AtMostOneCopy` | packages/core/realtime/use-realtime-sync.ts:92-150 | Unique ids stay unique, in the list and across all pages |
| `ChatPending.ReplayAddsNothing` | packages/core/realtime/use-realtime-sync.ts:104-131 | Replaying delivered messages in any order and number, mixed with other events, leaves list and pages as without the replay |
| `WsClient.StepKeepsSingle` | packages/core/api/ws-client.ts:60-156 | Every step, with outside connects only while idle, keeps at most one of live socket and armed timer |
| `WsClient.ConnectKeepsSingleExactly` | packages/core/api/ws-client.ts:60-74 | An outside connect keeps that if and only if nothing could reconnect before it |
| `WsClient.RunKeepsSingle` | packages/core/api/ws-client.ts:60-156 | The invariant holds over every such run |
| `WsClient.OneConnectStaysSingle` | packages/core/realtime/provider.tsx:99-106 | In every run with the provider's single connect at most one of a live socket and an armed timer exists |
| `WsClient.StepKeepsTrying` | packages/core/api/ws-client.ts:60-124 | No step but a disconnect leaves a connected client with neither a live socket nor an armed timer |
| `WsClient.OneConnectKeepsTrying` | packages/core/realtime/provider.tsx:99-106 | In every run between the provider's connect and its disconnect there is exactly one of the two |
| `WsClient.DisconnectQuietsExactly` | packages/core/api/ws-client.ts:140-152 | A disconnect leaves nothing that can reconnect if and only if the two fields named everything that could |
| `WsClient.DisconnectIsFinal` | packages/core/api/ws-client.ts:140-156 | After it no step but an outside connect ever opens a socket |
| `WsClient.DoubleConnectOutlivesDisconnect` | packages/core/api/ws-client.ts:60-156 | Two connects, one disconnect: a concrete run in which the first socket reconnects afterwards |
| `WsClient.CallsBackOnEveryReconnect` | packages/core/api/ws-client.ts:126-156 | In every run each authentication calls every callback registered then, except the first since construction or the last disconnect, which calls none |
| `WsClient.RunAuthenticates` | packages/core/api/ws-client.ts:76-103 | In every run the client authenticates once per opened socket that has no token to send first, and once per acknowledgement |
| `PageviewPath.NormalizationIsIdempotent` | packages/core/analytics/index.ts:319-341 | Normalizing a normalized path changes nothing |
| `PageviewPath.SameSection` | packages/core/analytics/index.ts:319-341 | Two paths normalize alike if and only if they keep the same segments once queries, fragments and resource ids are dropped |
| `PageviewPath.SegmentsOfPrinted` | packages/core/analytics/index.ts:333-341 | Splitting the printed path gives back the segments it was printed from |
| `PageviewPath.CleanIsPrefix` | packages/core/analytics/index.ts:335 | Only what follows the first `?` or `#` is dropped |
| `PageviewPath.ResourceExactly` | packages/core/analytics/index.ts:319-320 | A segment names a resource if and only if it is 8-4-4-4-12 hexadecimal digits, or an upper-case key, a dash and digits |
| `PageviewPath.KeptGrows` | packages/core/analytics/index.ts:336-340 | The first segment stays and each later one goes exactly if it names a resource |
| `Analytics.AnalyticsModule.InitAnalytics` | packages/core/analytics/index.ts:124-192 | The first effective call starts the library and flushes the pending identity, pageview and operations in that order |
| `Analytics.AnalyticsModule.DrainPendingOps` | packages/core/analytics/index.ts:180-192 | The buffer is emptied oldest first, each operation once |
| `Analytics.EveryOpToldOnce` | packages/core/analytics/index.ts:124-276 | In every reset-free session each event and person update is told exactly once, in order, under its name and with the caller's properties, or still waits |
| `Analytics.LateInitIsTransparent` | packages/core/analytics/index.ts:124-276 | Moving initialization behind any calls leaves the same operations in the same order, up to the stamped user id |
| `Analytics.SessionTells` | packages/core/analytics/index.ts:124-276 | What any session with one initialization tells: the buffer under the user known then, the rest under the user known at each call |
| `Analytics.LateInitChangesNothingExactly` | packages/core/analytics/index.ts:124-295 | Moving the initialization leaves every transmission as it is if and only if each event that takes the user's stamp would take the same one at either moment |
| `Analytics.LateInitStampsLaterUser` | packages/core/analytics/index.ts:278-295 | The failing input: an event buffered before a login is sent under the user who logged in |
| `Analytics.CallerPropertiesKept` | packages/core/analytics/index.ts:278-295 | The caller's own properties always win; exactly the schema version, the environment, the demo flag and a known user are added, with their values |
| `Analytics.ResetForgets` | packages/core/analytics/index.ts:216-230 | A reset before initialization makes the session equal to one without what came before; after it the buffers are empty |
| `Analytics.SessionAnnounces` | packages/core/analytics/index.ts:124-230 | What any session with one initialization starts, registers and identifies: the client's properties, the last identity that waited and every later one in order, and after every reset the properties again |
| `Analytics.SuperPropertiesAre` | packages/core/analytics/index.ts:157-164 | The registered properties are the client type, schema version, environment, demo flag and, if given, the app version |
| `Analytics.InitializesInOrder` | packages/core/analytics/index.ts:149-191 | The initialization tells the properties, the identity, the pageview and the buffered operations in this order |
| `Analytics.SessionReports` | packages/core/analytics/index.ts:358-367 | Which pageviews any session reports, between its resets: the last one that waited, then each one asked for, in order, once, unless it repeats the url reported just before |
| `Analytics.NothingReportedBefore` | packages/core/analytics/index.ts:358-363 | Without an effective initialization the library is told nothing |
| `Analytics.NoRepeatedPageviews` | packages/core/analytics/index.ts:358-367 | In every session no two successive pageviews between resets carry the same path, and every path is in normal form |
| `Analytics.LastPageviewWaits` | packages/core/analytics/index.ts:358-367 | Over any calls before the initialization the waiting pageview is the last one asked for |
| `Analytics.LastPendingPageviewWins` | packages/core/analytics/index.ts:173-178 | And it is the only pageview the initialization sends |
| `Analytics.EarlierPageviewKeptExactly` | packages/core/analytics/index.ts:173-178 | An earlier pageview, the first in particular, is the one sent if and only if it is reported under the same url |
| `WorkspaceStorage.NamespacedInjective` | packages/core/platform/workspace-storage.ts:106-117 | For colon-free slugs two stored keys are equal only for the same key and slug |
| `WorkspaceStorage.SlugsCollideExactly` | packages/core/platform/workspace-storage.ts:106-117 | Some keys of two slugs share a stored key if and only if one slug ends with a colon and the other |
| `WorkspaceStorage.ColonSlugsCollide` | packages/core/platform/workspace-storage.ts:106-117 | With a colon in a slug two workspaces can share a stored key |
| `WorkspaceStorage.WorkspaceModule.RunNotify` | packages/core/platform/workspace-storage.ts:42-52 | Every subscriber is told the slug that is current when the microtask runs |
| `WorkspaceStorage.WorkspaceModule.RunRehydrate` | packages/core/platform/workspace-storage.ts:53-63 | Every registered store reads its own key again, under the slug current then |
| `WorkspaceStorage.StorageRefinesWorlds` | packages/core/platform/workspace-storage.ts:34-117 | Over every interleaving of switches, reads, writes and removes a read gives what the active workspace's own independent map holds |
| `WorkspaceStorage.OtherWorldsUntouched` | packages/core/platform/workspace-storage.ts:106-117 | A workspace that is never made active keeps its map |
| `WorkspaceStorage.RehydrationReadsOwnWorld` | packages/core/platform/workspace-storage.ts:53-63 | What each store reads is what the active workspace's own map holds under its key |
| `WorkspaceStorage.DrainedIsUpToDate` | packages/core/platform/workspace-storage.ts:34-94 | Over every run, once microtasks have drained, each subscriber was last told the current slug and each store last read under it, unless the slug is still the one it joined under |
| `WorkspaceStorage.FollowersAre` | packages/core/platform/workspace-storage.ts:86-99 | Over every run the subscribers are exactly those who joined and did not leave since, and every registered store stays registered |
| `WorkspaceStorage.OutsidersHearNothing` | packages/core/platform/workspace-storage.ts:42-52 | Who is not subscribed is not called |
| `WorkspaceStorage.LatestSwitchIsCurrent` | packages/core/platform/workspace-storage.ts:34-75 | Slug and workspace id are those of the latest switch, an id given again under the same slug included |
| `Inbox.DeduplicateInboxItems` | packages/core/inbox/queries.ts:38-59 | The grouping and sorting loops return the view: one representative per key, newest first, ties in order of first appearance |
| `Inbox.RowIsFirstNewest` | packages/core/inbox/queries.ts:48-53 | A row shows the newest item of its group, and of equally new ones the first |
| `Inbox.ViewIsOneRowPerKey` | packages/core/inbox/queries.ts:38-59 | The rows are newest first, one for every key of an active item and no other |
| `Inbox.DeduplicationIsIdempotent` | packages/core/inbox/queries.ts:38-59 | Deduplicating the rows gives the rows |
| `Inbox.InboxCache.ArchiveOnMutate` | packages/core/inbox/mutations.ts:34-48 | The target and every item of its issue are archived; the snapshot is the old list |
| `Inbox.ArchiveMarksExactly` | packages/core/inbox/mutations.ts:34-48 | Exactly the target and the items of its non-empty issue id become archived; order and everything else stay |
| `Inbox.InboxCache.ArchiveThenFail` | packages/core/inbox/mutations.ts:34-52 | A failed archiving leaves the inbox as it was |
| `Inbox.ArchiveCommutesWithView` | packages/core/inbox/mutations.ts:34-48 | Deduplicating after archiving equals dropping the target's row from the deduplicated list, every other row keeping its item and place, if and only if the patch reaches the target's group |
| `Inbox.ArchiveHidesRowExactly` | packages/core/inbox/mutations.ts:34-48 | The target's row goes away under the same condition: its issue id is not empty or no other active item shares the empty id |
| `ViewedIssues.HistoryMembers` | apps/mobile/data/viewed-issues-store.ts:36-52 | The untruncated history lists an id if and only if it was pushed and not removed since |
| `ViewedIssues.HistoryOrder` | apps/mobile/data/viewed-issues-store.ts:36-52 | It is ordered by most recent push |
| `ViewedIssues.HistoryNoDup` | apps/mobile/data/viewed-issues-store.ts:36-52 | It has no repetition |
| `ViewedIssues.ListIsPrefixOfHistory` | apps/mobile/data/viewed-issues-store.ts:36-52 | After any run the stored list is the start of that history, at most ten long |
| `ViewedIssues.ListIsFirstTen` | apps/mobile/data/viewed-issues-store.ts:36-41 | After pushes alone it is exactly the first ten |
| `ViewedIssues.RemovalKeepsOthers` | apps/mobile/data/viewed-issues-store.ts:42-52 | A removal takes out the one place of the id; the rest of the list and every other workspace stay |
| `RecentContexts.RecentContextStore.RecordVisit` | packages/core/chat/recent-context-store.ts:40-74 | The visit goes to the front of its bucket, cut at twenty, and one workspace is dropped beyond fifty |
| `RecentContexts.RecentContextStore.PruneWorkspaces` | packages/core/chat/recent-context-store.ts:90-101 | Exactly the workspaces still active stay |
| `RecentContexts.EntryKeyInjective` | packages/core/chat/recent-context-store.ts:32-34 | Keys tell issues from projects and ids from each other |
| `RecentContexts.ReachableIsBounded` | packages/core/chat/recent-context-store.ts:40-101 | Every reachable state has at most fifty workspaces, no empty bucket, at most twenty distinct entries in each |
| `RecentContexts.HistoryMembers` | packages/core/chat/recent-context-store.ts:40-89 | The untruncated history of a workspace holds an entry if and only if it was recorded, with the data of that visit, and neither visited again nor forgotten since |
| `RecentContexts.HistoryOrder` | packages/core/chat/recent-context-store.ts:40-52 | It is ordered by latest visit |
| `RecentContexts.HistoryDistinct` | packages/core/chat/recent-context-store.ts:42-52 | It names nothing twice |
| `RecentContexts.BucketIsPrefixOfHistory` | packages/core/chat/recent-context-store.ts:40-101 | Over every run the bucket is the start of the history since the workspace was last evicted or pruned |
| `RecentContexts.BucketIsFirstTwenty` | packages/core/chat/recent-context-store.ts:40-74 | If nothing was forgotten it is exactly the first twenty |
| `RecentContexts.ForgettingKeepsOthers` | packages/core/chat/recent-context-store.ts:75-89 | Forgetting takes out the one entry; the others keep their places, data and order |
| `RecentContexts.EvictionDropsOldest` | packages/core/chat/recent-context-store.ts:54-73 | Only beyond the limit, only one workspace goes, none has an older head, and never the visited one when another head is strictly older |
| `RecentContexts.EvictedHeadIsOldest` | packages/core/chat/recent-context-store.ts:54-73 | The evicted workspace is one whose newest visit is no later than that of any other |
| `RecentContexts.VisitStaysExactly` | packages/core/chat/recent-context-store.ts:54-73 | The visited workspace survives its visit if and only if the limit is kept or another workspace goes first, by an older head or at equal times by an earlier key |
| `RecentContexts.VisitCanBeEvicted` | packages/core/chat/recent-context-store.ts:54-73 | So when every other head is later, the visited workspace is the one that goes, whatever the key order |

## Left out

- HTTP requests, headers, response parsing and fallbacks, and everything React: rendering, effects, memoized
  closures. The composer's events are taken one after the other with a render in between.
- Network replies that race with cache writes: `cancelQueries`, refetching, and `invalidateQueries` as a
  mark. Rollback is proved for callbacks with no write in between.
- The composer's raw text and selection setters and its snapshot and restore.
- Debounced refreshing of the task prefix, which keeps only the last payload of a window.
- Assignee-grouped entries, which share the my-list prefix: my-list entries are bucketed here.
- The recent-issues store, inbox badges on update events, label and metadata handlers.
- First-page fetching, the union of a user's three relations, grouping by assignee and the chunked loading of
  children: loops without a property across steps.
- Marking inbox items read, archiving all, and the mutations that only refetch.
- WebSocket message dispatch, handler registration by type, URL parameters, and callbacks that throw or
  re-enter the client.
- Rehydration and persistence of the recency stores, the environment name's normalization, the signup source.
- IssueMutations.UpdateThenFail: states that the data of every entry is restored; the creation order of queries, and queries without data, are not part of it.
- IssueMutations.DeleteThenFail: as for the update; a removed detail query comes back as a new query with the old data.
- TimelineCache.SortTimelineEntriesAsc: the library sort is modelled by what it guarantees for a consistent comparator, through a stable insertion sort. The comparator in the source answers 1, not 0, for two entries equal in time and id; they are a tie here, so the model does not say in which order the library leaves such a pair.
- TimelineCache.EntryOrder: as above, for two entries equal in time and id.
- WsUpdaters.OnIssueUpdated: when the parent changes the source invalidates both parents' children entries, which the model does not do.
- Dates are integers in milliseconds, texts are sequences of code units, and strings compare code unit by code unit.
- MentionLinks.PrintedReadsBack: the serializer escapes nothing, so it is stated for drafts without `[` and for names and ids that leave the link syntax room. `MentionLinks.LinkReadsBackExactly` says which markers those are. The reader leaves out the tokenizer's backslash escapes.
- RecentContexts.BucketIsFirstTwenty: requires a run that forgets nothing of the workspace; with forgetting the bucket is a prefix of the history (`RecentContexts.BucketIsPrefixOfHistory`) that may be shorter than twenty, because truncated entries do not come back.
- ViewedIssues.ListIsFirstTen: requires a history without removals; with removals the list is a prefix of the history (`ViewedIssues.ListIsPrefixOfHistory`) that may be shorter than ten, because truncated ids do not come back.
