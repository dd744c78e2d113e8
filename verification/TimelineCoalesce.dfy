/** Coalescing runs of like activities in a timeline. */
module TimelineCoalesce {
  import opened Common
  import opened Timeline

  /** Two minutes, in milliseconds. */
  const COALESCE_MS := 120000
  const NO_TIME_LIMIT_ACTIONS := {"task_completed", "task_failed"}
  const NEVER_COALESCE_ACTIONS := {"squad_leader_evaluated"}

  function ActionName(e: Entry): string {
    if e.action.Some? then e.action.value else ""
  }

  function CountOf(e: Entry): int {
    if e.coalescedCount.Some? then e.coalescedCount.value else 1
  }

  function Distance(a: int, b: int): nat {
    if a < b then b - a else a - b
  }

  /** The same action by the same actor, close enough in time. */
  predicate Mergeable(prev: Entry, e: Entry) {
    && e.kind == Activity
    && ActionName(e) !in NEVER_COALESCE_ACTIONS
    && prev.kind == Activity
    && prev.action == e.action
    && prev.actorType == e.actorType
    && prev.actorId == e.actorId
    && (ActionName(e) in NO_TIME_LIMIT_ACTIONS || Distance(e.createdAt, prev.createdAt) <= COALESCE_MS)
  }

  // ---------------------------------------------------------------------------
  // Blocks
  // ---------------------------------------------------------------------------

  type Block = b: seq<Entry> | b != [] witness [Entry(Activity, "", "", "", 0, None, None, None, "")]

  function Last(entries: Block): Entry {
    entries[|entries| - 1]
  }

  /** The maximal runs in which every entry can be merged into the one before it. */
  function Blocks(entries: seq<Entry>): (blocks: seq<Block>)
    ensures blocks == [] <==> entries == []
    ensures entries != [] ==> Last(blocks[|blocks| - 1]) == Last(entries)
  {
    if entries == [] then []
    else Push(Blocks(entries[..|entries| - 1]), entries[|entries| - 1])
  }

  /** One more entry: it joins the last block or opens a new one. */
  function Push(blocks: seq<Block>, e: Entry): (r: seq<Block>)
    ensures r != [] && Last(r[|r| - 1]) == e
  {
    if blocks != [] && Mergeable(Last(blocks[|blocks| - 1]), e) then
      blocks[..|blocks| - 1] + [blocks[|blocks| - 1] + [e]]
    else blocks + [[e]]
  }

  function Flatten(blocks: seq<Block>): seq<Entry> {
    if blocks == [] then [] else Flatten(blocks[..|blocks| - 1]) + blocks[|blocks| - 1]
  }

  /** The entry shown for a block: the last one, counting the whole block. */
  function Shown(block: Block): Entry {
    if |block| == 1 then block[0]
    else Last(block).(coalescedCount := Some(CountOf(block[0]) + |block| - 1))
  }

  function ShownAll(blocks: seq<Block>): seq<Entry> {
    Map(Shown, blocks)
  }

  ghost predicate IsRun(block: Block) {
    forall i :: 0 < i < |block| ==> Mergeable(block[i - 1], block[i])
  }

  /** Neighbouring blocks do not join. */
  ghost predicate Apart(blocks: seq<Block>) {
    forall i :: 0 < i < |blocks| ==> !Mergeable(Last(blocks[i - 1]), blocks[i][0])
  }

  // ---------------------------------------------------------------------------
  // The algorithm
  // ---------------------------------------------------------------------------

  method CoalesceTimeline(entries: seq<Entry>) returns (out: seq<Entry>)
    ensures out == ShownAll(Blocks(entries))
  {
    hide Blocks, ShownAll;
    out := [];
    ShownStart(entries);
    for i := 0 to |entries|
      invariant out == ShownAll(Blocks(entries[..i]))
    {
      var entry := entries[i];
      PushEntry(entries, i);
      if entry.kind == Activity && |out| > 0 {
        var prev := out[|out| - 1];
        if && ActionName(entry) !in NEVER_COALESCE_ACTIONS
           && prev.kind == Activity
           && prev.action == entry.action
           && prev.actorType == entry.actorType
           && prev.actorId == entry.actorId
           && (ActionName(entry) in NO_TIME_LIMIT_ACTIONS || Distance(entry.createdAt, prev.createdAt) <= COALESCE_MS)
        {
          out := out[|out| - 1 := entry.(coalescedCount := Some(CountOf(prev) + 1))];
          continue;
        }
      }
      out := out + [entry];
    }
    assert entries[..|entries|] == entries;
  }

  lemma ShownStart(entries: seq<Entry>)
    ensures ShownAll(Blocks(entries[..0])) == []
  {
  }

  lemma BlocksPush(entries: seq<Entry>, e: Entry)
    ensures Blocks(entries + [e]) == Push(Blocks(entries), e)
  {
    assert (entries + [e])[..|entries|] == entries;
  }

  /** What one more entry does to the shown list. */
  function PushShown(out: seq<Entry>, e: Entry): seq<Entry> {
    if out != [] && Mergeable(out[|out| - 1], e)
    then out[|out| - 1 := e.(coalescedCount := Some(CountOf(out[|out| - 1]) + 1))]
    else out + [e]
  }

  lemma ShownPush(blocks: seq<Block>, e: Entry)
    ensures ShownAll(Push(blocks, e)) == PushShown(ShownAll(blocks), e)
  {
    if blocks != [] {
      ShownLast(blocks[|blocks| - 1], e);
    }
  }

  lemma ShownLast(block: Block, e: Entry)
    ensures Mergeable(Shown(block), e) <==> Mergeable(Last(block), e)
    ensures Shown(block + [e]) == e.(coalescedCount := Some(CountOf(Shown(block)) + 1))
  {
  }

  lemma PushEntry(entries: seq<Entry>, i: nat)
    requires i < |entries|
    ensures ShownAll(Blocks(entries[..i + 1])) == PushShown(ShownAll(Blocks(entries[..i])), entries[i])
  {
    hide Blocks, Push, PushShown, ShownAll;
    assert entries[..i + 1] == entries[..i] + [entries[i]];
    BlocksPush(entries[..i], entries[i]);
    ShownPush(Blocks(entries[..i]), entries[i]);
  }

  // ---------------------------------------------------------------------------
  // What the blocks are
  // ---------------------------------------------------------------------------

  /** The blocks cut the input, in order, exactly where an entry cannot join the one before it. */
  lemma {:induction false} BlocksCutTheInput(entries: seq<Entry>)
    ensures Flatten(Blocks(entries)) == entries
    ensures forall i :: 0 <= i < |Blocks(entries)| ==> IsRun(Blocks(entries)[i])
    ensures Apart(Blocks(entries))
  {
    hide Mergeable, Push, IsRun, Apart;
    if entries == [] {
      NoBlocks();
    } else {
      var init := entries[..|entries| - 1];
      BlocksCutTheInput(init);
      PushCuts(Blocks(init), entries[|entries| - 1]);
    }
  }

  lemma NoBlocks()
    ensures Apart([])
  {
  }

  lemma PushCuts(blocks: seq<Block>, e: Entry)
    requires Apart(blocks) && forall i :: 0 <= i < |blocks| ==> IsRun(blocks[i])
    ensures Flatten(Push(blocks, e)) == Flatten(blocks) + [e]
    ensures Apart(Push(blocks, e)) && forall i :: 0 <= i < |Push(blocks, e)| ==> IsRun(Push(blocks, e)[i])
  {
    if blocks != [] && Mergeable(Last(blocks[|blocks| - 1]), e) {
      JoinCuts(blocks, e);
    } else {
      OpenCuts(blocks, e);
    }
    hide Mergeable, Flatten, Apart, IsRun;
  }

  lemma JoinCuts(blocks: seq<Block>, e: Entry)
    requires Apart(blocks) && forall i :: 0 <= i < |blocks| ==> IsRun(blocks[i])
    requires blocks != [] && Mergeable(Last(blocks[|blocks| - 1]), e)
    ensures var r := blocks[..|blocks| - 1] + [blocks[|blocks| - 1] + [e]];
            Flatten(r) == Flatten(blocks) + [e] && Apart(r) && forall i :: 0 <= i < |r| ==> IsRun(r[i])
  {
    hide Mergeable;
    var r: seq<Block> := blocks[..|blocks| - 1] + [blocks[|blocks| - 1] + [e]];
    assert r[..|r| - 1] == blocks[..|blocks| - 1];
  }

  lemma OpenCuts(blocks: seq<Block>, e: Entry)
    requires Apart(blocks) && forall i :: 0 <= i < |blocks| ==> IsRun(blocks[i])
    requires blocks != [] ==> !Mergeable(Last(blocks[|blocks| - 1]), e)
    ensures var r := blocks + [[e]];
            Flatten(r) == Flatten(blocks) + [e] && Apart(r) && forall i :: 0 <= i < |r| ==> IsRun(r[i])
  {
    hide Mergeable;
    var r: seq<Block> := blocks + [[e]];
    assert r[..|r| - 1] == blocks;
  }

  /** No other cut of the input has these properties. */
  lemma {:induction false} CutIsUnique(entries: seq<Entry>, blocks: seq<Block>)
    requires Flatten(blocks) == entries && Apart(blocks)
    requires forall i :: 0 <= i < |blocks| ==> IsRun(blocks[i])
    ensures blocks == Blocks(entries)
    decreases |entries|
  {
    hide Mergeable, Push, IsRun, Apart;
    if blocks != [] {
      var init, before := Unpush(entries, blocks);
      CutIsUnique(init, before);
      BlocksPush(init, Last(entries));
    }
  }

  /** Every cut arises from a shorter one by one more entry. */
  lemma Unpush(entries: seq<Entry>, blocks: seq<Block>) returns (init: seq<Entry>, before: seq<Block>)
    requires Flatten(blocks) == entries && Apart(blocks) && blocks != []
    requires forall i :: 0 <= i < |blocks| ==> IsRun(blocks[i])
    ensures entries != [] && entries == init + [Last(entries)] && blocks == Push(before, Last(entries))
    ensures Flatten(before) == init && Apart(before) && forall i :: 0 <= i < |before| ==> IsRun(before[i])
  {
    hide *;
    var front, last := blocks[..|blocks| - 1], blocks[|blocks| - 1];
    if |last| == 1 {
      init, before := UnpushSingle(entries, front, last, blocks);
    } else {
      init, before := UnpushLonger(entries, front, last, blocks);
    }
  }

  lemma UnpushSingle(entries: seq<Entry>, front: seq<Block>, last: Block, blocks: seq<Block>)
      returns (init: seq<Entry>, before: seq<Block>)
    requires blocks != [] && front == blocks[..|blocks| - 1] && last == blocks[|blocks| - 1] && |last| == 1
    requires Flatten(blocks) == entries && Apart(blocks) && forall i :: 0 <= i < |blocks| ==> IsRun(blocks[i])
    ensures entries != [] && entries == init + [Last(entries)] && blocks == Push(before, Last(entries))
    ensures Flatten(before) == init && Apart(before) && forall i :: 0 <= i < |before| ==> IsRun(before[i])
  {
    hide Mergeable, IsRun;
    init, before := entries[..|entries| - 1], front;
    assert last == [last[0]] && blocks == front + [last];
  }

  lemma UnpushLonger(entries: seq<Entry>, front: seq<Block>, last: Block, blocks: seq<Block>)
      returns (init: seq<Entry>, before: seq<Block>)
    requires blocks != [] && front == blocks[..|blocks| - 1] && last == blocks[|blocks| - 1] && |last| > 1
    requires Flatten(blocks) == entries && Apart(blocks) && forall i :: 0 <= i < |blocks| ==> IsRun(blocks[i])
    ensures entries != [] && entries == init + [Last(entries)] && blocks == Push(before, Last(entries))
    ensures Flatten(before) == init && Apart(before) && forall i :: 0 <= i < |before| ==> IsRun(before[i])
  {
    hide Mergeable, IsRun;
    var shorter: Block := last[..|last| - 1];
    init, before := entries[..|entries| - 1], front + [shorter];
    ShorterRun(last, shorter);
    assert before[..|front|] == front;
    assert last == shorter + [Last(last)] && blocks == front + [last];
  }

  lemma ShorterRun(last: Block, shorter: Block)
    requires |last| > 1 && shorter == last[..|last| - 1]
    ensures IsRun(last) ==> IsRun(shorter) && Mergeable(Last(shorter), Last(last))
    ensures shorter[0] == last[0]
  {
    hide Mergeable;
  }

  /**
   Two activities with the same action and actor, no evaluation by the squad leader, and at most two
   minutes apart unless they report a finished or failed task.
   */
  ghost predicate SameActivity(a: Entry, b: Entry) {
    && a.kind == Activity && b.kind == Activity
    && a.action == b.action && a.actorType == b.actorType && a.actorId == b.actorId
    && b.action != Some("squad_leader_evaluated")
    && (b.action == Some("task_completed") || b.action == Some("task_failed") ||
        -120000 <= b.createdAt - a.createdAt <= 120000)
  }

  lemma MergeableIsSameActivity(a: Entry, b: Entry)
    ensures Mergeable(a, b) <==> SameActivity(a, b)
  {
  }

  /** So the input is cut exactly between neighbours that are not the same activity. */
  lemma CutBetweenActivities(entries: seq<Entry>)
    ensures var blocks := Blocks(entries);
            && Flatten(blocks) == entries
            && (forall k, i :: 0 <= k < |blocks| && 0 < i < |blocks[k]| ==>
                  SameActivity(blocks[k][i - 1], blocks[k][i]))
            && (forall k :: 0 < k < |blocks| ==> !SameActivity(blocks[k - 1][|blocks[k - 1]| - 1], blocks[k][0]))
  {
    hide Blocks, Flatten, Mergeable, SameActivity;
    var blocks := Blocks(entries);
    BlocksCutTheInput(entries);
    forall k, i | 0 <= k < |blocks| && 0 < i < |blocks[k]| ensures SameActivity(blocks[k][i - 1], blocks[k][i]) {
      assert IsRun(blocks[k]);
      MergeableIsSameActivity(blocks[k][i - 1], blocks[k][i]);
    }
    forall k | 0 < k < |blocks| ensures !SameActivity(blocks[k - 1][|blocks[k - 1]| - 1], blocks[k][0]) {
      MergeableIsSameActivity(Last(blocks[k - 1]), blocks[k][0]);
    }
  }

  /** What is shown for a run: its newest entry as it came, with the run's length if there was more than one. */
  lemma RunShowsItsLast(entries: seq<Entry>, k: nat)
    requires (forall e :: e in entries ==> e.coalescedCount == None) && k < |Blocks(entries)|
    ensures var run, shown := Blocks(entries)[k], ShownAll(Blocks(entries))[k];
            && shown == run[|run| - 1].(coalescedCount := shown.coalescedCount)
            && shown.coalescedCount == (if |run| == 1 then None else Some(|run|))
  {
    hide Blocks, Flatten, Mergeable, IsRun, Apart;
    BlocksCutTheInput(entries);
    var run := Blocks(entries)[k];
    forall e | e in run ensures e in entries {
      FlattenHolds(Blocks(entries), k, e);
    }
    assert run[0] in run && run[|run| - 1] in run;
  }

  lemma {:induction false} FlattenHolds(blocks: seq<Block>, k: nat, e: Entry)
    requires k < |blocks| && e in blocks[k]
    ensures e in Flatten(blocks)
  {
    var n := |blocks| - 1;
    if k < n {
      FlattenHolds(blocks[..n], k, e);
    }
  }

  function CountSum(entries: seq<Entry>): int {
    if entries == [] then 0 else CountSum(entries[..|entries| - 1]) + CountOf(entries[|entries| - 1])
  }

  /** Nothing is lost: on input that was not coalesced before, the counts add up to its length. */
  lemma {:induction false} CountsAddUp(entries: seq<Entry>)
    requires forall e :: e in entries ==> e.coalescedCount == None
    ensures CountSum(ShownAll(Blocks(entries))) == |entries|
  {
    hide Mergeable, Blocks;
    if entries != [] {
      var n := |entries| - 1;
      CountsAddUp(entries[..n]);
      PushEntry(entries, n);
      assert entries[..n + 1] == entries;
      var out, next := ShownAll(Blocks(entries[..n])), ShownAll(Blocks(entries));
      CountOfPush(out, entries[n], next);
    }
  }

  lemma CountOfPush(out: seq<Entry>, e: Entry, next: seq<Entry>)
    requires e.coalescedCount == None && next == PushShown(out, e)
    ensures CountSum(next) == CountSum(out) + 1
  {
    if out != [] && Mergeable(out[|out| - 1], e) {
      assert next[..|out| - 1] == out[..|out| - 1];
    } else {
      assert next[..|out|] == out;
    }
  }

  // ---------------------------------------------------------------------------
  // Coalescing again
  // ---------------------------------------------------------------------------

  ghost predicate Ascending(entries: seq<Entry>) {
    forall i, j :: 0 <= i < j < |entries| ==> entries[i].createdAt <= entries[j].createdAt
  }

  ghost predicate NothingToMerge(entries: seq<Entry>) {
    forall i :: 0 < i < |entries| ==> !Mergeable(entries[i - 1], entries[i])
  }

  /** Coalescing changes nothing exactly when no two neighbours can be merged. */
  lemma UnchangedIffNothingToMerge(entries: seq<Entry>)
    ensures ShownAll(Blocks(entries)) == entries <==> NothingToMerge(entries)
    ensures |Blocks(entries)| <= |entries|
    ensures |Blocks(entries)| == |entries| <==> NothingToMerge(entries)
  {
    hide Blocks, NothingToMerge;
    BlockCount(entries);
    if NothingToMerge(entries) {
      UnchangedWhenApart(entries);
    }
  }

  lemma NothingToMergePush(init: seq<Entry>, e: Entry)
    ensures NothingToMerge(init + [e]) <==>
            NothingToMerge(init) && (init != [] ==> !Mergeable(init[|init| - 1], e))
  {
    hide Mergeable;
    var entries := init + [e];
    assert forall i :: 0 <= i < |init| ==> entries[i] == init[i];
    assert entries[|init|] == e;
  }

  lemma {:induction false} BlockCount(entries: seq<Entry>)
    ensures |Blocks(entries)| <= |entries|
    ensures |Blocks(entries)| == |entries| <==> NothingToMerge(entries)
  {
    if entries != [] {
      hide Mergeable, Blocks, NothingToMerge, Push;
      var init, e := entries[..|entries| - 1], entries[|entries| - 1];
      assert entries == init + [e];
      BlockCount(init);
      BlocksPush(init, e);
      PushGrows(Blocks(init), e);
      NothingToMergePush(init, e);
    }
  }

  lemma {:induction false} UnchangedWhenApart(entries: seq<Entry>)
    requires NothingToMerge(entries)
    ensures ShownAll(Blocks(entries)) == entries
  {
    if entries != [] {
      hide Mergeable, Blocks, NothingToMerge, Push, ShownAll;
      var init, e := entries[..|entries| - 1], entries[|entries| - 1];
      assert entries == init + [e];
      NothingToMergePush(init, e);
      UnchangedWhenApart(init);
      BlocksPush(init, e);
      ShownPush(Blocks(init), e);
    }
  }

  lemma PushGrows(blocks: seq<Block>, e: Entry)
    ensures |Push(blocks, e)| ==
            if blocks != [] && Mergeable(Last(blocks[|blocks| - 1]), e) then |blocks| else |blocks| + 1
  {
    hide Mergeable;
  }

  lemma {:induction false} RunKey(block: Block, i: nat)
    requires IsRun(block) && i < |block|
    ensures var e, last := block[i], Last(block);
            i < |block| - 1 ==> e.kind == last.kind == Activity && e.action == last.action &&
                                e.actorType == last.actorType && e.actorId == last.actorId
    decreases |block| - i
  {
    if i + 1 < |block| {
      assert Mergeable(block[i], block[i + 1]);
      RunKey(block, i + 1);
    }
  }

  /** If the ends of two runs could be merged, so could the end of the first and the start of the second. */
  lemma EndsMergeable(a: Entry, block: Block)
    requires IsRun(block) && Mergeable(a, Last(block))
    requires a.createdAt <= block[0].createdAt <= Last(block).createdAt
    ensures Mergeable(a, block[0])
  {
    RunKey(block, 0);
  }

  lemma {:induction false} FlattenAscending(blocks: seq<Block>)
    requires Ascending(Flatten(blocks))
    ensures forall i :: 0 <= i < |blocks| ==> blocks[i][0].createdAt <= Last(blocks[i]).createdAt
    ensures forall i :: 0 < i < |blocks| ==> Last(blocks[i - 1]).createdAt <= blocks[i][0].createdAt
  {
    if blocks != [] {
      var front, last := blocks[..|blocks| - 1], blocks[|blocks| - 1];
      var f := Flatten(front);
      AscendingParts(f, last);
      FlattenAscending(front);
      if front != [] {
        var b := front[|front| - 1];
        assert f == Flatten(front[..|front| - 1]) + b;
        assert f[|f| - 1] == Last(b);
      }
    }
  }

  lemma AscendingParts(a: seq<Entry>, b: Block)
    requires Ascending(a + b)
    ensures Ascending(a) && b[0].createdAt <= Last(b).createdAt
    ensures a != [] ==> a[|a| - 1].createdAt <= b[0].createdAt
  {
    var c := a + b;
    assert forall i :: 0 <= i < |a| ==> c[i] == a[i];
    assert c[|a|] == b[0] && c[|c| - 1] == Last(b);
    assert a != [] ==> c[|a| - 1] == a[|a| - 1];
  }

  /** The last entries of no two neighbouring runs could be merged with each other. */
  ghost predicate EndsApart(blocks: seq<Block>) {
    forall i :: 0 < i < |blocks| ==> !Mergeable(Last(blocks[i - 1]), Last(blocks[i]))
  }

  /** Coalescing twice is coalescing once exactly when the ends of neighbouring runs stay apart. */
  lemma CoalescingTwiceExactly(entries: seq<Entry>)
    ensures ShownAll(Blocks(ShownAll(Blocks(entries)))) == ShownAll(Blocks(entries)) <==> EndsApart(Blocks(entries))
  {
    hide Blocks;
    var blocks := Blocks(entries);
    var out := ShownAll(blocks);
    UnchangedIffNothingToMerge(out);
    forall i | 0 < i < |out|
      ensures Mergeable(out[i - 1], out[i]) <==> Mergeable(Last(blocks[i - 1]), Last(blocks[i]))
    {
      ShownMergeable(blocks[i - 1], blocks[i]);
    }
    hide Mergeable;
  }

  lemma ShownMergeable(a: Block, b: Block)
    ensures Mergeable(Shown(a), Shown(b)) <==> Mergeable(Last(a), Last(b))
  {
  }

  /** In ascending time order they do: a second pass changes nothing. */
  lemma CoalescingIsIdempotent(entries: seq<Entry>)
    requires Ascending(entries)
    ensures ShownAll(Blocks(ShownAll(Blocks(entries)))) == ShownAll(Blocks(entries))
  {
    hide Mergeable, Blocks, ShownAll;
    var blocks := Blocks(entries);
    BlocksCutTheInput(entries);
    FlattenAscending(blocks);
    forall i | 0 < i < |blocks| ensures !Mergeable(Last(blocks[i - 1]), Last(blocks[i])) {
      if Mergeable(Last(blocks[i - 1]), Last(blocks[i])) {
        EndsMergeable(Last(blocks[i - 1]), blocks[i]);
      }
    }
    CoalescingTwiceExactly(entries);
  }

  /** Out of time order a second pass can merge further. */
  lemma SecondPassMergesOutOfOrder(a: Entry, b: Entry, c: Entry)
    requires a == Entry(Activity, "a", "member", "m", 0, Some("status_changed"), None, None, "")
    requires b == a.(id := "b", createdAt := 200000) && c == a.(id := "c", createdAt := 100000)
    ensures ShownAll(Blocks(ShownAll(Blocks([a, b, c])))) != ShownAll(Blocks([a, b, c]))
  {
    hide Blocks, Push, Map;
    var blocks: seq<Block> := [[a], [b, c]];
    var once := [a, c.(coalescedCount := Some(2))];
    assert blocks[..1] == [[a]] && blocks[..1][..0] == [];
    assert Flatten(blocks[..1][..0]) == [];
    assert Flatten(blocks[..1]) == [a];
    assert Flatten(blocks) == [a, b, c];
    CutIsUnique([a, b, c], blocks);
    assert ShownAll(blocks) == once;
    UnchangedIffNothingToMerge(once);
    assert Mergeable(once[0], once[1]);
  }
}
