/** The streamed `task:message` events, written into one cache list per task. */
module TaskMessages {
  import opened Common
  import opened StableSort
  import opened OrderedAppend

  datatype Message = Message(taskId: string, seqNo: int, content: string)

  type Lists = map<string, seq<Message>>

  predicate Earlier(a: Message, b: Message) {
    a.seqNo < b.seqNo
  }

  predicate SameSeq(a: Message, b: Message) {
    a.seqNo == b.seqNo
  }

  function ListOf(lists: Lists, taskId: string): seq<Message> {
    if taskId in lists then lists[taskId] else []
  }

  function Step(lists: Lists, m: Message): Lists {
    lists[m.taskId := Append(Earlier, SameSeq, ListOf(lists, m.taskId), m)]
  }

  function Run(lists: Lists, events: seq<Message>): Lists
    decreases |events|
  {
    if events == [] then lists else Run(Step(lists, events[0]), events[1..])
  }

  /** Strictly ascending sequence numbers. */
  ghost predicate AscendingSeq(list: seq<Message>) {
    forall i, j :: 0 <= i < j < |list| ==> list[i].seqNo < list[j].seqNo
  }

  lemma AscendingIsAscendingSeq(list: seq<Message>)
    ensures Ascending(Earlier, list) <==> AscendingSeq(list)
  {
  }

  /** What one message does to its list: nothing if its number is there, otherwise it joins in order. */
  lemma MessageJoins(list: seq<Message>, m: Message)
    ensures var next := Append(Earlier, SameSeq, list, m);
            && (AscendingSeq(list) ==> AscendingSeq(next))
            && ((exists i :: 0 <= i < |list| && list[i].seqNo == m.seqNo) ==> next == list)
            && (!(exists i :: 0 <= i < |list| && list[i].seqNo == m.seqNo) ==>
                  multiset(next) == multiset(list) + multiset{m})
  {
    if !exists i :: 0 <= i < |list| && list[i].seqNo == m.seqNo {
      var all := list + [m];
      SortPermutes(Earlier, all);
    }
    if AscendingSeq(list) && !exists i :: 0 <= i < |list| && list[i].seqNo == m.seqNo {
      var all := list + [m];
      forall x, y | x in all && y in all && x != y ensures Earlier(x, y) || Earlier(y, x) {
        var i :| 0 <= i < |all| && all[i] == x;
        var j :| 0 <= j < |all| && all[j] == y;
        assert i < |list| && j < |list| && i != j ==> list[i].seqNo != list[j].seqNo;
      }
      assert NoDup(all);
      SortAscends(Earlier, all);
      AscendingIsAscendingSeq(Sort(Earlier, all));
    }
  }

  /** The message joins its own task's list, and no other list changes. */
  ghost predicate Joins(before: Lists, after: Lists, m: Message) {
    var was := ListOf(before, m.taskId);
    && m.taskId in after
    && (forall t :: t != m.taskId ==> (t in after <==> t in before) && ListOf(after, t) == ListOf(before, t))
    && (AscendingSeq(was) ==> AscendingSeq(after[m.taskId]))
    && ((exists i :: 0 <= i < |was| && was[i].seqNo == m.seqNo) ==> after[m.taskId] == was)
    && (!(exists i :: 0 <= i < |was| && was[i].seqNo == m.seqNo) ==>
          multiset(after[m.taskId]) == multiset(was) + multiset{m})
  }

  lemma StepJoins(lists: Lists, m: Message)
    ensures Joins(lists, Step(lists, m), m)
  {
    hide Append, AscendingSeq;
    MessageJoins(ListOf(lists, m.taskId), m);
  }

  class TaskMessageCache {
    var lists: Lists

    method OnTaskMessage(m: Message)
      modifies this
      ensures lists == Step(old(lists), m)
      ensures Joins(old(lists), lists, m)
    {
      StepJoins(lists, m);
      hide Joins;
      var cached := if m.taskId in lists then lists[m.taskId] else [];
      var next := cached;
      if !exists i :: 0 <= i < |cached| && cached[i].seqNo == m.seqNo {
        next := Sort(Earlier, cached + [m]);
      }
      lists := lists[m.taskId := next];
    }
  }

  // ---------------------------------------------------------------------------

  function ForTask(taskId: string, events: seq<Message>): seq<Message> {
    Filter((m: Message) => m.taskId == taskId, events)
  }

  /** A task and a sequence number name one message. */
  ghost predicate SeqDetermines(lists: Lists, events: seq<Message>) {
    && (forall a, b :: a in events && b in events && a.taskId == b.taskId && a.seqNo == b.seqNo ==> a == b)
    && (forall t, a, b :: t in lists && a in lists[t] && b in events && b.taskId == t && a.seqNo == b.seqNo ==> a == b)
  }

  /** Every cached list is strictly ascending by sequence number. */
  ghost predicate AscendingLists(lists: Lists) {
    forall t :: t in lists ==> AscendingSeq(lists[t])
  }

  /** Tasks do not interfere: each list sees only its own task's events. */
  lemma {:induction false} RunPerTask(lists: Lists, events: seq<Message>, t: string)
    ensures t in Run(lists, events) <==> t in lists || ForTask(t, events) != []
    ensures t in Run(lists, events) ==>
              Run(lists, events)[t] == AppendAll(Earlier, SameSeq, ListOf(lists, t), ForTask(t, events))
    decreases |events|
  {
    if events != [] {
      RunPerTask(Step(lists, events[0]), events[1..], t);
    }
  }

  lemma TaskKeyed(lists: Lists, events: seq<Message>, t: string) returns (all: set<Message>)
    requires SeqDetermines(lists, events) && AscendingLists(lists)
    ensures Keyed(Earlier, SameSeq, all)
    ensures forall m :: m in ListOf(lists, t) || m in ForTask(t, events) ==> m in all
    ensures Ascending(Earlier, ListOf(lists, t))
  {
    hide Filter;
    var list, own := ListOf(lists, t), ForTask(t, events);
    all := (set m | m in list) + (set m | m in own);
  }

  /**
   Streams converge: two event sequences that carry the same messages, in any order and with any
   repetition, leave the same cache, in which every touched list is strictly ascending and holds exactly
   what was cached or received for its task.
   */
  lemma StreamsConverge(lists: Lists, xs: seq<Message>, ys: seq<Message>)
    requires SeqDetermines(lists, xs) && AscendingLists(lists)
    requires forall m :: m in xs <==> m in ys
    ensures Run(lists, xs) == Run(lists, ys)
    ensures AscendingLists(Run(lists, xs))
    ensures forall t, m :: t in Run(lists, xs) ==>
              (m in Run(lists, xs)[t] <==> m in ListOf(lists, t) || (m in xs && m.taskId == t))
  {
    hide Run, AppendAll, Keyed;
    forall t
      ensures t in Run(lists, xs) <==> t in Run(lists, ys)
      ensures t in Run(lists, xs) ==> Run(lists, xs)[t] == Run(lists, ys)[t] && Ascending(Earlier, Run(lists, xs)[t])
      ensures t in Run(lists, xs) ==>
                forall m :: m in Run(lists, xs)[t] <==> m in ListOf(lists, t) || (m in xs && m.taskId == t)
    {
      TaskConverges(lists, xs, ys, t);
    }
    forall t | t in Run(lists, xs) ensures AscendingSeq(Run(lists, xs)[t]) {
      AscendingIsAscendingSeq(Run(lists, xs)[t]);
    }
  }

  lemma TaskConverges(lists: Lists, xs: seq<Message>, ys: seq<Message>, t: string)
    requires SeqDetermines(lists, xs) && AscendingLists(lists)
    requires forall m :: m in xs <==> m in ys
    ensures t in Run(lists, xs) <==> t in Run(lists, ys)
    ensures t in Run(lists, xs) ==> Run(lists, xs)[t] == Run(lists, ys)[t] && Ascending(Earlier, Run(lists, xs)[t])
    ensures t in Run(lists, xs) ==>
              forall m :: m in Run(lists, xs)[t] <==> m in ListOf(lists, t) || (m in xs && m.taskId == t)
  {
    hide Run, AppendAll, Keyed, SeqDetermines, AscendingLists;
    var all := TaskKeyed(lists, xs, t);
    RunPerTask(lists, xs, t);
    RunPerTask(lists, ys, t);
    SameElementsEmpty(ForTask(t, xs), ForTask(t, ys));
    AppendAllMembers(Earlier, SameSeq, all, ListOf(lists, t), ForTask(t, xs));
    DeliveriesConverge(Earlier, SameSeq, all, ListOf(lists, t), ForTask(t, xs), ForTask(t, ys));
  }

  lemma SameElementsEmpty(a: seq<Message>, b: seq<Message>)
    requires forall m :: m in a <==> m in b
    ensures a == [] <==> b == []
  {
    if a != [] {
      assert a[0] in b;
    }
    if b != [] {
      assert b[0] in b;
    }
  }
}
