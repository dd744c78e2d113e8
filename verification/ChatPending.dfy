/**
 The per-session chat cache under the realtime events: the pending task behind the status pill, the
 message list, and the paged history whose page 0 is the latest.
 */
module ChatPending {
  import opened Common

  /** `Pending(None, None, None)` is the empty object that clears the pill. */
  datatype Pending = Pending(taskId: Option<string>, status: Option<string>, createdAt: Option<int>)

  const CLEARED := Pending(None, None, None)

  datatype ChatMessage = ChatMessage(
    id: string, session: string, content: string, taskId: string, createdAt: int, elapsedMs: Option<int>)

  /** `chat:done`: a server that omits the message sends an empty id or no content. */
  datatype Done = Done(
    session: string, taskId: string, messageId: string, content: Option<string>, createdAt: Option<int>,
    elapsedMs: Option<int>)

  /** An empty session stands for a payload without one. `now` is the clock when the event arrives. */
  datatype Event =
    | TaskQueued(session: string, task: string)
    | TaskDispatch(session: string, task: string)
    | TaskRunning(session: string, task: string)
    | TaskWaitingLocalDirectory(session: string, task: string)
    | TaskCancelled(session: string, task: string)
    | TaskCompleted(session: string, task: string)
    | TaskFailed(session: string, task: string)
    | ChatDone(done: Done, now: int)
    | ChatMessageSent(session: string)
    | ChatSessionDeleted(session: string)

  datatype State = State(
    pending: map<string, Pending>,
    messages: map<string, seq<ChatMessage>>,
    pages: map<string, seq<seq<ChatMessage>>>)

  predicate HasId(list: seq<ChatMessage>, id: string) {
    exists i :: 0 <= i < |list| && list[i].id == id
  }

  predicate Seen(pages: seq<seq<ChatMessage>>, id: string) {
    exists p :: 0 <= p < |pages| && HasId(pages[p], id)
  }

  /** `patchLatestChatMessagePage` on loaded pages. */
  function PatchLatestPage(pages: seq<seq<ChatMessage>>, m: ChatMessage): seq<seq<ChatMessage>> {
    if pages == [] || Seen(pages, m.id) then pages
    else seq(|pages|, p requires 0 <= p < |pages| => if p == 0 then pages[p] + [m] else pages[p])
  }

  function AppendUnlessPresent(list: seq<ChatMessage>, m: ChatMessage): seq<ChatMessage> {
    if HasId(list, m.id) then list else list + [m]
  }

  function Carries(d: Done): bool {
    d.messageId != "" && d.content.Some?
  }

  function Assistant(d: Done, now: int): ChatMessage
    requires Carries(d)
  {
    ChatMessage(d.messageId, d.session, d.content.value, d.taskId,
                if d.createdAt.Some? then d.createdAt.value else now, d.elapsedMs)
  }

  /** The pill status a stage event writes. */
  function StageOf(e: Event): (status: Option<string>) {
    match e
    case TaskDispatch(_, _) | TaskRunning(_, _) => Some("running")
    case TaskWaitingLocalDirectory(_, _) => Some("waiting_local_directory")
    case _ => None
  }

  function ApplyStage(s: State, session: string, task: string, status: string): State {
    if session == "" || session !in s.pending || s.pending[session].taskId != Some(task) then s
    else s.(pending := s.pending[session := s.pending[session].(status := Some(status))])
  }

  function Clear(s: State, session: string): State {
    s.(pending := s.pending[session := CLEARED])
  }

  function ApplyDone(s: State, d: Done, now: int): State {
    var written :=
      if !Carries(d) then s
      else
        var m := Assistant(d, now);
        s.(messages :=
             if d.session in s.messages
             then s.messages[d.session := AppendUnlessPresent(s.messages[d.session], m)] else s.messages,
           pages :=
             if d.session in s.pages
             then s.pages[d.session := PatchLatestPage(s.pages[d.session], m)] else s.pages);
    Clear(written, d.session)
  }

  function Step(s: State, e: Event): State {
    match e
    case TaskQueued(session, task) =>
      if session == "" then s
      else
        var before := if session in s.pending then s.pending[session] else CLEARED;
        s.(pending := s.pending[session := before.(taskId := Some(task), status := Some("queued"))])
    case TaskDispatch(session, task) => ApplyStage(s, session, task, "running")
    case TaskRunning(session, task) => ApplyStage(s, session, task, "running")
    case TaskWaitingLocalDirectory(session, task) => ApplyStage(s, session, task, "waiting_local_directory")
    case TaskCancelled(session, _) => if session == "" then s else Clear(s, session)
    case TaskFailed(session, _) => if session == "" then s else Clear(s, session)
    case TaskCompleted(_, _) => s
    case ChatDone(d, now) => ApplyDone(s, d, now)
    case ChatMessageSent(_) => s
    case ChatSessionDeleted(session) =>
      s.(pending := s.pending - {session}, messages := s.messages - {session})
  }

  function Run(s: State, events: seq<Event>): State {
    if events == [] then s else Step(Run(s, events[..|events| - 1]), events[|events| - 1])
  }

  // ---------------------------------------------------------------------------
  // The handlers
  // ---------------------------------------------------------------------------

  class ChatCache {
    var pending: map<string, Pending>
    var messages: map<string, seq<ChatMessage>>
    var pages: map<string, seq<seq<ChatMessage>>>

    ghost function Current(): State
      reads this
    {
      State(pending, messages, pages)
    }

    method OnTaskQueued(session: string, task: string)
      modifies this`pending
      ensures Current() == Step(old(Current()), TaskQueued(session, task))
    {
      if session == "" {
        return;
      }
      var before := CLEARED;
      if session in pending {
        before := pending[session];
      }
      pending := pending[session := before.(taskId := Some(task), status := Some("queued"))];
    }

    /** The shared updater of `task:dispatch`, `task:running` and `task:waiting_local_directory`. */
    method OnStage(session: string, task: string, status: string)
      modifies this`pending
      ensures Current() == ApplyStage(old(Current()), session, task, status)
    {
      if session == "" {
        return;
      }
      if session in pending {
        var before := pending[session];
        if before.taskId == Some(task) {
          pending := pending[session := before.(status := Some(status))];
        }
      }
    }

    method OnTaskCancelled(session: string, task: string)
      modifies this`pending
      ensures Current() == Step(old(Current()), TaskCancelled(session, task))
    {
      if session == "" {
        return;
      }
      pending := pending[session := CLEARED];
    }

    method OnTaskFailed(session: string, task: string)
      modifies this`pending
      ensures Current() == Step(old(Current()), TaskFailed(session, task))
    {
      if session == "" {
        return;
      }
      pending := pending[session := CLEARED];
    }

    method ApplyChatDoneToCache(d: Done, now: int)
      modifies this
      ensures Current() == Step(old(Current()), ChatDone(d, now))
    {
      if d.messageId != "" && d.content.Some? {
        var createdAt := if d.createdAt.Some? then d.createdAt.value else now;
        var assistant := ChatMessage(d.messageId, d.session, d.content.value, d.taskId, createdAt, d.elapsedMs);
        if d.session in messages {
          var list := messages[d.session];
          if !exists i :: 0 <= i < |list| && list[i].id == assistant.id {
            messages := messages[d.session := list + [assistant]];
          }
        }
        if d.session in pages {
          pages := pages[d.session := PatchLatestPage(pages[d.session], assistant)];
        }
      }
      pending := pending[d.session := CLEARED];
    }

    method OnSessionDeleted(session: string)
      modifies this
      ensures Current() == Step(old(Current()), ChatSessionDeleted(session))
    {
      messages := messages - {session};
      pending := pending - {session};
    }
  }

  // ---------------------------------------------------------------------------
  // The pending task
  // ---------------------------------------------------------------------------

  predicate Queues(e: Event, session: string) {
    e.TaskQueued? && e.session == session && session != ""
  }

  /** Finishing, cancelling or failing clears the session's pending task; deleting the session drops it. */
  predicate Ends(e: Event, session: string) {
    match e
    case TaskCancelled(x, _) => x == session && session != ""
    case TaskFailed(x, _) => x == session && session != ""
    case ChatDone(d, _) => d.session == session
    case ChatSessionDeleted(x) => x == session
    case _ => false
  }

  /** A stage event for this task of this session. */
  predicate Advances(e: Event, session: string, task: string) {
    StageOf(e).Some? && session != "" && e.session == session && e.task == task
  }

  function PendingTask(s: State, session: string): Option<string> {
    if session in s.pending then s.pending[session].taskId else None
  }

  /** `q` is the last `task:queued` of the session and nothing after it ended the session's task. */
  ghost predicate LatestQueued(events: seq<Event>, session: string, q: nat) {
    && q < |events| && Queues(events[q], session)
    && forall i :: q < i < |events| ==> !Queues(events[i], session) && !Ends(events[i], session)
  }

  /** Nothing queued or ended a task of the session. */
  ghost predicate Untouched(events: seq<Event>, session: string) {
    forall i :: 0 <= i < |events| ==> !Queues(events[i], session) && !Ends(events[i], session)
  }

  /** The status of the last stage event for the task at or after `from`, or the status it had before. */
  function LastStage(
      events: seq<Event>, session: string, task: string, from: nat, initial: Option<string>): Option<string>
    decreases |events|
  {
    if |events| <= from then initial
    else
      var e := events[|events| - 1];
      if Advances(e, session, task) then StageOf(e)
      else LastStage(events[..|events| - 1], session, task, from, initial)
  }

  /** What one event does to the pending entry of a session. */
  lemma StepPending(s: State, e: Event, session: string)
    ensures !Queues(e, session) && !Ends(e, session) ==>
              (session in Step(s, e).pending <==> session in s.pending)
    ensures Queues(e, session) ==>
              session in Step(s, e).pending &&
              Step(s, e).pending[session].taskId == Some(e.task) &&
              Step(s, e).pending[session].status == Some("queued")
    ensures Ends(e, session) ==> PendingTask(Step(s, e), session) == None
    ensures !Queues(e, session) && !Ends(e, session) && session in s.pending ==>
              var p := s.pending[session];
              Step(s, e).pending[session] ==
              if p.taskId.Some? && Advances(e, session, p.taskId.value) then p.(status := StageOf(e)) else p
  {
  }

  /**
   Over every trace a pending task is the one the latest `task:queued` named, provided nothing ended it
   since, or the initial one, say of the optimistic seed, if nothing queued or ended a task at all. Its
   status is that of the latest stage event for that very task.
   */
  lemma {:induction false} PendingIsLatestQueued(s: State, events: seq<Event>, session: string, task: string)
    ensures PendingTask(Run(s, events), session) == Some(task) <==>
            (exists q: nat :: LatestQueued(events, session, q) && events[q].task == task) ||
            (Untouched(events, session) && PendingTask(s, session) == Some(task))
    ensures forall q: nat :: LatestQueued(events, session, q) && events[q].task == task ==>
              session in Run(s, events).pending &&
              Run(s, events).pending[session].status == LastStage(events, session, task, q + 1, Some("queued"))
    ensures Untouched(events, session) && PendingTask(s, session) == Some(task) ==>
              session in Run(s, events).pending &&
              Run(s, events).pending[session].status ==
              LastStage(events, session, task, 0, s.pending[session].status)
    decreases |events|
  {
    if events != [] {
      var n := |events| - 1;
      var before, e := events[..n], events[n];
      PendingIsLatestQueued(s, before, session, task);
      StepPending(Run(s, before), e, session);
      hide Step, Run;
      LatestPush(before, e, session);
      UntouchedPush(before, e, session);
      assert before + [e] == events;
      hide LatestQueued, Untouched;
      forall q: nat | LatestQueued(events, session, q) && events[q].task == task
        ensures PendingTask(Step(Run(s, before), e), session) == Some(task)
        ensures Step(Run(s, before), e).pending[session].status ==
                LastStage(events, session, task, q + 1, Some("queued"))
      {
      }
    }
  }

  lemma UntouchedPush(before: seq<Event>, e: Event, session: string)
    ensures Untouched(before + [e], session) <==>
            Untouched(before, session) && !Queues(e, session) && !Ends(e, session)
  {
    var events := before + [e];
    assert events[|before|] == e && forall i :: 0 <= i < |before| ==> events[i] == before[i];
  }

  lemma LatestPush(before: seq<Event>, e: Event, session: string)
    ensures LatestQueued(before + [e], session, |before|) <==> Queues(e, session)
    ensures forall q: nat :: q != |before| ==>
              (LatestQueued(before + [e], session, q) <==>
               LatestQueued(before, session, q) && !Queues(e, session) && !Ends(e, session))
    ensures forall q: nat :: LatestQueued(before, session, q) ==> q < |before| && before[q] == (before + [e])[q]
    ensures forall q: nat :: LatestQueued(before + [e], session, q) ==> q <= |before|
  {
    var events := before + [e];
    forall q: nat | q < |before| ensures events[q] == before[q] {
    }
    assert events[|before|] == e;
    forall q: nat | LatestQueued(events, session, q) && q != |before| ensures LatestQueued(before, session, q) {
      forall i | q < i < |before| ensures !Queues(before[i], session) && !Ends(before[i], session) {
        assert events[i] == before[i];
      }
    }
  }

  lemma StepStart(s: State, e: Event, session: string)
    ensures session in s.pending && !Ends(e, session) ==> session in Step(s, e).pending
    ensures session in Step(s, e).pending ==>
              Step(s, e).pending[session].createdAt ==
              if session in s.pending && !Ends(e, session) then s.pending[session].createdAt else None
  {
  }

  /** The time the pill counts from is the initial one until something ends the task; events bring no other. */
  lemma {:induction false} PendingKeepsItsStart(s: State, events: seq<Event>, session: string)
    ensures session in Run(s, events).pending ==>
              Run(s, events).pending[session].createdAt ==
              if session in s.pending && forall i :: 0 <= i < |events| ==> !Ends(events[i], session)
              then s.pending[session].createdAt else None
    ensures session in s.pending && (forall i :: 0 <= i < |events| ==> !Ends(events[i], session)) ==>
              session in Run(s, events).pending
    decreases |events|
  {
    if events != [] {
      var n := |events| - 1;
      PendingKeepsItsStart(s, events[..n], session);
      StepStart(Run(s, events[..n]), events[n], session);
      hide Step, Ends;
      assert forall i :: 0 <= i < n ==> events[..n][i] == events[i];
    }
  }

  /** Stage events of any task but the pending one leave the whole cache as it is. */
  lemma StaleStageChangesNothing(s: State, e: Event)
    requires StageOf(e).Some? && PendingTask(s, e.session) != Some(e.task)
    ensures Step(s, e) == s
  {
  }

  // ---------------------------------------------------------------------------
  // The messages
  // ---------------------------------------------------------------------------

  /** Append the messages whose id is neither in the page nor among the others. */
  function AppendFresh(page: seq<ChatMessage>, others: seq<ChatMessage>, ms: seq<ChatMessage>): (r: seq<ChatMessage>)
    ensures page <= r
  {
    if ms == [] then page
    else
      var r := AppendFresh(page, others, ms[..|ms| - 1]);
      var m := ms[|ms| - 1];
      if HasId(r, m.id) || HasId(others, m.id) then r else r + [m]
  }

  /** The message an event delivers to the session, if any. */
  function Carried(e: Event, session: string): Option<ChatMessage> {
    if e.ChatDone? && e.done.session == session && Carries(e.done) then Some(Assistant(e.done, e.now)) else None
  }

  /** The messages the session's `chat:done` events carry, in order of arrival. */
  function Delivered(events: seq<Event>, session: string): seq<ChatMessage> {
    if events == [] then []
    else
      var e := events[|events| - 1];
      Delivered(events[..|events| - 1], session) +
      match Carried(e, session)
      case None => []
      case Some(m) => [m]
  }

  predicate Deletes(events: seq<Event>, session: string) {
    exists i :: 0 <= i < |events| && events[i] == ChatSessionDeleted(session)
  }

  function Flat(pages: seq<seq<ChatMessage>>): seq<ChatMessage> {
    if pages == [] then [] else pages[0] + Flat(pages[1..])
  }

  lemma {:induction false} SeenIsInFlat(pages: seq<seq<ChatMessage>>, id: string)
    ensures Seen(pages, id) <==> HasId(Flat(pages), id)
  {
    if pages != [] {
      SeenIsInFlat(pages[1..], id);
      HasIdConcat(pages[0], Flat(pages[1..]), id);
      if Seen(pages, id) {
        var p :| 0 <= p < |pages| && HasId(pages[p], id);
        assert p > 0 ==> pages[1..][p - 1] == pages[p];
      }
      if Seen(pages[1..], id) {
        var p :| 0 <= p < |pages[1..]| && HasId(pages[1..][p], id);
        assert HasId(pages[p + 1], id);
      }
    }
  }

  lemma HasIdConcat(a: seq<ChatMessage>, b: seq<ChatMessage>, id: string)
    ensures HasId(a + b, id) <==> HasId(a, id) || HasId(b, id)
  {
    if HasId(a, id) {
      var i :| 0 <= i < |a| && a[i].id == id;
      assert (a + b)[i].id == id;
    }
    if HasId(b, id) {
      var i :| 0 <= i < |b| && b[i].id == id;
      assert (a + b)[|a| + i].id == id;
    }
  }

  /** A patch of the pages is a fresh append to page 0. */
  lemma PatchIsFreshAppend(pages: seq<seq<ChatMessage>>, m: ChatMessage)
    requires pages != []
    ensures PatchLatestPage(pages, m) == [AppendFresh(pages[0], Flat(pages[1..]), [m])] + pages[1..]
  {
    SeenIsInFlat(pages, m.id);
    HasIdConcat(pages[0], Flat(pages[1..]), m.id);
    assert [m][..0] == [];
    assert AppendFresh(pages[0], Flat(pages[1..]), []) == pages[0];
  }

  lemma DeliveredPush(before: seq<Event>, e: Event, session: string)
    ensures var was, all := Delivered(before, session), Delivered(before + [e], session);
            match Carried(e, session)
            case None => all == was
            case Some(m) => all == was + [m] && all != [] && all[..|all| - 1] == was
  {
    assert (before + [e])[..|before|] == before;
    assert (Delivered(before, session) + [])[..] == Delivered(before, session);
  }

  lemma StepMessages(s: State, e: Event, session: string)
    ensures session in Step(s, e).messages <==> session in s.messages && e != ChatSessionDeleted(session)
    ensures session in Step(s, e).messages ==>
              Step(s, e).messages[session] ==
              match Carried(e, session)
              case None => s.messages[session]
              case Some(m) => AppendUnlessPresent(s.messages[session], m)
  {
  }

  lemma DeletesPush(before: seq<Event>, e: Event, session: string)
    ensures Deletes(before + [e], session) <==> Deletes(before, session) || e == ChatSessionDeleted(session)
  {
    var events := before + [e];
    assert forall i :: 0 <= i < |before| ==> before[i] == events[i];
    assert events[|before|] == e;
  }

  /** The session's message list is the initial one with the delivered messages appended, once each. */
  lemma {:induction false} RunMessages(s: State, events: seq<Event>, session: string)
    ensures session in Run(s, events).messages <==> session in s.messages && !Deletes(events, session)
    ensures session in Run(s, events).messages ==>
              Run(s, events).messages[session] == AppendFresh(s.messages[session], [], Delivered(events, session))
    decreases |events|
  {
    if events != [] {
      var before, e := events[..|events| - 1], events[|events| - 1];
      assert events == before + [e];
      RunMessages(s, before, session);
      StepMessages(Run(s, before), e, session);
      DeletesPush(before, e, session);
      DeliveredPush(before, e, session);
      hide Step, Deletes, Delivered, Carried;
    }
  }

  /** `m` is what a finished task of the session answered: the payload's own id, text, task and times. */
  ghost predicate Answers(e: Event, session: string, m: ChatMessage) {
    && e.ChatDone? && e.done.session == session && m.session == session
    && m.id == e.done.messageId && m.id != "" && e.done.content == Some(m.content) && m.taskId == e.done.taskId
    && (e.done.createdAt.Some? ==> m.createdAt == e.done.createdAt.value)
    && (e.done.createdAt.None? ==> m.createdAt == e.now)
    && m.elapsedMs == e.done.elapsedMs
  }

  lemma CarriedAnswers(e: Event, session: string, m: ChatMessage)
    ensures Carried(e, session) == Some(m) <==> Answers(e, session, m)
  {
  }

  ghost predicate Answered(events: seq<Event>, session: string, m: ChatMessage) {
    exists k :: 0 <= k < |events| && Answers(events[k], session, m)
  }

  lemma AnsweredPush(before: seq<Event>, e: Event, session: string, m: ChatMessage)
    ensures Answered(before + [e], session, m) <==> Answered(before, session, m) || Answers(e, session, m)
  {
    hide Answers;
    var events := before + [e];
    assert forall k :: 0 <= k < |before| ==> before[k] == events[k];
    assert events[|before|] == e;
  }

  /** The delivered messages are the answers of the trace. */
  lemma {:induction false} DeliveredAnswers(events: seq<Event>, session: string, m: ChatMessage)
    ensures m in Delivered(events, session) <==> Answered(events, session, m)
    decreases |events|
  {
    if events != [] {
      var n := |events| - 1;
      DeliveredAnswers(events[..n], session, m);
      CarriedAnswers(events[n], session, m);
      hide Carried, Answers;
      assert events == events[..n] + [events[n]];
      AnsweredPush(events[..n], events[n], session, m);
      hide Answered;
    }
  }

  lemma {:induction false} FreshMembers(page: seq<ChatMessage>, others: seq<ChatMessage>, ms: seq<ChatMessage>, i: nat)
    requires |page| <= i < |AppendFresh(page, others, ms)|
    ensures AppendFresh(page, others, ms)[i] in ms
    decreases |ms|
  {
    if ms != [] && i < |AppendFresh(page, others, ms[..|ms| - 1])| {
      FreshMembers(page, others, ms[..|ms| - 1], i);
    }
  }

  /**
   Over every trace the list is the old one followed by answers of the trace, and every answer is listed
   under its id.
   */
  lemma MessagesAreAnswers(s: State, events: seq<Event>, session: string)
    requires session in s.messages && !Deletes(events, session)
    ensures session in Run(s, events).messages
    ensures var was, list := s.messages[session], Run(s, events).messages[session];
            && was <= list
            && (forall i :: |was| <= i < |list| ==> Answered(events, session, list[i]))
            && (forall m :: Answered(events, session, m) ==> HasId(list, m.id))
  {
    hide Delivered, AppendFresh, Answered, Run;
    RunMessages(s, events, session);
    hide Deletes;
    var was, ms := s.messages[session], Delivered(events, session);
    var list := Run(s, events).messages[session];
    assert list == AppendFresh(was, [], ms);
    forall i | |was| <= i < |list| ensures Answered(events, session, list[i]) {
      FreshMembers(was, [], ms, i);
      DeliveredAnswers(events, session, list[i]);
    }
    forall m | Answered(events, session, m) ensures HasId(list, m.id) {
      DeliveredAnswers(events, session, m);
      var at :| 0 <= at < |ms| && ms[at] == m;
      FreshIds(was, [], ms, m.id);
    }
  }

  lemma StepPages(s: State, e: Event, session: string)
    ensures session in Step(s, e).pages <==> session in s.pages
    ensures session in s.pages ==>
              Step(s, e).pages[session] ==
              match Carried(e, session)
              case None => s.pages[session]
              case Some(m) => PatchLatestPage(s.pages[session], m)
  {
    hide PatchLatestPage, AppendUnlessPresent;
  }

  /** The initial pages with messages appended to page 0. */
  function Patched(pages: seq<seq<ChatMessage>>, ms: seq<ChatMessage>): seq<seq<ChatMessage>> {
    if pages == [] then [] else [AppendFresh(pages[0], Flat(pages[1..]), ms)] + pages[1..]
  }

  lemma PatchedPush(pages: seq<seq<ChatMessage>>, ms: seq<ChatMessage>, m: ChatMessage)
    ensures PatchLatestPage(Patched(pages, ms), m) == Patched(pages, ms + [m])
  {
    if pages != [] {
      var now := Patched(pages, ms);
      assert now[1..] == pages[1..];
      PatchIsFreshAppend(now, m);
      assert [m][..0] == [] && (ms + [m])[..|ms|] == ms;
    }
  }

  /** And the session's pages change only by such appends to page 0. */
  lemma {:induction false} RunPages(s: State, events: seq<Event>, session: string)
    ensures session in Run(s, events).pages <==> session in s.pages
    ensures session in s.pages ==>
              Run(s, events).pages[session] == Patched(s.pages[session], Delivered(events, session))
    decreases |events|
  {
    if events == [] {
      if session in s.pages {
        assert Patched(s.pages[session], []) == s.pages[session];
      }
    } else {
      var before, e := events[..|events| - 1], events[|events| - 1];
      assert events == before + [e];
      RunPages(s, before, session);
      StepPages(Run(s, before), e, session);
      DeliveredPush(before, e, session);
      hide Step, Delivered, Carried, Patched, PatchLatestPage;
      if session in s.pages && Carried(e, session).Some? {
        PatchedPush(s.pages[session], Delivered(before, session), Carried(e, session).value);
      }
    }
  }

  /** The ids of the result: those of the page and those delivered, except those the other pages hold. */
  lemma {:induction false} FreshIds(page: seq<ChatMessage>, others: seq<ChatMessage>, ms: seq<ChatMessage>, id: string)
    ensures HasId(AppendFresh(page, others, ms), id) <==> HasId(page, id) || (HasId(ms, id) && !HasId(others, id))
    decreases |ms|
  {
    if ms != [] {
      var n := |ms| - 1;
      FreshIds(page, others, ms[..n], id);
      FreshIds(page, others, ms[..n], ms[n].id);
      assert ms == ms[..n] + [ms[n]];
      HasIdConcat(ms[..n], [ms[n]], id);
      HasIdConcat(AppendFresh(page, others, ms[..n]), [ms[n]], id);
      assert HasId([ms[n]], id) <==> ms[n].id == id by {
        assert [ms[n]][0] == ms[n];
      }
    }
  }

  ghost predicate UniqueIds(list: seq<ChatMessage>) {
    forall i, j :: 0 <= i < j < |list| ==> list[i].id != list[j].id
  }

  lemma {:induction false} FreshKeepsUnique(page: seq<ChatMessage>, others: seq<ChatMessage>, ms: seq<ChatMessage>)
    requires UniqueIds(page + others)
    ensures UniqueIds(AppendFresh(page, others, ms) + others)
    decreases |ms|
  {
    if ms != [] {
      var n := |ms| - 1;
      FreshKeepsUnique(page, others, ms[..n]);
      var r := AppendFresh(page, others, ms[..n]);
      if !HasId(r, ms[n].id) && !HasId(others, ms[n].id) {
        UniqueInsert(r, ms[n], others);
      }
    }
  }

  lemma UniqueInsert(r: seq<ChatMessage>, m: ChatMessage, others: seq<ChatMessage>)
    requires UniqueIds(r + others) && !HasId(r, m.id) && !HasId(others, m.id)
    ensures UniqueIds(r + [m] + others)
  {
    var all, next := r + others, r + [m] + others;
    forall i, j | 0 <= i < j < |next| ensures next[i].id != next[j].id {
      var i' := if i < |r| then i else i - 1;
      var j' := if j < |r| then j else j - 1;
      assert i != |r| ==> next[i] == all[i'];
      assert j != |r| ==> next[j] == all[j'];
      assert forall k :: 0 <= k < |r| ==> r[k].id != m.id;
      assert forall k :: 0 <= k < |others| ==> others[k].id != m.id;
    }
  }

  /** Messages whose ids were already there, or already delivered, add nothing. */
  lemma {:induction false} FreshAgain(
      page: seq<ChatMessage>, others: seq<ChatMessage>, ms: seq<ChatMessage>, again: seq<ChatMessage>)
    requires forall i :: 0 <= i < |again| ==> HasId(ms, again[i].id)
    ensures AppendFresh(page, others, ms + again) == AppendFresh(page, others, ms)
    decreases |again|
  {
    if again == [] {
      assert ms + again == ms;
    } else {
      var n := |again| - 1;
      FreshAgain(page, others, ms, again[..n]);
      assert (ms + again)[..|ms + again| - 1] == ms + again[..n];
      FreshIds(page, others, ms, again[n].id);
    }
  }

  lemma {:induction false} RunConcat(s: State, first: seq<Event>, second: seq<Event>, session: string)
    ensures Delivered(first + second, session) == Delivered(first, session) + Delivered(second, session)
    decreases |second|
  {
    if second == [] {
      assert first + second == first;
    } else {
      var n := |second| - 1;
      assert (first + second)[..|first + second| - 1] == first + second[..n];
      RunConcat(s, first, second[..n], session);
    }
  }

  /** From unique ids every trace keeps ids unique, in the list and across all pages. */
  lemma AtMostOneCopy(s: State, events: seq<Event>, session: string)
    ensures session in s.messages && UniqueIds(s.messages[session]) && !Deletes(events, session) ==>
              session in Run(s, events).messages && UniqueIds(Run(s, events).messages[session])
    ensures session in s.pages && UniqueIds(Flat(s.pages[session])) ==>
              session in Run(s, events).pages && UniqueIds(Flat(Run(s, events).pages[session]))
  {
    var ms := Delivered(events, session);
    RunMessages(s, events, session);
    RunPages(s, events, session);
    if session in s.messages && UniqueIds(s.messages[session]) {
      var list := s.messages[session];
      assert list + [] == list;
      FreshKeepsUnique(list, [], ms);
      assert AppendFresh(list, [], ms) + [] == AppendFresh(list, [], ms);
    }
    if session in s.pages && s.pages[session] != [] && UniqueIds(Flat(s.pages[session])) {
      var pages := s.pages[session];
      FreshKeepsUnique(pages[0], Flat(pages[1..]), ms);
      assert ([AppendFresh(pages[0], Flat(pages[1..]), ms)] + pages[1..])[1..] == pages[1..];
    }
  }

  /**
   A reconnect may replay any `chat:done` events, in any order and number, mixed with other events: the
   messages and pages end as they would have without the replay.
   */
  lemma ReplayAddsNothing(s: State, events: seq<Event>, replay: seq<Event>, session: string)
    requires forall i :: 0 <= i < |Delivered(replay, session)| ==>
               HasId(Delivered(events, session), Delivered(replay, session)[i].id)
    requires !Deletes(replay, session)
    ensures session in Run(s, events + replay).messages <==> session in Run(s, events).messages
    ensures session in Run(s, events).messages ==>
              Run(s, events + replay).messages[session] == Run(s, events).messages[session]
    ensures session in s.pages ==>
              session in Run(s, events).pages && session in Run(s, events + replay).pages &&
              Run(s, events + replay).pages[session] == Run(s, events).pages[session]
  {
    var ms, again := Delivered(events, session), Delivered(replay, session);
    RunMessages(s, events, session);
    RunMessages(s, events + replay, session);
    RunPages(s, events, session);
    RunPages(s, events + replay, session);
    RunConcat(s, events, replay, session);
    assert Deletes(events + replay, session) <==> Deletes(events, session) by {
      assert forall i :: 0 <= i < |events| ==> (events + replay)[i] == events[i];
      assert forall i :: |events| <= i < |events + replay| ==> (events + replay)[i] == replay[i - |events|];
    }
    if session in s.messages {
      FreshAgain(s.messages[session], [], ms, again);
    }
    if session in s.pages && s.pages[session] != [] {
      FreshAgain(s.pages[session][0], Flat(s.pages[session][1..]), ms, again);
    }
  }
}
