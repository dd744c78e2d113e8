/** The per-workspace list of recently viewed issues: most recent first, no repeats, at most ten. */
module ViewedIssues {
  import opened Common

  const CAPACITY := 10

  type Lists = map<string, seq<string>>

  datatype Event = Push(ws: string, id: string) | Remove(ws: string, id: string)

  function Take(xs: seq<string>, n: nat): seq<string> {
    if |xs| <= n then xs else xs[..n]
  }

  function Without(xs: seq<string>, id: string): (r: seq<string>)
    ensures forall x :: x in r <==> x in xs && x != id
  {
    Filter(x => x != id, xs)
  }

  function ListOf(lists: Lists, ws: string): seq<string> {
    if ws in lists then lists[ws] else []
  }

  function Step(lists: Lists, e: Event): Lists {
    match e
    case Push(ws, id) => lists[ws := Take([id] + Without(ListOf(lists, ws), id), CAPACITY)]
    case Remove(ws, id) => if ws in lists then lists[ws := Without(lists[ws], id)] else lists
  }

  function Run(lists: Lists, events: seq<Event>): Lists {
    if events == [] then lists else Step(Run(lists, events[..|events| - 1]), events[|events| - 1])
  }

  class ViewedIssuesStore {
    var byWorkspace: Lists

    constructor ()
      ensures byWorkspace == map[]
    {
      byWorkspace := map[];
    }

    method PushId(ws: string, id: string)
      modifies this
      ensures byWorkspace == Step(old(byWorkspace), Push(ws, id))
    {
      var prev := if ws in byWorkspace then byWorkspace[ws] else [];
      var next := [id] + Without(prev, id);
      byWorkspace := byWorkspace[ws := if |next| > CAPACITY then next[..CAPACITY] else next];
    }

    method RemoveId(ws: string, id: string)
      modifies this
      ensures byWorkspace == Step(old(byWorkspace), Remove(ws, id))
    {
      if ws !in byWorkspace {
        return;
      }
      byWorkspace := byWorkspace[ws := Without(byWorkspace[ws], id)];
    }
  }

  // ---------------------------------------------------------------------------
  // The full history
  // ---------------------------------------------------------------------------

  /** Everything viewed in a workspace, never truncated, most recent first. */
  function History(events: seq<Event>, ws: string): seq<string> {
    if events == [] then []
    else
      var before := History(events[..|events| - 1], ws);
      match events[|events| - 1]
      case Push(w, id) => if w == ws then [id] + Without(before, id) else before
      case Remove(w, id) => if w == ws then Without(before, id) else before
  }

  ghost predicate Pushed(events: seq<Event>, ws: string, id: string, at: nat) {
    && at < |events| && events[at] == Push(ws, id)
    && forall j :: at < j < |events| ==> events[j] != Push(ws, id) && events[j] != Remove(ws, id)
  }

  /** The history lists an id exactly when it was pushed and not removed since. */
  lemma {:induction false} HistoryMembers(events: seq<Event>, ws: string, id: string)
    ensures id in History(events, ws) <==> exists at :: Pushed(events, ws, id, at)
  {
    if events != [] {
      var n := |events| - 1;
      var before, last := events[..n], events[n];
      HistoryMembers(before, ws, id);
      if last == Push(ws, id) {
        assert Pushed(events, ws, id, n);
      } else if last != Remove(ws, id) {
        if at :| Pushed(before, ws, id, at) {
          assert Pushed(events, ws, id, at);
        }
        if at :| Pushed(events, ws, id, at) {
          assert Pushed(before, ws, id, at);
        }
      }
    }
  }

  /** No id is listed twice. */
  lemma {:induction false} HistoryNoDup(events: seq<Event>, ws: string)
    ensures NoDup(History(events, ws))
  {
    if events != [] {
      var before, last := events[..|events| - 1], events[|events| - 1];
      HistoryNoDup(before, ws);
      WithoutNoDup(History(before, ws), last.id);
    }
  }

  lemma WithoutNoDup(xs: seq<string>, id: string)
    requires NoDup(xs)
    ensures NoDup(Without(xs, id)) && NoDup([id] + Without(xs, id))
  {
    FilterNoDup(x => x != id, xs);
    var kept := Without(xs, id);
    forall j | 0 <= j < |kept| ensures kept[j] != id {
      assert kept[j] in kept;
    }
    NoDupConcat([id], kept);
  }

  /** It is ordered by the most recent push. */
  lemma {:induction false} HistoryOrder(events: seq<Event>, ws: string, i: nat, j: nat) returns (a: nat, b: nat)
    requires i < j < |History(events, ws)|
    ensures Pushed(events, ws, History(events, ws)[i], a) && Pushed(events, ws, History(events, ws)[j], b) && a > b
  {
    var n := |events| - 1;
    var before, last, h := events[..n], events[n], History(events, ws);
    var h0 := History(before, ws);
    PushedStill(events, ws);
    hide Without, Pushed;
    if last.ws != ws {
      a, b := HistoryOrder(before, ws, i, j);
    } else if last.Push? && i == 0 {
      a := n;
      assert h[j] in Without(h0, last.id);
      HistoryMembers(before, ws, h[j]);
      b :| Pushed(before, ws, h[j], b);
    } else {
      var shift := if last.Push? then 1 else 0;
      var tail := Without(h0, last.id);
      assert h[i] == tail[i - shift] && h[j] == tail[j - shift];
      var p, q := FilterOrder(h0, last.id, i - shift, j - shift);
      a, b := HistoryOrder(before, ws, p, q);
      assert tail[i - shift] in tail && tail[j - shift] in tail;
    }
  }

  /** A push stays the latest until its id is pushed again or removed. */
  lemma PushedStill(events: seq<Event>, ws: string)
    requires events != []
    ensures var before, last := events[..|events| - 1], events[|events| - 1];
            && (forall id, at: nat :: Pushed(before, ws, id, at) && !(last.ws == ws && last.id == id) ==>
                  at < |before| && Pushed(events, ws, id, at))
            && (last.Push? && last.ws == ws ==> Pushed(events, ws, last.id, |before|))
            && (forall id, at: nat :: Pushed(before, ws, id, at) ==> at < |before|)
  {
  }

  /** Where two kept elements stood before the filter: in the same order. */
  lemma {:induction false} FilterOrder(xs: seq<string>, id: string, i: nat, j: nat) returns (p: nat, q: nat)
    requires i < j < |Without(xs, id)|
    ensures p < q < |xs| && xs[p] == Without(xs, id)[i] && xs[q] == Without(xs, id)[j]
  {
    if xs[0] == id {
      p, q := FilterOrder(xs[1..], id, i, j);
      p, q := p + 1, q + 1;
    } else if i == 0 {
      var kept := Without(xs[1..], id);
      assert kept[j - 1] in kept;
      p := 0;
      var k :| 0 <= k < |xs[1..]| && xs[1..][k] == kept[j - 1];
      q := k + 1;
    } else {
      p, q := FilterOrder(xs[1..], id, i - 1, j - 1);
      p, q := p + 1, q + 1;
    }
  }

  /** A removal takes out the one place of the id and leaves the rest, and every other workspace, as it is. */
  lemma RemovalKeepsOthers(lists: Lists, ws: string, id: string)
    requires ws in lists && NoDup(lists[ws])
    ensures var next := Step(lists, Remove(ws, id));
            && next.Keys == lists.Keys
            && (forall other :: other in lists && other != ws ==> next[other] == lists[other])
            && (id !in lists[ws] ==> next[ws] == lists[ws])
            && (forall at :: 0 <= at < |lists[ws]| && lists[ws][at] == id ==>
                  next[ws] == lists[ws][..at] + lists[ws][at + 1..])
  {
    hide Filter, NoDup;
    var xs := lists[ws];
    if id !in xs {
      FilterAll(x => x != id, xs);
    }
    forall at | 0 <= at < |xs| && xs[at] == id ensures Without(xs, id) == xs[..at] + xs[at + 1..] {
      WithoutAt(xs, at);
    }
  }

  lemma WithoutAt(xs: seq<string>, at: nat)
    requires NoDup(xs) && at < |xs|
    ensures Without(xs, xs[at]) == xs[..at] + xs[at + 1..]
  {
    hide Filter;
    var id, before, after := xs[at], xs[..at], xs[at + 1..];
    var keep := (x: string) => x != id;
    assert xs == before + ([id] + after);
    FilterConcat(keep, before, [id] + after);
    FilterCons(keep, id, after);
    FilterAll(keep, before);
    FilterAll(keep, after);
  }

  // ---------------------------------------------------------------------------
  // The list refines the history
  // ---------------------------------------------------------------------------

  lemma WithoutPrefix(xs: seq<string>, ys: seq<string>, id: string)
    requires xs <= ys
    ensures Without(xs, id) <= Without(ys, id)
  {
    assert ys == xs + ys[|xs|..];
    FilterConcat(x => x != id, xs, ys[|xs|..]);
  }

  /** After any run the stored list is the beginning of the full history, at most ten ids long. */
  lemma {:induction false} ListIsPrefixOfHistory(events: seq<Event>, ws: string)
    ensures var list := ListOf(Run(map[], events), ws);
            list <= History(events, ws) && |list| <= 10
  {
    if events != [] {
      var before, last := events[..|events| - 1], events[|events| - 1];
      ListIsPrefixOfHistory(before, ws);
      WithoutPrefix(ListOf(Run(map[], before), ws), History(before, ws), last.id);
    }
  }

  /** The ids as far as removals reach back: no push of the workspace was followed by a removal. */
  ghost predicate PushesOnly(events: seq<Event>, ws: string) {
    forall e :: e in events && e.ws == ws ==> e.Push?
  }

  /** After pushes alone the list is exactly the first ten of the history. */
  lemma {:induction false} ListIsFirstTen(events: seq<Event>, ws: string)
    requires PushesOnly(events, ws)
    ensures var list, history := ListOf(Run(map[], events), ws), History(events, ws);
            list == if |history| <= 10 then history else history[..10]
  {
    if events != [] {
      var before, last := events[..|events| - 1], events[|events| - 1];
      assert events == before + [last];
      ListIsFirstTen(before, ws);
      if last.ws == ws {
        HistoryNoDup(before, ws);
        TakeWithout(History(before, ws), last.id, CAPACITY);
      }
    }
  }

  /** Truncating before a push loses nothing the truncation after it would keep. */
  lemma TakeWithout(xs: seq<string>, id: string, n: nat)
    requires n > 0 && NoDup(xs)
    ensures Take([id] + Without(Take(xs, n), id), n) == Take([id] + Without(xs, id), n)
  {
    hide Take, Filter;
    if |xs| <= n {
      assert Take(xs, n) == xs by {
        TakeAll(xs, n);
      }
    } else {
      TakeSome(xs, n);
      var head, tail := xs[..n], xs[n..];
      assert xs == head + tail;
      FilterConcat(x => x != id, head, tail);
      LosesAtMostOne(head, id);
      TakePrefix([id] + Without(head, id), Without(tail, id), n);
      assert [id] + (Without(head, id) + Without(tail, id)) == ([id] + Without(head, id)) + Without(tail, id);
    }
  }

  lemma TakeAll(xs: seq<string>, n: nat)
    requires |xs| <= n
    ensures Take(xs, n) == xs
  {
  }

  lemma TakeSome(xs: seq<string>, n: nat)
    requires |xs| > n
    ensures Take(xs, n) == xs[..n]
  {
  }

  lemma TakePrefix(a: seq<string>, b: seq<string>, n: nat)
    requires |a| >= n
    ensures Take(a + b, n) == Take(a, n)
  {
    assert (a + b)[..n] == a[..n];
  }

  lemma {:induction false} LosesAtMostOne(xs: seq<string>, id: string)
    requires NoDup(xs)
    ensures |Without(xs, id)| >= |xs| - 1
  {
    if xs != [] {
      if xs[0] == id {
        FilterAll(x => x != id, xs[1..]);
      } else {
        LosesAtMostOne(xs[1..], id);
      }
    }
  }
}
