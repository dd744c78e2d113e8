/** The page walk that loads every scheduled issue of a project. */
module GanttWalk {
  const PAGE_LIMIT := 500
  const MAX_ISSUES := 10000

  datatype Reply<T> = Reply(issues: seq<T>, total: int)

  /** A server answers each request, told apart by the offset and by how many came before it. */
  type Server<!T> = (nat, nat) -> Reply<T>

  function Min(a: nat, b: nat): nat {
    if a <= b then a else b
  }

  /** A server that holds `all` and reports its true size. */
  function Holding<T>(all: seq<T>): Server<T> {
    (offset: nat, asked: nat) =>
      Reply(if offset <= |all| then all[offset..Min(offset + PAGE_LIMIT, |all|)] else [], |all|)
  }

  /** Everything the first `k` replies of the walk brought. */
  function Pages<T>(server: Server<T>, k: nat): seq<T> {
    if k == 0 then [] else Pages(server, k - 1) + server(PAGE_LIMIT * (k - 1), k - 1).issues
  }

  /** The `k`-th reply is short, or the issues loaded with it reach the total it reports. */
  predicate StopsAt<T>(server: Server<T>, k: nat) {
    var reply := server(PAGE_LIMIT * k, k);
    |reply.issues| < PAGE_LIMIT || |Pages(server, k + 1)| >= reply.total
  }

  /**
   Against arbitrary replies the walk makes between 1 and 20 requests at ascending offsets and returns what
   they brought: it goes on exactly until a reply stops it or the cap is reached.
   */
  method FetchProjectGanttIssues<T>(server: Server<T>) returns (issues: seq<T>, requests: nat)
    ensures 1 <= requests <= 20
    ensures issues == Pages(server, requests)
    ensures forall k: nat :: k < requests - 1 ==> !StopsAt(server, k)
    ensures requests < 20 ==> StopsAt(server, requests - 1)
  {
    issues := [];
    requests := 0;
    var offset := 0;
    while offset < MAX_ISSUES
      invariant offset == PAGE_LIMIT * requests && requests <= 20
      invariant issues == Pages(server, requests)
      invariant forall k: nat :: k < requests ==> !StopsAt(server, k)
      decreases MAX_ISSUES - offset
    {
      var reply := server(offset, requests);
      issues := issues + reply.issues;
      requests := requests + 1;
      if |reply.issues| < PAGE_LIMIT {
        break;
      }
      if |issues| >= reply.total {
        break;
      }
      offset := offset + PAGE_LIMIT;
    }
  }

  lemma {:induction false} HonestPages<T>(all: seq<T>, k: nat)
    ensures Pages(Holding(all), k) == all[..Min(PAGE_LIMIT * k, |all|)]
  {
    if k > 0 {
      HonestPages(all, k - 1);
    }
  }

  lemma HonestStop<T>(all: seq<T>, k: nat)
    requires PAGE_LIMIT * k <= |all|
    ensures StopsAt(Holding(all), k) <==> |all| <= PAGE_LIMIT * (k + 1)
  {
    HonestPages(all, k + 1);
  }

  /** The walk over a fixed project returns its first `MAX_ISSUES` issues and asks for no empty page but the first. */
  lemma WalkIsPrefix<T>(all: seq<T>, issues: seq<T>, requests: nat)
    requires 1 <= requests <= 20 && issues == Pages(Holding(all), requests)
    requires forall k: nat :: k < requests - 1 ==> !StopsAt(Holding(all), k)
    requires requests < 20 ==> StopsAt(Holding(all), requests - 1)
    ensures issues == all[..Min(MAX_ISSUES, |all|)]
    ensures forall k: nat :: 0 < k < requests ==> PAGE_LIMIT * k < |all|
  {
    HonestPages(all, requests);
    forall k: nat | 0 < k < requests ensures PAGE_LIMIT * k < |all| {
      NotStopped(all, k - 1);
    }
    var last := requests - 1;
    if last > 0 {
      NotStopped(all, last - 1);
    }
    HonestStop(all, last);
  }

  /** A walk that went on past request `k` had more to load. */
  lemma {:induction false} NotStopped<T>(all: seq<T>, k: nat)
    requires forall j: nat :: j <= k ==> !StopsAt(Holding(all), j)
    ensures PAGE_LIMIT * (k + 1) < |all|
  {
    if k > 0 {
      NotStopped(all, k - 1);
    }
    HonestStop(all, k);
  }

  /** Over a server holding a fixed project with a true total. */
  method FetchFromFixedProject<T>(all: seq<T>) returns (issues: seq<T>, requests: nat)
    ensures issues == all[..if |all| < 10000 then |all| else 10000]
    ensures 1 <= requests <= 20 && (requests > 1 ==> 500 * (requests - 1) < |all|)
  {
    issues, requests := FetchProjectGanttIssues(Holding(all));
    WalkIsPrefix(all, issues, requests);
  }
}
