/**
 The analytics glue: calls that arrive before the configuration are buffered and replayed by the
 initialization. `log` is what the analytics library has been told, in order.
 */
module Analytics {
  import opened Common
  import opened PageviewPath

  datatype Value = Text(text: string) | Number(number: int) | Flag(flag: bool)

  type Props = map<string, Value>

  const EVENT_SCHEMA_VERSION := 2

  datatype Op = EventOp(name: string, props: Option<Props>) | SetOp(person: Props)

  /** What reaches the library. `Pageview` carries the reported url, if any. */
  datatype Sent =
    | Started(key: string)
    | Registered(props: Props)
    | Identified(userId: string, userProps: Option<Props>)
    | Captured(name: string, props: Props)
    | PersonSet(person: Props)
    | Pageview(url: Option<string>)
    | Cleared

  /** `environment` is the normalized deployment name. */
  datatype Config = Config(key: string, appVersion: string, environment: string, clientType: string)

  datatype Call =
    | Init(hasWindow: bool, config: Option<Config>)
    | Identify(userId: string, userProps: Option<Props>)
    | Reset
    | Event(name: string, props: Option<Props>)
    | SetPerson(person: Props)
    | PageviewCall(path: Option<string>)

  datatype State = State(
    initialized: bool,
    pendingIdentify: Option<(string, Option<Props>)>,
    currentUserId: Option<string>,
    environment: string,
    pendingPageview: Option<string>,
    lastCapturedPath: Option<string>,
    pendingOps: seq<Op>,
    superProperties: Props,
    log: seq<Sent>)

  const START := State(false, None, None, "dev", None, None, [], map[], [])

  // ---------------------------------------------------------------------------
  // One call
  // ---------------------------------------------------------------------------

  function Default(props: Props, key: string, value: Value): Props {
    if key in props then props else props[key := value]
  }

  /** The caller's properties with the defaults for those it did not set. */
  function Enriched(props: Option<Props>, user: Option<string>, environment: string): Props {
    var own := if props.Some? then props.value else map[];
    var withUser := if user.Some? && user.value != "" then Default(own, "user_id", Text(user.value)) else own;
    Default(Default(Default(withUser,
      "event_schema_version", Number(EVENT_SCHEMA_VERSION)),
      "environment", Text(environment)),
      "is_demo", Flag(false))
  }

  function SentOp(op: Op, user: Option<string>, environment: string): Sent {
    match op
    case EventOp(name, props) => Captured(name, Enriched(props, user, environment))
    case SetOp(person) => PersonSet(person)
  }

  function SentOps(ops: seq<Op>, user: Option<string>, environment: string): (r: seq<Sent>)
    ensures |r| == |ops| && forall i :: 0 <= i < |r| ==> r[i] == SentOp(ops[i], user, environment)
  {
    Map(op => SentOp(op, user, environment), ops)
  }

  /** The url a pageview reports: the empty path reports none. */
  function Url(path: Option<string>): Option<string> {
    if path == Some("") then None else path
  }

  /** What a pageview waits as: its normal form, or the empty path when it has none. */
  function Waiting(path: Option<string>): Option<string> {
    var normalized := NormalizePageviewPath(path);
    if normalized.Some? then normalized else Some("")
  }

  function SuperProperties(config: Config): Props {
    var base: Props := map["client_type" := Text(config.clientType), "event_schema_version" := Number(EVENT_SCHEMA_VERSION),
                           "environment" := Text(config.environment), "is_demo" := Flag(false)];
    if config.appVersion != "" then base["app_version" := Text(config.appVersion)] else base
  }

  /** Whether this initialization takes effect. */
  predicate Starts(s: State, c: Call) {
    c.Init? && c.hasWindow && c.config.Some? && c.config.value.key != "" && !s.initialized
  }

  function SentIdentify(pending: Option<(string, Option<Props>)>): seq<Sent> {
    if pending.Some? then [Identified(pending.value.0, pending.value.1)] else []
  }

  function SentPage(pending: Option<string>): seq<Sent> {
    if pending.Some? then [Pageview(Url(pending))] else []
  }

  function Flushed(s: State, config: Config): State {
    var super := SuperProperties(config);
    var user := if s.pendingIdentify.Some? then Some(s.pendingIdentify.value.0) else s.currentUserId;
    var identify, page := SentIdentify(s.pendingIdentify), SentPage(s.pendingPageview);
    State(true, None, user, config.environment, None,
          if s.pendingPageview.Some? then s.pendingPageview else s.lastCapturedPath,
          [], super,
          s.log + [Started(config.key), Registered(super)] + identify + page +
          SentOps(s.pendingOps, user, config.environment))
  }

  function Step(s: State, c: Call): State {
    match c
    case Init(_, config) => if Starts(s, c) then Flushed(s, config.value) else s
    case Identify(userId, userProps) =>
      if !s.initialized then s.(currentUserId := Some(userId), pendingIdentify := Some((userId, userProps)))
      else s.(currentUserId := Some(userId), log := s.log + [Identified(userId, userProps)])
    case Reset =>
      var cleared := s.(currentUserId := None, pendingIdentify := None, pendingPageview := None,
                        lastCapturedPath := None, pendingOps := []);
      if !s.initialized then cleared
      else cleared.(log := s.log + [Cleared] + if s.superProperties != map[] then [Registered(s.superProperties)] else [])
    case Event(name, props) =>
      if !s.initialized then s.(pendingOps := s.pendingOps + [EventOp(name, props)])
      else s.(log := s.log + [SentOp(EventOp(name, props), s.currentUserId, s.environment)])
    case SetPerson(person) =>
      if !s.initialized then s.(pendingOps := s.pendingOps + [SetOp(person)])
      else s.(log := s.log + [PersonSet(person)])
    case PageviewCall(path) =>
      var normalized := NormalizePageviewPath(path);
      if !s.initialized then s.(pendingPageview := Waiting(path))
      else if Url(normalized).Some? && normalized == s.lastCapturedPath then s
      else s.(lastCapturedPath := normalized, log := s.log + [Pageview(Url(normalized))])
  }

  function Run(s: State, calls: seq<Call>): State
    decreases |calls|
  {
    if calls == [] then s else Run(Step(s, calls[0]), calls[1..])
  }

  // ---------------------------------------------------------------------------
  // The module's variables and functions
  // ---------------------------------------------------------------------------

  class AnalyticsModule {
    var initialized: bool
    var pendingIdentify: Option<(string, Option<Props>)>
    var currentUserId: Option<string>
    var environment: string
    var pendingPageview: Option<string>
    var lastCapturedPath: Option<string>
    var pendingOps: seq<Op>
    var superProperties: Props
    var log: seq<Sent>

    ghost function Current(): State
      reads this
    {
      State(initialized, pendingIdentify, currentUserId, environment, pendingPageview, lastCapturedPath,
            pendingOps, superProperties, log)
    }

    constructor ()
      ensures Current() == START
    {
      initialized, pendingIdentify, currentUserId, environment := false, None, None, "dev";
      pendingPageview, lastCapturedPath, pendingOps, superProperties, log := None, None, [], map[], [];
    }

    method InitAnalytics(hasWindow: bool, config: Option<Config>) returns (running: bool)
      modifies this
      ensures Current() == Step(old(Current()), Init(hasWindow, config))
      ensures running <==> hasWindow && config.Some? && config.value.key != ""
    {
      hide SuperProperties, SentOps, Url, SentIdentify, SentPage;
      if !hasWindow || config.None? || config.value.key == "" {
        return false;
      }
      if initialized {
        return true;
      }
      log := log + [Started(config.value.key)];
      environment := config.value.environment;
      superProperties := SuperProperties(config.value);
      log := log + [Registered(superProperties)];
      initialized := true;
      assert log == old(log) + [Started(config.value.key), Registered(superProperties)];
      FlushPending();
      DrainPendingOps();
      return true;
    }

    /** Sends the identity and the pageview that waited for the initialization. */
    method FlushPending()
      modifies `pendingIdentify, `currentUserId, `pendingPageview, `lastCapturedPath, `log
      ensures pendingIdentify == None && pendingPageview == None
      ensures currentUserId ==
              if old(pendingIdentify).Some? then Some(old(pendingIdentify).value.0) else old(currentUserId)
      ensures lastCapturedPath == if old(pendingPageview).Some? then old(pendingPageview) else old(lastCapturedPath)
      ensures log == old(log) + SentIdentify(old(pendingIdentify)) + SentPage(old(pendingPageview))
    {
      hide Url;
      if pendingIdentify.Some? {
        currentUserId := Some(pendingIdentify.value.0);
        log := log + [Identified(pendingIdentify.value.0, pendingIdentify.value.1)];
        pendingIdentify := None;
      }
      if pendingPageview.Some? {
        log := log + [Pageview(Url(pendingPageview))];
        lastCapturedPath := pendingPageview;
        pendingPageview := None;
      }
    }

    /** Replays the buffer, oldest first. */
    method DrainPendingOps()
      modifies `pendingOps, `log
      ensures pendingOps == []
      ensures log == old(log) + SentOps(old(pendingOps), currentUserId, environment)
    {
      ghost var ops := pendingOps;
      while |pendingOps| > 0
        invariant |pendingOps| <= |ops| && pendingOps == ops[|ops| - |pendingOps|..]
        invariant log == old(log) + SentOps(ops[..|ops| - |pendingOps|], currentUserId, environment)
      {
        var op := pendingOps[0];
        ghost var done := |ops| - |pendingOps|;
        assert ops[..done + 1] == ops[..done] + [op];
        pendingOps := pendingOps[1..];
        match op {
          case EventOp(name, props) => log := log + [Captured(name, Enriched(props, currentUserId, environment))];
          case SetOp(person) => log := log + [PersonSet(person)];
        }
      }
      assert ops[..|ops|] == ops;
    }

    method IdentifyUser(userId: string, userProps: Option<Props>)
      modifies this
      ensures Current() == Step(old(Current()), Identify(userId, userProps))
    {
      currentUserId := Some(userId);
      if !initialized {
        pendingIdentify := Some((userId, userProps));
        return;
      }
      log := log + [Identified(userId, userProps)];
    }

    method ResetAnalytics()
      modifies this
      ensures Current() == Step(old(Current()), Reset)
    {
      currentUserId, pendingIdentify, pendingPageview, lastCapturedPath, pendingOps := None, None, None, None, [];
      if !initialized {
        return;
      }
      log := log + [Cleared];
      if superProperties != map[] {
        log := log + [Registered(superProperties)];
      }
    }

    method CaptureEvent(name: string, props: Option<Props>)
      modifies this
      ensures Current() == Step(old(Current()), Event(name, props))
    {
      if !initialized {
        pendingOps := pendingOps + [EventOp(name, props)];
        return;
      }
      log := log + [Captured(name, Enriched(props, currentUserId, environment))];
    }

    method SetPersonProperties(person: Props)
      modifies this
      ensures Current() == Step(old(Current()), SetPerson(person))
    {
      if !initialized {
        pendingOps := pendingOps + [SetOp(person)];
        return;
      }
      log := log + [PersonSet(person)];
    }

    method CapturePageview(path: Option<string>)
      modifies this
      ensures Current() == Step(old(Current()), PageviewCall(path))
    {
      hide NormalizePageviewPath;
      var normalized := NormalizePageviewPath(path);
      if !initialized {
        pendingPageview := if normalized.Some? then normalized else Some("");
        return;
      }
      if normalized.Some? && normalized.value != "" && normalized == lastCapturedPath {
        return;
      }
      lastCapturedPath := normalized;
      log := log + [Pageview(Url(normalized))];
    }
  }

  // ---------------------------------------------------------------------------
  // Initializing late
  // ---------------------------------------------------------------------------

  function OpsOf(c: Call): seq<Op> {
    match c
    case Event(name, props) => [EventOp(name, props)]
    case SetPerson(person) => [SetOp(person)]
    case _ => []
  }

  /** The events and person updates the callers asked for, in order. */
  function Asked(calls: seq<Call>): seq<Op> {
    if calls == [] then []
    else
      OpsOf(calls[0]) + Asked(calls[1..])
  }

  predicate IsOp(e: Sent) {
    e.Captured? || e.PersonSet?
  }

  /** The events and person updates the library was told about, in order. */
  function Told(log: seq<Sent>): seq<Sent> {
    Filter(e => IsOp(e), log)
  }

  ghost predicate ResetFree(calls: seq<Call>) {
    forall c :: c in calls ==> !c.Reset?
  }

  /** `sent` is `op` as the caller asked for it, completed with the defaults of `environment` and some user. */
  ghost predicate Carries(sent: Sent, op: Op, environment: string) {
    exists user: Option<string> :: sent == SentOp(op, user, environment)
  }

  ghost predicate CarriesAll(sent: seq<Sent>, ops: seq<Op>, environment: string) {
    |sent| == |ops| && forall i :: 0 <= i < |sent| ==> Carries(sent[i], ops[i], environment)
  }

  /** Everything asked for so far was told once, in order, or waits in the buffer. */
  ghost predicate Accounted(s: State, asked: seq<Op>) {
    if s.initialized then s.pendingOps == [] && CarriesAll(Told(s.log), asked, s.environment)
    else s.pendingOps == asked && Told(s.log) == []
  }

  lemma ToldConcat(a: seq<Sent>, b: seq<Sent>)
    ensures Told(a + b) == Told(a) + Told(b)
  {
    FilterConcat(e => IsOp(e), a, b);
  }

  lemma ToldAll(a: seq<Sent>)
    requires forall e :: e in a ==> IsOp(e)
    ensures Told(a) == a
  {
    FilterAll(e => IsOp(e), a);
  }

  lemma ToldNone(a: seq<Sent>)
    requires forall e :: e in a ==> !IsOp(e)
    ensures Told(a) == []
  {
    FilterNone(e => IsOp(e), a);
  }

  lemma FlushAccounts(s: State, config: Config)
    requires Accounted(s, s.pendingOps) && !s.initialized
    ensures Accounted(Flushed(s, config), s.pendingOps)
  {
    hide Told, SuperProperties;
    var f := Flushed(s, config);
    var tail := SentOps(s.pendingOps, f.currentUserId, config.environment);
    var identify, page := SentIdentify(s.pendingIdentify), SentPage(s.pendingPageview);
    var head := [Started(config.key), Registered(f.superProperties)] + identify + page;
    assert f.log == s.log + (head + tail);
    ToldConcat(s.log, head + tail);
    ToldConcat(head, tail);
    ToldNone(head);
    ToldAll(tail);
    assert Told(f.log) == [] + ([] + tail) == tail;
    forall i | 0 <= i < |tail| ensures Carries(tail[i], s.pendingOps[i], f.environment) {
      assert tail[i] == SentOp(s.pendingOps[i], f.currentUserId, f.environment);
    }
  }

  lemma LogAccounts(s: State, e: Sent, asked: seq<Op>)
    requires s.initialized && Accounted(s, asked)
    ensures !IsOp(e) ==> Told(s.log + [e]) == Told(s.log)
    ensures IsOp(e) ==> Told(s.log + [e]) == Told(s.log) + [e]
  {
    hide Told;
    ToldConcat(s.log, [e]);
    if IsOp(e) {
      ToldAll([e]);
    } else {
      ToldNone([e]);
    }
  }

  lemma StepAccounts(s: State, c: Call, asked: seq<Op>)
    requires Accounted(s, asked) && !c.Reset?
    ensures Accounted(Step(s, c), asked + Asked([c]))
  {
    hide Told, Enriched, NormalizePageviewPath;
    assert [c][1..] == [];
    assert Asked([]) == [];
    assert asked + [] == asked;
    if c.Init? {
      if Starts(s, c) {
        FlushAccounts(s, c.config.value);
      }
    } else if s.initialized {
      var next := Step(s, c);
      if next.log != s.log {
        var e := next.log[|next.log| - 1];
        assert next.log == s.log + [e];
        LogAccounts(s, e, asked);
        if IsOp(e) {
          var op := if c.Event? then EventOp(c.name, c.props) else SetOp(c.person);
          assert Asked([c]) == [op];
          assert e == SentOp(op, s.currentUserId, s.environment);
          assert Carries(e, op, s.environment);
        }
      }
    }
  }

  lemma {:induction false} AskedConcat(a: seq<Call>, b: seq<Call>)
    ensures Asked(a + b) == Asked(a) + Asked(b)
  {
    if a == [] {
      assert a + b == b;
    } else {
      assert (a + b)[1..] == a[1..] + b;
      AskedConcat(a[1..], b);
    }
  }

  lemma {:induction false} RunAccounts(s: State, calls: seq<Call>, asked: seq<Op>)
    requires Accounted(s, asked) && ResetFree(calls)
    ensures Accounted(Run(s, calls), asked + Asked(calls))
    decreases |calls|
  {
    hide Accounted, Step, Asked;
    if calls == [] {
      assert Asked([]) == [] by {
        NothingAsked();
      }
      assert asked + [] == asked;
    } else {
      StepAccounts(s, calls[0], asked);
      RunAccounts(Step(s, calls[0]), calls[1..], asked + Asked([calls[0]]));
      assert calls == [calls[0]] + calls[1..];
      AskedConcat([calls[0]], calls[1..]);
      assert (asked + Asked([calls[0]])) + Asked(calls[1..]) == asked + Asked(calls);
    }
  }

  lemma NothingAsked()
    ensures Asked([]) == []
  {
  }

  /**
   Wherever the initialization falls in a reset-free session, every event and person update is told
   exactly once, in the order it was asked for, under its own name and with the caller's properties.
   */
  lemma EveryOpToldOnce(calls: seq<Call>)
    requires ResetFree(calls)
    ensures var s := Run(START, calls);
            if s.initialized then CarriesAll(Told(s.log), Asked(calls), s.environment)
            else s.pendingOps == Asked(calls) && Told(s.log) == []
  {
    assert Told([]) == [];
    RunAccounts(START, calls, []);
    assert [] + Asked(calls) == Asked(calls);
  }

  /** The caller's own properties are never overwritten, and only the four defaults are added. */
  lemma CallerPropertiesKept(props: Option<Props>, user: Option<string>, environment: string, key: string)
    ensures var own := if props.Some? then props.value else map[];
            var sent := Enriched(props, user, environment);
            && (key in own ==> key in sent && sent[key] == own[key])
            && (key !in own ==>
                  (key in sent <==> key in {"event_schema_version", "environment", "is_demo"} ||
                                    (key == "user_id" && user.Some? && user.value != "")))
            && (key !in own && key in sent ==>
                  sent[key] == if key == "user_id" then Text(user.value)
                               else if key == "event_schema_version" then Number(2)
                               else if key == "environment" then Text(environment)
                               else Flag(false))
  {
  }

  /** Two transmissions that differ at most in the user they name. */
  ghost predicate SameButUser(a: Sent, b: Sent) {
    || a == b
    || (a.Captured? && b.Captured? && a.name == b.name && a.props - {"user_id"} == b.props - {"user_id"})
  }

  lemma EnrichedButUser(props: Option<Props>, u: Option<string>, v: Option<string>, environment: string)
    ensures Enriched(props, u, environment) - {"user_id"} == Enriched(props, v, environment) - {"user_id"}
  {
    var a, b := Enriched(props, u, environment), Enriched(props, v, environment);
    forall k | k != "user_id" ensures (k in a <==> k in b) && (k in a ==> a[k] == b[k]) {
    }
  }

  lemma {:induction false} RunConcat(s: State, a: seq<Call>, b: seq<Call>)
    ensures Run(s, a + b) == Run(Run(s, a), b)
    decreases |a|
  {
    if a == [] {
      assert a + b == b;
    } else {
      assert (a + b)[1..] == a[1..] + b;
      RunConcat(Step(s, a[0]), a[1..], b);
    }
  }

  lemma {:induction false} StaysInitialized(s: State, calls: seq<Call>)
    requires s.initialized
    ensures Run(s, calls).initialized && Run(s, calls).environment == s.environment
    decreases |calls|
  {
    hide NormalizePageviewPath, Enriched;
    if calls != [] {
      StaysInitialized(Step(s, calls[0]), calls[1..]);
    }
  }

  lemma {:induction false} StaysUninitialized(s: State, calls: seq<Call>)
    requires !s.initialized && forall c :: c in calls ==> !Starts(START, c)
    ensures !Run(s, calls).initialized
    decreases |calls|
  {
    hide NormalizePageviewPath, Enriched;
    if calls != [] {
      assert calls[0] in calls;
      StaysUninitialized(Step(s, calls[0]), calls[1..]);
    }
  }

  lemma InitTakesEffect(before: seq<Call>, init: Call, after: seq<Call>)
    requires init.Init? && Starts(START, init) && forall c :: c in before ==> !Starts(START, c)
    ensures var s := Run(START, before + [init] + after);
            s.initialized && s.environment == init.config.value.environment
  {
    hide NormalizePageviewPath, Enriched, Run;
    RunConcat(START, before + [init], after);
    RunConcat(START, before, [init]);
    StaysUninitialized(START, before);
    var s := Run(START, before);
    assert Run(s, [init]) == Step(s, init) by {
      RunOne(s, init);
    }
    StaysInitialized(Step(s, init), after);
  }

  lemma RunOne(s: State, c: Call)
    ensures Run(s, [c]) == Step(s, c)
  {
    assert [c][1..] == [];
  }

  /**
   Late initialization is transparent: moving it behind any reset-free stretch of calls leaves the same
   events and person updates, in the same order, up to the user id that is stamped at sending time.
   */
  lemma LateInitIsTransparent(before: seq<Call>, init: Call, between: seq<Call>, after: seq<Call>)
    requires init.Init? && Starts(START, init)
    requires forall c :: c in before + between ==> !Starts(START, c)
    requires ResetFree(before + between + after)
    ensures var early := Run(START, before + [init] + (between + after));
            var late := Run(START, (before + between) + [init] + after);
            && |Told(early.log)| == |Told(late.log)| == |Asked(before + between + after)|
            && forall i :: 0 <= i < |Told(early.log)| ==> SameButUser(Told(early.log)[i], Told(late.log)[i])
  {
    hide Run, Told, Asked, Starts, SameButUser;
    InitTakesEffect(before, init, between + after);
    InitTakesEffect(before + between, init, after);
    var a, b := before + [init] + (between + after), (before + between) + [init] + after;
    EveryOpToldOnce(a);
    EveryOpToldOnce(b);
    SameAsked(before, init, between, after);
    var early, late := Run(START, a), Run(START, b);
    var ops := Asked(before + between + after);
    forall i | 0 <= i < |ops| ensures SameButUser(Told(early.log)[i], Told(late.log)[i]) {
      CarriersAgree(Told(early.log)[i], Told(late.log)[i], ops[i], early.environment);
    }
  }

  lemma SameAsked(before: seq<Call>, init: Call, between: seq<Call>, after: seq<Call>)
    requires init.Init?
    ensures Asked(before + [init] + (between + after)) == Asked(before + between + after)
    ensures Asked((before + between) + [init] + after) == Asked(before + between + after)
  {
    hide Asked;
    AskedAround(before, init, between + after);
    AskedAround(before + between, init, after);
    assert before + (between + after) == before + between + after;
  }

  lemma AskedAround(before: seq<Call>, init: Call, after: seq<Call>)
    requires init.Init?
    ensures Asked(before + [init] + after) == Asked(before + after)
  {
    AskedConcat(before + [init], after);
    AskedConcat(before, [init]);
    AskedConcat(before, after);
    AskedInit(init);
    assert Asked(before) + [] == Asked(before);
  }

  lemma AskedInit(init: Call)
    requires init.Init?
    ensures Asked([init]) == []
  {
    assert [init][1..] == [];
  }

  lemma CarriersAgree(a: Sent, b: Sent, op: Op, environment: string)
    requires Carries(a, op, environment) && Carries(b, op, environment)
    ensures SameButUser(a, b)
  {
    hide Enriched;
    var u: Option<string> :| a == SentOp(op, u, environment);
    var v: Option<string> :| b == SentOp(op, v, environment);
    if op.EventOp? {
      EnrichedButUser(op.props, u, v, environment);
    }
  }

  // ---------------------------------------------------------------------------
  // When a late initialization changes nothing at all
  // ---------------------------------------------------------------------------

  /** The user known after the calls, in a session without resets. */
  function UserAfter(user: Option<string>, calls: seq<Call>): Option<string>
    decreases |calls|
  {
    if calls == [] then user
    else UserAfter(if calls[0].Identify? then Some(calls[0].userId) else user, calls[1..])
  }

  /** What a running module tells the library over the calls, each event under the user known by then. */
  function ToldLive(user: Option<string>, calls: seq<Call>, environment: string): seq<Sent>
    decreases |calls|
  {
    if calls == [] then []
    else SentOps(OpsOf(calls[0]), user, environment) +
         ToldLive(UserAfter(user, calls[..1]), calls[1..], environment)
  }

  /** The user id an event is stamped with; the empty id stamps nothing. */
  function Stamp(user: Option<string>): Option<string> {
    if user == Some("") then None else user
  }

  /** An event whose caller did not set the user id. */
  predicate Anonymous(c: Call) {
    c.Event? && (c.props.Some? ==> "user_id" !in c.props.value)
  }

  lemma UserStep(user: Option<string>, c: Call)
    ensures UserAfter(user, [c]) == if c.Identify? then Some(c.userId) else user
  {
    assert [c][1..] == [];
  }

  lemma {:induction false} UserConcat(user: Option<string>, a: seq<Call>, b: seq<Call>)
    ensures UserAfter(user, a + b) == UserAfter(UserAfter(user, a), b)
    decreases |a|
  {
    if a == [] {
      assert a + b == b;
    } else {
      assert (a + b)[1..] == a[1..] + b;
      UserConcat(if a[0].Identify? then Some(a[0].userId) else user, a[1..], b);
    }
  }

  lemma ToldLiveCons(user: Option<string>, c: Call, rest: seq<Call>, environment: string)
    ensures ToldLive(user, [c] + rest, environment) ==
            SentOps(OpsOf(c), user, environment) + ToldLive(UserAfter(user, [c]), rest, environment)
  {
    hide SentOps, UserAfter;
    assert ([c] + rest)[1..] == rest && ([c] + rest)[..1] == [c];
  }

  lemma {:induction false} ToldLiveConcat(user: Option<string>, a: seq<Call>, b: seq<Call>, environment: string)
    ensures ToldLive(user, a + b, environment) ==
            ToldLive(user, a, environment) + ToldLive(UserAfter(user, a), b, environment)
    decreases |a|
  {
    hide SentOps;
    if a == [] {
      assert a + b == b;
    } else {
      var c, rest := a[0], a[1..];
      var next := UserAfter(user, [c]);
      assert a == [c] + rest && a + b == [c] + (rest + b);
      hide ToldLive, UserAfter, OpsOf;
      UserConcat(user, [c], rest);
      ToldLiveCons(user, c, rest, environment);
      ToldLiveCons(user, c, rest + b, environment);
      ToldLiveConcat(next, rest, b, environment);
      Assoc(SentOps(OpsOf(c), user, environment), ToldLive(next, rest, environment),
            ToldLive(UserAfter(next, rest), b, environment));
    }
  }

  /** A running module adds exactly that to what it told before. */
  lemma {:induction false} RunTells(s: State, calls: seq<Call>)
    requires s.initialized && ResetFree(calls)
    ensures Told(Run(s, calls).log) == Told(s.log) + ToldLive(s.currentUserId, calls, s.environment)
    decreases |calls|
  {
    hide Told, SentOp, NormalizePageviewPath;
    if calls == [] {
      assert Told(s.log) + [] == Told(s.log);
    } else {
      StepTells(s, calls[0]);
      assert calls[..1] == [calls[0]];
      hide Step;
      RunTells(Step(s, calls[0]), calls[1..]);
    }
  }

  lemma StepTells(s: State, c: Call)
    requires s.initialized && !c.Reset?
    ensures var next := Step(s, c);
            && next.initialized && next.environment == s.environment
            && next.currentUserId == UserAfter(s.currentUserId, [c])
            && Told(next.log) == Told(s.log) + SentOps(OpsOf(c), s.currentUserId, s.environment)
  {
    hide Told, Enriched, NormalizePageviewPath;
    UserStep(s.currentUserId, c);
    var next := Step(s, c);
    var sent := SentOps(OpsOf(c), s.currentUserId, s.environment);
    if c.Event? || c.SetPerson? {
      assert next.log == s.log + sent;
      ToldConcat(s.log, sent);
      ToldAll(sent);
    } else {
      assert sent == [] && Told(s.log) + [] == Told(s.log);
      if next.log != s.log {
        var e := next.log[|next.log| - 1];
        assert next.log == s.log + [e];
        ToldConcat(s.log, [e]);
        ToldNone([e]);
      }
    }
  }

  /** A module that is not running only buffers, and remembers the user. */
  ghost predicate Buffers(s: State, asked: seq<Op>, user: Option<string>) {
    && !s.initialized && s.log == [] && s.pendingOps == asked && s.currentUserId == user
    && (s.pendingIdentify.Some? ==> user == Some(s.pendingIdentify.value.0))
  }

  lemma {:induction false} RunBuffers(s: State, calls: seq<Call>, asked: seq<Op>, user: Option<string>)
    requires Buffers(s, asked, user) && ResetFree(calls) && forall c :: c in calls ==> !Starts(START, c)
    ensures Buffers(Run(s, calls), asked + Asked(calls), UserAfter(user, calls))
    decreases |calls|
  {
    hide NormalizePageviewPath, Enriched;
    if calls == [] {
      assert asked + [] == asked;
    } else {
      var c := calls[0];
      assert c in calls;
      RunBuffers(Step(s, c), calls[1..], asked + OpsOf(c), if c.Identify? then Some(c.userId) else user);
      assert (asked + OpsOf(c)) + Asked(calls[1..]) == asked + (OpsOf(c) + Asked(calls[1..]));
      assert asked + [] == asked;
    }
  }

  lemma FlushTells(s: State, config: Config, asked: seq<Op>, user: Option<string>)
    requires Buffers(s, asked, user)
    ensures var f := Flushed(s, config);
            && f.initialized && f.environment == config.environment && f.currentUserId == user
            && Told(f.log) == SentOps(asked, user, config.environment)
  {
    hide Told, SuperProperties;
    var f := Flushed(s, config);
    var tail := SentOps(asked, user, config.environment);
    var identify, page := SentIdentify(s.pendingIdentify), SentPage(s.pendingPageview);
    var head := [Started(config.key), Registered(f.superProperties)] + identify + page;
    assert f.log == head + tail;
    ToldConcat(head, tail);
    ToldNone(head);
    ToldAll(tail);
    assert [] + tail == tail;
  }

  /**
   Everything a session tells: what was asked for before the initialization, all under the user known at
   that moment, and the rest live.
   */
  lemma SessionTells(before: seq<Call>, init: Call, after: seq<Call>)
    requires init.Init? && Starts(START, init) && forall c :: c in before ==> !Starts(START, c)
    requires ResetFree(before) && ResetFree(after)
    ensures var user, environment := UserAfter(None, before), init.config.value.environment;
            Told(Run(START, before + [init] + after).log) ==
            SentOps(Asked(before), user, environment) + ToldLive(user, after, environment)
  {
    hide Run, Told, Asked, ToldLive, UserAfter, SentOps, Flushed;
    var s := Run(START, before);
    RunBuffers(START, before, [], None);
    assert [] + Asked(before) == Asked(before);
    RunConcat(START, before + [init], after);
    RunConcat(START, before, [init]);
    RunOne(s, init);
    FlushTells(s, init.config.value, Asked(before), UserAfter(None, before));
    RunTells(Step(s, init), after);
  }

  /** Two stampings of one operation agree exactly when the stamps do or the caller set the user id. */
  lemma StampingsAgree(c: Call, u: Option<string>, v: Option<string>, environment: string)
    ensures SentOps(OpsOf(c), u, environment) == SentOps(OpsOf(c), v, environment) <==>
            (Anonymous(c) ==> Stamp(u) == Stamp(v))
  {
    var a, b := SentOps(OpsOf(c), u, environment), SentOps(OpsOf(c), v, environment);
    if c.Event? {
      hide SentOps;
      assert a == [SentOp(EventOp(c.name, c.props), u, environment)];
      assert b == [SentOp(EventOp(c.name, c.props), v, environment)];
      assert a == b <==> Enriched(c.props, u, environment) == Enriched(c.props, v, environment);
      EnrichedStamps(c.props, u, v, environment);
    }
  }

  lemma EnrichedStamps(props: Option<Props>, u: Option<string>, v: Option<string>, environment: string)
    ensures Enriched(props, u, environment) == Enriched(props, v, environment) <==>
            ((props.Some? && "user_id" in props.value) || Stamp(u) == Stamp(v))
  {
    var a, b := Enriched(props, u, environment), Enriched(props, v, environment);
    if (props.Some? && "user_id" in props.value) || Stamp(u) == Stamp(v) {
      EnrichedByStamp(props, u, environment);
      EnrichedByStamp(props, v, environment);
    } else {
      UserIdOf(props, u, environment);
      UserIdOf(props, v, environment);
    }
  }

  lemma EnrichedByStamp(props: Option<Props>, u: Option<string>, environment: string)
    ensures Enriched(props, u, environment) == Enriched(props, Stamp(u), environment)
    ensures props.Some? && "user_id" in props.value ==> Enriched(props, u, environment) == Enriched(props, None, environment)
  {
  }

  lemma UserIdOf(props: Option<Props>, u: Option<string>, environment: string)
    requires props.Some? ==> "user_id" !in props.value
    ensures var a := Enriched(props, u, environment);
            if Stamp(u).None? then "user_id" !in a else "user_id" in a && a["user_id"] == Text(Stamp(u).value)
  {
  }

  lemma SentOpsConcat(a: seq<Op>, b: seq<Op>, user: Option<string>, environment: string)
    ensures SentOps(a + b, user, environment) == SentOps(a, user, environment) + SentOps(b, user, environment)
  {
  }

  /** Sending the buffer under one user or another: the same exactly when no event takes the stamp. */
  lemma {:induction false} BufferAgrees(calls: seq<Call>, u: Option<string>, v: Option<string>, environment: string)
    ensures SentOps(Asked(calls), u, environment) == SentOps(Asked(calls), v, environment) <==>
            forall k :: 0 <= k < |calls| && Anonymous(calls[k]) ==> Stamp(u) == Stamp(v)
    decreases |calls|
  {
    hide SentOps, Anonymous, Stamp;
    if calls == [] {
    } else {
      var c := calls[0];
      assert Asked(calls) == OpsOf(c) + Asked(calls[1..]);
      hide Asked;
      SentOpsConcat(OpsOf(c), Asked(calls[1..]), u, environment);
      SentOpsConcat(OpsOf(c), Asked(calls[1..]), v, environment);
      StampingsAgree(c, u, v, environment);
      BufferAgrees(calls[1..], u, v, environment);
      SameParts(SentOps(OpsOf(c), u, environment), SentOps(Asked(calls[1..]), u, environment),
                SentOps(OpsOf(c), v, environment), SentOps(Asked(calls[1..]), v, environment));
      assert forall k :: 0 < k < |calls| ==> calls[k] == calls[1..][k - 1];
    }
  }

  lemma SameParts(a: seq<Sent>, b: seq<Sent>, c: seq<Sent>, d: seq<Sent>)
    requires |a| == |c|
    ensures a + b == c + d <==> a == c && b == d
  {
    assert (a + b)[..|a|] == a && (a + b)[|a|..] == b;
    assert (c + d)[..|a|] == c && (c + d)[|a|..] == d;
  }

  /** Telling the calls live or all at the end under one user. */
  lemma {:induction false} LiveAgrees(calls: seq<Call>, u: Option<string>, v: Option<string>, environment: string)
    ensures ToldLive(u, calls, environment) == SentOps(Asked(calls), v, environment) <==>
            forall k :: 0 <= k < |calls| && Anonymous(calls[k]) ==> Stamp(UserAfter(u, calls[..k])) == Stamp(v)
    ensures |ToldLive(u, calls, environment)| == |Asked(calls)|
    decreases |calls|
  {
    hide SentOps, Anonymous, Stamp;
    if calls == [] {
    } else {
      var c, rest := calls[0], calls[1..];
      var next := UserAfter(u, calls[..1]);
      assert calls[..1] == [c];
      UserStep(u, c);
      assert Asked(calls) == OpsOf(c) + Asked(rest);
      assert ToldLive(u, calls, environment) == SentOps(OpsOf(c), u, environment) + ToldLive(next, rest, environment);
      hide Asked, ToldLive;
      SentOpsConcat(OpsOf(c), Asked(rest), v, environment);
      StampingsAgree(c, u, v, environment);
      LiveAgrees(rest, next, v, environment);
      SameParts(SentOps(OpsOf(c), u, environment), ToldLive(next, rest, environment),
                SentOps(OpsOf(c), v, environment), SentOps(Asked(rest), v, environment));
      forall k | 0 < k < |calls|
        ensures calls[k] == rest[k - 1] && UserAfter(u, calls[..k]) == UserAfter(next, rest[..k - 1])
      {
        assert calls[..k] == [c] + rest[..k - 1];
        UserConcat(u, [c], rest[..k - 1]);
      }
      assert calls[..0] == [];
    }
  }

  /** The user under which an initialization after the first `from` calls sends the `k`-th call. */
  function SentUnder(calls: seq<Call>, from: nat, k: nat): Option<string>
    requires from <= |calls| && k < |calls|
  {
    UserAfter(None, calls[..if k < from then from else k])
  }

  /** What the two sessions tell, cut behind `before`, behind `between` and at the end. */
  lemma BothTell(before: seq<Call>, init: Call, between: seq<Call>, after: seq<Call>)
    requires init.Init? && Starts(START, init)
    requires forall c :: c in before + between ==> !Starts(START, c)
    requires ResetFree(before + between + after)
    ensures var calls, environment := before + between, init.config.value.environment;
            var u, v := UserAfter(None, before), UserAfter(None, calls);
            var rest := ToldLive(v, after, environment);
            && Told(Run(START, before + [init] + (between + after)).log) ==
               (SentOps(Asked(before), u, environment) + ToldLive(u, between, environment)) + rest
            && Told(Run(START, calls + [init] + after).log) ==
               (SentOps(Asked(before), v, environment) + SentOps(Asked(between), v, environment)) + rest
            && |SentOps(Asked(before), u, environment)| == |SentOps(Asked(before), v, environment)|
            && |ToldLive(u, between, environment)| == |SentOps(Asked(between), v, environment)|
  {
    hide Run, Told, Asked, ToldLive, UserAfter, SentOps;
    var calls, environment := before + between, init.config.value.environment;
    hide Starts;
    var u, v := UserAfter(None, before), UserAfter(None, calls);
    SessionTells(before, init, between + after);
    SessionTells(calls, init, after);
    ToldLiveConcat(u, between, after, environment);
    UserConcat(None, before, between);
    AskedConcat(before, between);
    SentOpsConcat(Asked(before), Asked(between), v, environment);
    LiveCount(between, u, environment);
  }

  lemma LiveCount(calls: seq<Call>, u: Option<string>, environment: string)
    ensures |ToldLive(u, calls, environment)| == |Asked(calls)|
  {
    LiveAgrees(calls, u, u, environment);
  }

  /**
   Moving the initialization from `before` to behind `between` leaves every transmission as it is exactly
   when each event there that takes the user's stamp would take the same one at either moment.
   */
  lemma LateInitChangesNothingExactly(before: seq<Call>, init: Call, between: seq<Call>, after: seq<Call>)
    requires init.Init? && Starts(START, init)
    requires forall c :: c in before + between ==> !Starts(START, c)
    requires ResetFree(before + between + after)
    ensures var calls := before + between;
            Told(Run(START, before + [init] + (between + after)).log) == Told(Run(START, calls + [init] + after).log) <==>
            forall k :: 0 <= k < |calls| && Anonymous(calls[k]) ==>
              Stamp(SentUnder(calls, |before|, k)) == Stamp(UserAfter(None, calls))
  {
    var calls, environment := before + between, init.config.value.environment;
    hide Starts, SentUnder, Stamp, Anonymous, Told, Run;
    BothTell(before, init, between, after);
    hide Asked, ToldLive, SentOps;
    var u, v := UserAfter(None, before), UserAfter(None, calls);
    hide UserAfter;
    SameParts(SentOps(Asked(before), u, environment), ToldLive(u, between, environment),
              SentOps(Asked(before), v, environment), SentOps(Asked(between), v, environment));
    SameParts(SentOps(Asked(before), u, environment) + ToldLive(u, between, environment), ToldLive(v, after, environment),
              SentOps(Asked(before), v, environment) + SentOps(Asked(between), v, environment),
              ToldLive(v, after, environment));
    BufferAgrees(before, u, v, environment);
    LiveAgrees(between, u, v, environment);
    StampsByPart(before, between);
  }

  /** The stamps of the whole stretch, part by part. */
  lemma StampsByPart(before: seq<Call>, between: seq<Call>)
    ensures var calls := before + between;
            var u, v := UserAfter(None, before), UserAfter(None, calls);
            (forall k :: 0 <= k < |calls| && Anonymous(calls[k]) ==>
               Stamp(SentUnder(calls, |before|, k)) == Stamp(v)) <==>
            ((forall k :: 0 <= k < |before| && Anonymous(before[k]) ==> Stamp(u) == Stamp(v)) &&
             (forall k :: 0 <= k < |between| && Anonymous(between[k]) ==>
                Stamp(UserAfter(u, between[..k])) == Stamp(v)))
  {
    hide UserAfter, Stamp, Anonymous;
    var calls := before + between;
    forall k | 0 <= k < |before| ensures calls[k] == before[k] && SentUnder(calls, |before|, k) == UserAfter(None, before) {
      assert calls[..|before|] == before;
    }
    forall k | 0 <= k < |between|
      ensures calls[|before| + k] == between[k]
      ensures SentUnder(calls, |before|, |before| + k) == UserAfter(UserAfter(None, before), between[..k])
    {
      assert calls[..|before| + k] == before + between[..k];
      UserConcat(None, before, between[..k]);
    }
    forall k | |before| <= k < |calls|
      ensures calls[k] == between[k - |before|]
      ensures SentUnder(calls, |before|, k) == UserAfter(UserAfter(None, before), between[..k - |before|])
    {
      assert k == |before| + (k - |before|);
    }
  }

  /**
   The user id is the one thing that can differ: an event buffered before the login is replayed under
   the user who logged in meanwhile.
   */
  lemma LateInitStampsLaterUser(name: string, user: string, init: Call)
    requires init.Init? && Starts(START, init) && user != ""
    ensures var early := Run(START, [init, Event(name, None), Identify(user, None)]);
            var late := Run(START, [Event(name, None), Identify(user, None), init]);
            && Captured(name, Enriched(None, None, init.config.value.environment)) in early.log
            && Captured(name, Enriched(None, Some(user), init.config.value.environment)) in late.log
            && "user_id" !in Enriched(None, None, init.config.value.environment)
            && "user_id" in Enriched(None, Some(user), init.config.value.environment)
  {
    var environment := init.config.value.environment;
    hide Run, Starts, Enriched;
    StampedEarly(name, user, init);
    StampedLate(name, user, init);
    UserIdOf(None, None, environment);
    UserIdOf(None, Some(user), environment);
  }

  lemma StampedEarly(name: string, user: string, init: Call)
    requires init.Init? && Starts(START, init)
    ensures Captured(name, Enriched(None, None, init.config.value.environment)) in
            Run(START, [init, Event(name, None), Identify(user, None)]).log
  {
    var calls, environment := [Event(name, None), Identify(user, None)], init.config.value.environment;
    hide Run, Told, Starts, Enriched, SentOps, ToldLive, UserAfter, Asked;
    SessionTells([], init, calls);
    TwoCalls(name, user, environment);
    NothingTold(environment);
    assert [] + [init] + calls == [init, Event(name, None), Identify(user, None)];
    ToldIsLogged(Run(START, [] + [init] + calls).log, Captured(name, Enriched(None, None, environment)));
  }

  lemma StampedLate(name: string, user: string, init: Call)
    requires init.Init? && Starts(START, init)
    ensures Captured(name, Enriched(None, Some(user), init.config.value.environment)) in
            Run(START, [Event(name, None), Identify(user, None), init]).log
  {
    var calls, environment := [Event(name, None), Identify(user, None)], init.config.value.environment;
    hide Run, Told, Starts, Enriched, SentOps, ToldLive, UserAfter, Asked;
    SessionTells(calls, init, []);
    TwoCalls(name, user, environment);
    NothingTold(environment);
    SentOpsOne(EventOp(name, None), Some(user), environment);
    assert calls + [init] + [] == [Event(name, None), Identify(user, None), init];
    ToldIsLogged(Run(START, calls + [init] + []).log, Captured(name, Enriched(None, Some(user), environment)));
  }

  /** An event and then a login: what is told live, buffered, and who is known in the end. */
  lemma TwoCalls(name: string, user: string, environment: string)
    ensures var calls := [Event(name, None), Identify(user, None)];
            && ToldLive(None, calls, environment) == [Captured(name, Enriched(None, None, environment))]
            && Asked(calls) == [EventOp(name, None)] && UserAfter(None, calls) == Some(user)
  {
    hide Enriched, SentOps;
    var e, login := Event(name, None), Identify(user, None);
    assert [e, login] == [e] + [login] && [login] == [login] + [];
    UserStep(None, e);
    UserStep(None, login);
    UserConcat(None, [e], [login]);
    AskedConcat([e], [login]);
    assert Asked([e]) == [EventOp(name, None)] && Asked([login]) == [];
    hide UserAfter, Asked;
    ToldLiveCons(None, e, [login], environment);
    ToldLiveCons(None, login, [], environment);
    SentOpsOne(EventOp(name, None), None, environment);
  }

  lemma NothingTold(environment: string)
    ensures Asked([]) == [] && UserAfter(None, []) == None && SentOps([], None, environment) == []
    ensures forall user :: ToldLive(user, [], environment) == []
  {
  }

  lemma SentOpsOne(op: Op, user: Option<string>, environment: string)
    ensures SentOps([op], user, environment) == [SentOp(op, user, environment)]
    ensures SentOps([], user, environment) == []
  {
  }

  lemma ToldIsLogged(log: seq<Sent>, e: Sent)
    ensures e in Told(log) ==> e in log
  {
  }

  // ---------------------------------------------------------------------------
  // Resets
  // ---------------------------------------------------------------------------

  /** Nothing is buffered once initialized; nothing is logged before. */
  ghost predicate Consistent(s: State) {
    if s.initialized then s.pendingOps == [] && s.pendingIdentify == None && s.pendingPageview == None
    else s.log == [] && s.environment == "dev" && s.superProperties == map[] && s.lastCapturedPath == None
  }

  lemma {:induction false} RunConsistent(s: State, calls: seq<Call>)
    requires Consistent(s)
    ensures Consistent(Run(s, calls))
    decreases |calls|
  {
    hide NormalizePageviewPath, Enriched;
    if calls != [] {
      RunConsistent(Step(s, calls[0]), calls[1..]);
    }
  }

  /**
   Nothing buffered before a reset is sent after it: a reset before the initialization leaves the
   initial state, one after it finds empty buffers.
   */
  lemma ResetForgets(before: seq<Call>, after: seq<Call>)
    ensures var s := Run(START, before);
            if s.initialized then s.pendingOps == [] && s.pendingIdentify == None && s.pendingPageview == None
            else Run(START, before + [Reset] + after) == Run(START, after)
  {
    hide NormalizePageviewPath, Enriched, Run;
    RunStart();
    RunConsistent(START, before);
    RunConcat(START, before + [Reset], after);
    RunConcat(START, before, [Reset]);
    RunOne(Run(START, before), Reset);
  }

  lemma RunStart()
    ensures Consistent(START)
  {
  }

  // ---------------------------------------------------------------------------
  // Pageviews
  // ---------------------------------------------------------------------------

  /** The url of the last pageview since the last reset. */
  function LastUrl(log: seq<Sent>): Option<string> {
    if log == [] then None
    else
      match log[|log| - 1]
      case Cleared => None
      case Pageview(url) => url
      case _ => LastUrl(log[..|log| - 1])
  }

  /** No pageview repeats the url of the one before it, unless a reset lies between. */
  ghost predicate NoRepeat(log: seq<Sent>) {
    log == [] ||
    (NoRepeat(log[..|log| - 1]) &&
     (var e := log[|log| - 1]; e.Pageview? && e.url.Some? ==>
        e.url != Some("") && e.url != LastUrl(log[..|log| - 1]) && NormalizePageviewPath(e.url) == e.url))
  }

  ghost predicate PagesOk(s: State) {
    && NoRepeat(s.log)
    && (s.initialized ==> Url(s.lastCapturedPath) == LastUrl(s.log))
    && (!s.initialized ==> s.log == [] && s.lastCapturedPath == None)
    && (s.pendingPageview.Some? ==> NormalizePageviewPath(s.pendingPageview) == s.pendingPageview)
  }

  lemma PushSent(log: seq<Sent>, e: Sent)
    ensures LastUrl(log + [e]) == (if e.Cleared? then None else if e.Pageview? then e.url else LastUrl(log))
    ensures NoRepeat(log + [e]) <==>
            (NoRepeat(log) &&
             (e.Pageview? && e.url.Some? ==>
                e.url != Some("") && e.url != LastUrl(log) && NormalizePageviewPath(e.url) == e.url))
  {
    assert (log + [e])[..|log|] == log;
  }

  lemma {:induction false} PushOps(log: seq<Sent>, more: seq<Sent>)
    requires NoRepeat(log) && forall e :: e in more ==> !e.Pageview? && !e.Cleared?
    ensures NoRepeat(log + more) && LastUrl(log + more) == LastUrl(log)
    decreases |more|
  {
    hide NormalizePageviewPath;
    if more == [] {
      assert log + more == log;
    } else {
      PushSent(log, more[0]);
      PushOps(log + [more[0]], more[1..]);
      assert log + more == (log + [more[0]]) + more[1..];
    }
  }

  lemma FlushPages(s: State, config: Config)
    requires PagesOk(s) && !s.initialized
    ensures PagesOk(Flushed(s, config))
  {
    hide NormalizePageviewPath, NoRepeat, LastUrl, SuperProperties;
    var f := Flushed(s, config);
    var identify := SentIdentify(s.pendingIdentify);
    var head := [Started(config.key), Registered(f.superProperties)] + identify;
    var tail := SentOps(s.pendingOps, f.currentUserId, config.environment);
    EmptyPages();
    PushOps([], head);
    assert [] + head == head;
    if s.pendingPageview.Some? {
      var page := Pageview(Url(s.pendingPageview));
      PushSent(head, page);
      PushOps(head + [page], tail);
      assert f.log == head + [page] + tail;
    } else {
      PushOps(head, tail);
      assert f.log == head + [] + tail == head + tail;
    }
  }

  lemma EmptyPages()
    ensures NoRepeat([]) && LastUrl([]) == None
  {
  }

  lemma StepPages(s: State, c: Call)
    requires PagesOk(s)
    ensures PagesOk(Step(s, c))
  {
    hide NormalizePageviewPath, NoRepeat, LastUrl, Enriched;
    var next := Step(s, c);
    match c
    case Init(_, config) =>
      if Starts(s, c) {
        FlushPages(s, config.value);
      }
    case Reset =>
      if s.initialized {
        PushSent(s.log, Cleared);
        if s.superProperties != map[] {
          PushSent(s.log + [Cleared], Registered(s.superProperties));
        } else {
          assert s.log + [Cleared] + [] == s.log + [Cleared];
        }
      }
    case PageviewCall(path) =>
      NormalizationIsIdempotent(path);
      NormalizedEmpty();
      if s.initialized && next.log != s.log {
        PushSent(s.log, Pageview(Url(NormalizePageviewPath(path))));
      }
    case _ =>
      if s.initialized {
        PushSent(s.log, next.log[|next.log| - 1]);
      }
  }

  lemma NormalizedEmpty()
    ensures NormalizePageviewPath(Some("")) == Some("")
  {
  }

  lemma {:induction false} RunPages(s: State, calls: seq<Call>)
    requires PagesOk(s)
    ensures PagesOk(Run(s, calls))
    decreases |calls|
  {
    hide PagesOk, Step;
    if calls != [] {
      StepPages(s, calls[0]);
      RunPages(Step(s, calls[0]), calls[1..]);
    }
  }

  /**
   In every session no two successive pageviews between resets report the same section, and every
   reported path is in normal form.
   */
  lemma NoRepeatedPageviews(calls: seq<Call>)
    ensures NoRepeat(Run(START, calls).log)
  {
    assert PagesOk(START);
    RunPages(START, calls);
  }

  /** Neither an effective initialization nor a reset. */
  ghost predicate Quiet(calls: seq<Call>) {
    forall c :: c in calls ==> !Starts(START, c) && !c.Reset?
  }

  /** Calls without pageviews leave the waiting pageview as it is. */
  lemma {:induction false} RunKeepsWaiting(s: State, calls: seq<Call>)
    requires !s.initialized && Quiet(calls) && forall c :: c in calls ==> !c.PageviewCall?
    ensures !Run(s, calls).initialized && Run(s, calls).pendingPageview == s.pendingPageview
    decreases |calls|
  {
    hide NormalizePageviewPath;
    if calls != [] {
      assert calls[0] in calls;
      RunKeepsWaiting(Step(s, calls[0]), calls[1..]);
    }
  }

  lemma {:induction false} RunStaysQuiet(s: State, calls: seq<Call>)
    requires !s.initialized && s.log == [] && Quiet(calls)
    ensures !Run(s, calls).initialized && Run(s, calls).log == []
    decreases |calls|
  {
    hide NormalizePageviewPath;
    if calls != [] {
      assert calls[0] in calls;
      RunStaysQuiet(Step(s, calls[0]), calls[1..]);
    }
  }

  /** Over any calls before the initialization the waiting pageview is the last one asked for. */
  lemma LastPageviewWaits(calls: seq<Call>, last: nat)
    requires Quiet(calls) && last < |calls| && calls[last].PageviewCall?
    requires forall k :: last < k < |calls| ==> !calls[k].PageviewCall?
    ensures Run(START, calls).pendingPageview == Waiting(calls[last].path)
  {
    hide Run, Waiting, Starts, Step;
    var before, c, rest := calls[..last], calls[last], calls[last + 1..];
    assert calls == before + ([c] + rest);
    assert forall x :: x in before || x in rest ==> x in calls;
    RunConcat(START, before, [c] + rest);
    var s := Run(START, before);
    RunConcat(s, [c], rest);
    RunOne(s, c);
    RunStaysQuiet(START, before);
    PageviewWaits(s, c);
    RunKeepsWaiting(Step(s, c), rest);
  }

  lemma PageviewWaits(s: State, c: Call)
    requires !s.initialized && c.PageviewCall?
    ensures !Step(s, c).initialized && Step(s, c).pendingPageview == Waiting(c.path)
  {
    hide Waiting;
  }

  function Pageviews(log: seq<Sent>): seq<Sent> {
    Filter((e: Sent) => e.Pageview?, log)
  }

  /** Starting reports the one waiting pageview. */
  lemma FlushPageview(s: State, config: Config)
    requires s.log == [] && s.pendingPageview.Some?
    ensures Pageviews(Flushed(s, config).log) == [Pageview(Url(s.pendingPageview))]
  {
    hide SuperProperties, Url, SentOps, Pageviews;
    var f := Flushed(s, config);
    var identify := SentIdentify(s.pendingIdentify);
    var head := [Started(config.key), Registered(f.superProperties)] + identify;
    var page := Pageview(Url(s.pendingPageview));
    var tail := SentOps(s.pendingOps, f.currentUserId, config.environment);
    assert f.log == head + ([page] + tail);
    hide Flushed;
    OpsAreNoPageviews(s.pendingOps, f.currentUserId, config.environment);
    OnePageview(head, page, tail);
  }

  lemma OpsAreNoPageviews(ops: seq<Op>, user: Option<string>, environment: string)
    ensures forall e :: e in SentOps(ops, user, environment) ==> !e.Pageview?
  {
    hide Enriched;
    var sent := SentOps(ops, user, environment);
    forall e | e in sent ensures !e.Pageview? {
      var i :| 0 <= i < |sent| && sent[i] == e;
    }
  }

  lemma OnePageview(head: seq<Sent>, page: Sent, tail: seq<Sent>)
    requires page.Pageview? && forall e :: e in head || e in tail ==> !e.Pageview?
    ensures Pageviews(head + ([page] + tail)) == [page]
  {
    var isPage := (e: Sent) => e.Pageview?;
    FilterConcat(isPage, head, [page] + tail);
    FilterConcat(isPage, [page], tail);
    FilterNone(isPage, head);
    FilterNone(isPage, tail);
    FilterAll(isPage, [page]);
    hide Filter;
  }

  /** Of several pageviews before the initialization exactly the last one is sent. */
  lemma LastPendingPageviewWins(calls: seq<Call>, last: nat, init: Call)
    requires init.Init? && Starts(START, init)
    requires Quiet(calls) && last < |calls| && calls[last].PageviewCall?
    requires forall k :: last < k < |calls| ==> !calls[k].PageviewCall?
    ensures Pageviews(Run(START, calls + [init]).log) == [Pageview(Url(Waiting(calls[last].path)))]
  {
    hide Run, NormalizePageviewPath, SuperProperties;
    RunConcat(START, calls, [init]);
    var s := Run(START, calls);
    RunOne(s, init);
    RunStaysQuiet(START, calls);
    LastPageviewWaits(calls, last);
    hide Pageviews, Flushed;
    FlushPageview(s, init.config.value);
  }

  /** So an earlier pageview is the one sent exactly when it is reported under the same url as the last one. */
  lemma EarlierPageviewKeptExactly(calls: seq<Call>, first: nat, last: nat, init: Call)
    requires init.Init? && Starts(START, init)
    requires Quiet(calls) && first <= last < |calls| && calls[first].PageviewCall? && calls[last].PageviewCall?
    requires forall k :: last < k < |calls| ==> !calls[k].PageviewCall?
    ensures Pageviews(Run(START, calls + [init]).log) == [Pageview(Url(Waiting(calls[first].path)))] <==>
            Url(Waiting(calls[first].path)) == Url(Waiting(calls[last].path))
  {
    hide Run, Quiet, Starts, Waiting, Url;
    LastPendingPageviewWins(calls, last, init);
  }

  // ---------------------------------------------------------------------------
  // Every pageview of a session
  // ---------------------------------------------------------------------------

  /** The pageviews and resets the library was told about, in order. */
  function Trail(log: seq<Sent>): seq<Sent> {
    Filter((e: Sent) => e.Pageview? || e.Cleared?, log)
  }

  /**
   What the calls of a running session report, given the url reported last: every reset, and every pageview
   but those that would repeat a url.
   */
  function Reported(calls: seq<Call>, last: Option<string>): seq<Sent>
    decreases |calls|
  {
    if calls == [] then []
    else if calls[0].Reset? then [Cleared] + Reported(calls[1..], None)
    else if calls[0].PageviewCall? then
      var path := NormalizePageviewPath(calls[0].path);
      var url := if path == Some("") then None else path;
      if url.Some? && url == last then Reported(calls[1..], last)
      else [Pageview(url)] + Reported(calls[1..], url)
    else Reported(calls[1..], last)
  }

  /** The pageview that waits for the initialization: the last one asked for since the last reset. */
  function LastAsked(calls: seq<Call>): Option<string> {
    if calls == [] then None
    else
      match calls[|calls| - 1]
      case PageviewCall(path) =>
        if NormalizePageviewPath(path).Some? then NormalizePageviewPath(path) else Some("")
      case Reset => None
      case _ => LastAsked(calls[..|calls| - 1])
  }

  /** The url the session reported last, after one more call. */
  function ReportedAfter(c: Call, last: Option<string>): Option<string> {
    match c
    case Reset => None
    case PageviewCall(path) => Url(NormalizePageviewPath(path))
    case _ => last
  }

  lemma TrailConcat(a: seq<Sent>, b: seq<Sent>)
    ensures Trail(a + b) == Trail(a) + Trail(b)
  {
    FilterConcat((e: Sent) => e.Pageview? || e.Cleared?, a, b);
  }

  lemma TrailOf(log: seq<Sent>)
    ensures (forall e :: e in log ==> e.Pageview? || e.Cleared?) ==> Trail(log) == log
    ensures (forall e :: e in log ==> !e.Pageview? && !e.Cleared?) ==> Trail(log) == []
  {
    if forall e :: e in log ==> e.Pageview? || e.Cleared? {
      FilterAll((e: Sent) => e.Pageview? || e.Cleared?, log);
    }
    if forall e :: e in log ==> !e.Pageview? && !e.Cleared? {
      FilterNone((e: Sent) => e.Pageview? || e.Cleared?, log);
    }
  }

  lemma TrailPush(log: seq<Sent>, e: Sent)
    ensures Trail(log + [e]) == Trail(log) + (if e.Pageview? || e.Cleared? then [e] else [])
  {
    TrailConcat(log, [e]);
    TrailOf([e]);
    hide Trail;
  }

  lemma ReportedCons(c: Call, rest: seq<Call>, last: Option<string>)
    ensures Reported([c] + rest, last) == Reported([c], last) + Reported(rest, ReportedAfter(c, last))
  {
    hide NormalizePageviewPath;
    assert ([c] + rest)[1..] == rest && [c][1..] == [];
    assert Reported([], last) == [] && Reported([], None) == [];
    if c.PageviewCall? {
      var url := Url(NormalizePageviewPath(c.path));
      assert Reported([], url) == [];
    }
  }

  lemma StepReports(s: State, c: Call)
    requires s.initialized
    ensures var next := Step(s, c);
            && next.initialized
            && Url(next.lastCapturedPath) == ReportedAfter(c, Url(s.lastCapturedPath))
            && Trail(next.log) == Trail(s.log) + Reported([c], Url(s.lastCapturedPath))
  {
    hide Trail, NormalizePageviewPath, Enriched;
    var next := Step(s, c);
    assert [c][1..] == [] && Trail(s.log) + [] == Trail(s.log);
    match c
    case Reset =>
      TrailPush(s.log, Cleared);
      if s.superProperties != map[] {
        TrailPush(s.log + [Cleared], Registered(s.superProperties));
        assert next.log == s.log + [Cleared] + [Registered(s.superProperties)];
      } else {
        assert next.log == s.log + [Cleared];
      }
    case PageviewCall(path) =>
      TrailPush(s.log, Pageview(Url(NormalizePageviewPath(path))));
    case Event(name, props) => TrailPush(s.log, SentOp(EventOp(name, props), s.currentUserId, s.environment));
    case SetPerson(person) => TrailPush(s.log, PersonSet(person));
    case Identify(userId, userProps) => TrailPush(s.log, Identified(userId, userProps));
    case Init(_, _) =>
  }

  lemma {:induction false} RunReports(s: State, calls: seq<Call>)
    requires s.initialized
    ensures Trail(Run(s, calls).log) == Trail(s.log) + Reported(calls, Url(s.lastCapturedPath))
    decreases |calls|
  {
    hide Trail, Step, Url, ReportedAfter;
    if calls == [] {
      assert Trail(s.log) + [] == Trail(s.log);
    } else {
      hide Reported;
      var c, rest, last := calls[0], calls[1..], Url(s.lastCapturedPath);
      StepReports(s, c);
      RunReports(Step(s, c), rest);
      assert calls == [c] + rest;
      ReportedCons(c, rest, last);
      Assoc(Trail(s.log), Reported([c], last), Reported(rest, ReportedAfter(c, last)));
    }
  }

  /** Before the initialization nothing is reported and the last pageview asked for waits. */
  lemma {:induction false} RunWaits(calls: seq<Call>)
    requires forall c :: c in calls ==> !Starts(START, c)
    ensures var s := Run(START, calls);
            !s.initialized && s.log == [] && s.lastCapturedPath == None && s.pendingPageview == LastAsked(calls)
    decreases |calls|
  {
    if calls != [] {
      var before, c := calls[..|calls| - 1], calls[|calls| - 1];
      assert calls == before + [c];
      RunWaits(before);
      assert c in calls;
      RunConcat(START, before, [c]);
      RunOne(Run(START, before), c);
      hide Run, NormalizePageviewPath;
    }
  }

  lemma FlushReports(s: State, config: Config)
    requires s.log == [] && s.lastCapturedPath == None
    ensures var f := Flushed(s, config);
            && Trail(f.log) == SentPage(s.pendingPageview)
            && Url(f.lastCapturedPath) == (if s.pendingPageview.Some? then Url(s.pendingPageview) else None)
  {
    hide SuperProperties, SentOps, Trail;
    var f := Flushed(s, config);
    var head := [Started(config.key), Registered(f.superProperties)] + SentIdentify(s.pendingIdentify);
    var page, tail := SentPage(s.pendingPageview), SentOps(s.pendingOps, f.currentUserId, config.environment);
    assert f.log == head + (page + tail);
    TrailConcat(head, page + tail);
    TrailConcat(page, tail);
    OpsAreNoTrail(s.pendingOps, f.currentUserId, config.environment);
    TrailOf(head);
    TrailOf(page);
    TrailOf(tail);
    assert [] + (page + []) == page;
  }

  lemma OpsAreNoTrail(ops: seq<Op>, user: Option<string>, environment: string)
    ensures forall e :: e in SentOps(ops, user, environment) ==> !e.Pageview? && !e.Cleared?
  {
    hide Enriched;
    var sent := SentOps(ops, user, environment);
    forall e | e in sent ensures !e.Pageview? && !e.Cleared? {
      var i :| 0 <= i < |sent| && sent[i] == e;
    }
  }

  /**
   Over every session the pageviews reported are exactly those asked for: first the last one that waited, then
   each one in order, except that a url is not reported twice in a row between resets.
   */
  lemma SessionReports(before: seq<Call>, init: Call, after: seq<Call>)
    requires init.Init? && Starts(START, init) && forall c :: c in before ==> !Starts(START, c)
    ensures var waiting := LastAsked(before);
            Trail(Run(START, before + [init] + after).log) ==
            (if waiting == None then [] else if waiting == Some("") then [Pageview(None)] else [Pageview(waiting)]) +
            Reported(after, if waiting == Some("") then None else waiting)
  {
    var config := init.config.value;
    hide Trail, Reported, LastAsked, Waiting, Url, Run, Flushed;
    var s := Run(START, before);
    RunWaits(before);
    RunConcat(START, before + [init], after);
    RunConcat(START, before, [init]);
    RunOne(s, init);
    FlushReports(s, config);
    FlushedRuns(s, config);
    RunReports(Step(s, init), after);
  }

  lemma FlushedRuns(s: State, config: Config)
    ensures Flushed(s, config).initialized
  {
  }

  /** And without an effective initialization none is. */
  lemma NothingReportedBefore(calls: seq<Call>)
    requires forall c :: c in calls ==> !Starts(START, c)
    ensures Run(START, calls).log == []
  {
    RunWaits(calls);
  }

  // ---------------------------------------------------------------------------
  // Everything else a session announces
  // ---------------------------------------------------------------------------

  predicate IsNotice(e: Sent) {
    e.Started? || e.Registered? || e.Identified? || e.Cleared?
  }

  /** The start, the registered properties, the identities and the resets, in order. */
  function Notices(log: seq<Sent>): seq<Sent> {
    Filter(e => IsNotice(e), log)
  }

  /** What the calls of a running session announce: each identity, and each reset with the properties again. */
  function Announced(calls: seq<Call>, super: Props): seq<Sent> {
    if calls == [] then []
    else
      (match calls[0]
       case Identify(userId, userProps) => [Identified(userId, userProps)]
       case Reset => [Cleared, Registered(super)]
       case _ => []) + Announced(calls[1..], super)
  }

  /** The identity that waits for the initialization: the last one given since the last reset. */
  function LastIdentity(calls: seq<Call>): Option<(string, Option<Props>)> {
    if calls == [] then None
    else
      match calls[|calls| - 1]
      case Identify(userId, userProps) => Some((userId, userProps))
      case Reset => None
      case _ => LastIdentity(calls[..|calls| - 1])
  }

  lemma NoticesPush(log: seq<Sent>, e: Sent)
    ensures Notices(log + [e]) == Notices(log) + (if IsNotice(e) then [e] else [])
  {
    hide Filter;
    FilterConcat(x => IsNotice(x), log, [e]);
    if IsNotice(e) {
      FilterAll(x => IsNotice(x), [e]);
    } else {
      FilterNone(x => IsNotice(x), [e]);
    }
  }

  lemma StepAnnounces(s: State, c: Call)
    requires s.initialized && s.superProperties != map[]
    ensures var next := Step(s, c);
            && next.initialized && next.superProperties == s.superProperties
            && Notices(next.log) == Notices(s.log) + Announced([c], s.superProperties)
  {
    hide Notices, NormalizePageviewPath, Enriched, Url;
    assert [c][1..] == [] && Notices(s.log) + [] == Notices(s.log);
    match c
    case Reset =>
      NoticesPush(s.log, Cleared);
      NoticesPush(s.log + [Cleared], Registered(s.superProperties));
      assert s.log + [Cleared] + [Registered(s.superProperties)] == s.log + ([Cleared] + [Registered(s.superProperties)]);
      Assoc(Notices(s.log), [Cleared], [Registered(s.superProperties)]);
    case PageviewCall(path) => NoticesPush(s.log, Pageview(Url(NormalizePageviewPath(path))));
    case Event(name, props) => NoticesPush(s.log, SentOp(EventOp(name, props), s.currentUserId, s.environment));
    case SetPerson(person) => NoticesPush(s.log, PersonSet(person));
    case Identify(userId, userProps) => NoticesPush(s.log, Identified(userId, userProps));
    case Init(_, _) =>
  }

  lemma {:induction false} RunAnnounces(s: State, calls: seq<Call>)
    requires s.initialized && s.superProperties != map[]
    ensures Notices(Run(s, calls).log) == Notices(s.log) + Announced(calls, s.superProperties)
    decreases |calls|
  {
    hide Notices, Step;
    if calls == [] {
      assert Notices(s.log) + [] == Notices(s.log);
    } else {
      StepAnnounces(s, calls[0]);
      RunAnnounces(Step(s, calls[0]), calls[1..]);
      assert [calls[0]][1..] == [];
      assert Announced(calls, s.superProperties) ==
             Announced([calls[0]], s.superProperties) + Announced(calls[1..], s.superProperties);
      hide Announced;
      Assoc(Notices(s.log), Announced([calls[0]], s.superProperties), Announced(calls[1..], s.superProperties));
    }
  }

  /** Before the initialization the last identity waits, and its user is the current one. */
  lemma {:induction false} RunHoldsIdentity(calls: seq<Call>)
    requires forall c :: c in calls ==> !Starts(START, c)
    ensures var s := Run(START, calls);
            !s.initialized && s.log == [] && s.pendingIdentify == LastIdentity(calls)
    decreases |calls|
  {
    if calls != [] {
      var before, c := calls[..|calls| - 1], calls[|calls| - 1];
      assert calls == before + [c];
      RunHoldsIdentity(before);
      assert c in calls;
      RunConcat(START, before, [c]);
      RunOne(Run(START, before), c);
      hide Run, Waiting;
    }
  }

  lemma FlushAnnounces(s: State, config: Config)
    requires s.log == []
    ensures var f := Flushed(s, config);
            f.initialized && f.superProperties == SuperProperties(config) &&
            Notices(f.log) == [Started(config.key), Registered(SuperProperties(config))] + SentIdentify(s.pendingIdentify)
  {
    hide SuperProperties, SentOps, Filter;
    var f, isNotice := Flushed(s, config), e => IsNotice(e);
    var head := [Started(config.key), Registered(f.superProperties)] + SentIdentify(s.pendingIdentify);
    var page, ops := SentPage(s.pendingPageview), SentOps(s.pendingOps, f.currentUserId, config.environment);
    assert f.log == head + (page + ops);
    FilterConcat(isNotice, head, page + ops);
    FilterAll(isNotice, head);
    forall e | e in ops ensures !IsNotice(e) {
      var i :| 0 <= i < |ops| && ops[i] == e;
    }
    FilterNone(isNotice, page + ops);
    assert head + [] == head;
  }

  /** The properties every transmission of a client carries. */
  lemma SuperPropertiesAre(config: Config)
    ensures var super := SuperProperties(config);
            && super != map[]
            && super.Keys == {"client_type", "event_schema_version", "environment", "is_demo"} +
                             (if config.appVersion != "" then {"app_version"} else {})
            && super["client_type"] == Text(config.clientType) && super["event_schema_version"] == Number(2)
            && super["environment"] == Text(config.environment) && super["is_demo"] == Flag(false)
            && (config.appVersion != "" ==> super["app_version"] == Text(config.appVersion))
  {
    assert "client_type" in SuperProperties(config);
  }

  /**
   Over every session: the library is started once and given the client's properties, then told the identity
   that waited and every later one, in order. Every reset is passed on and followed by the properties again,
   so nothing sent after a logout lacks them.
   */
  lemma SessionAnnounces(before: seq<Call>, init: Call, after: seq<Call>)
    requires init.Init? && Starts(START, init) && forall c :: c in before ==> !Starts(START, c)
    ensures var config, identity := init.config.value, LastIdentity(before);
            var super := SuperProperties(config);
            Notices(Run(START, before + [init] + after).log) ==
            [Started(config.key), Registered(super)] +
            (if identity.Some? then [Identified(identity.value.0, identity.value.1)] else []) + Announced(after, super)
  {
    var config := init.config.value;
    SuperPropertiesAre(config);
    hide Notices, Announced, LastIdentity, SuperProperties, Run, Flushed;
    var s := Run(START, before);
    RunHoldsIdentity(before);
    RunConcat(START, before + [init], after);
    RunConcat(START, before, [init]);
    RunOne(s, init);
    FlushAnnounces(s, config);
    RunAnnounces(Step(s, init), after);
  }

  /** Its place in the initialization: the start, the properties, the identity, the pageview, the rest. */
  function Rank(e: Sent): nat {
    match e
    case Started(_) => 0
    case Registered(_) => 1
    case Identified(_, _) => 2
    case Pageview(_) => 3
    case Captured(_, _) => 4
    case PersonSet(_) => 4
    case Cleared => 5
  }

  lemma RankedConcat(a: seq<Sent>, b: seq<Sent>, low: nat)
    requires forall i, j :: 0 <= i < j < |a| ==> Rank(a[i]) <= Rank(a[j])
    requires (forall e :: e in a ==> Rank(e) <= low) && forall e :: e in b ==> Rank(e) == low
    ensures forall i, j :: 0 <= i < j < |a + b| ==> Rank((a + b)[i]) <= Rank((a + b)[j])
    ensures forall e :: e in a + b ==> Rank(e) <= low
  {
    hide Rank;
    var c := a + b;
    forall i, j | 0 <= i < j < |c| ensures Rank(c[i]) <= Rank(c[j]) {
      assert i < |a| ==> c[i] == a[i] && a[i] in a;
      assert j < |a| ==> c[j] == a[j];
      assert i >= |a| ==> c[i] == b[i - |a|] && b[i - |a|] in b;
      assert j >= |a| ==> c[j] == b[j - |a|] && b[j - |a|] in b;
    }
  }

  /** The initialization tells the identity before the pageview and the pageview before any buffered operation. */
  lemma InitializesInOrder(before: seq<Call>, init: Call)
    requires init.Init? && Starts(START, init) && forall c :: c in before ==> !Starts(START, c)
    ensures var log := Run(START, before + [init]).log;
            forall i, j :: 0 <= i < j < |log| ==> Rank(log[i]) <= Rank(log[j])
  {
    var config := init.config.value;
    var s := Run(START, before);
    RunHoldsIdentity(before);
    RunConcat(START, before, [init]);
    RunOne(s, init);
    FlushIsRanked(s, config);
    hide Run, Flushed, Rank;
  }

  lemma FlushIsRanked(s: State, config: Config)
    requires s.log == []
    ensures var log := Flushed(s, config).log;
            forall i, j :: 0 <= i < j < |log| ==> Rank(log[i]) <= Rank(log[j])
  {
    hide SuperProperties, SentOps, Enriched;
    var f := Flushed(s, config);
    var head, identify := [Started(config.key), Registered(f.superProperties)], SentIdentify(s.pendingIdentify);
    var page, ops := SentPage(s.pendingPageview), SentOps(s.pendingOps, f.currentUserId, config.environment);
    forall e | e in ops ensures Rank(e) == 4 {
      var i :| 0 <= i < |ops| && ops[i] == e;
    }
    assert f.log == head + identify + page + ops;
    RankedConcat(head, identify, 2);
    RankedConcat(head + identify, page, 3);
    RankedConcat(head + identify + page, ops, 4);
  }
}
