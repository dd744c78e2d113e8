/**
 The reconnecting socket client. Sockets and timers live in an environment that opens, closes and
 fires them in any order; the client's methods and callbacks are the steps in between.
 */
module WsClient {
  import opened Common

  datatype Phase = Connecting | Open | Closed

  /** `onClose`: the client's close handler is attached. */
  datatype Socket = Socket(phase: Phase, onClose: bool)

  /** What the trace records: registrations, disconnects, and who was called on each authentication. */
  datatype Mark =
    | Authenticated(called: set<nat>)
    | Disconnected
    | Registered(callback: nat)
    | Unregistered(callback: nat)

  datatype State = State(
    sockets: seq<Socket>,
    timers: set<nat>,
    nextTimer: nat,
    ws: Option<nat>,
    reconnectTimer: Option<nat>,
    hasConnectedBefore: bool,
    callbacks: set<nat>,
    cookieAuth: bool,
    token: bool,
    trace: seq<Mark>)

  function Start(cookieAuth: bool): State {
    State([], {}, 0, None, None, false, {}, cookieAuth, false, [])
  }

  datatype Event =
    | SetAuth(token: bool)
    | Connect
    | Opens(socket: nat)
    | Acknowledges(socket: nat)
    | Closes(socket: nat)
    | Fires(timer: nat)
    | Disconnect
    | OnReconnect(callback: nat)
    | OffReconnect(callback: nat)

  predicate Enabled(s: State, e: Event) {
    match e
    case Opens(i) => i < |s.sockets| && s.sockets[i].phase == Connecting
    case Acknowledges(i) => i < |s.sockets| && s.sockets[i].phase == Open
    case Closes(i) => i < |s.sockets| && s.sockets[i].phase != Closed
    case Fires(t) => t in s.timers
    case _ => true
  }

  /** `connect()`: a new socket replaces the field; an older one keeps its handlers. */
  function Connected(s: State): State {
    s.(sockets := s.sockets + [Socket(Connecting, true)], ws := Some(|s.sockets|))
  }

  /** The connection is authenticated: the callbacks run unless it is the first time. */
  function Authenticate(s: State): State {
    s.(hasConnectedBefore := true,
       trace := s.trace + [Authenticated(if s.hasConnectedBefore then s.callbacks else {})])
  }

  function Step(s: State, e: Event): State
    requires Enabled(s, e)
  {
    match e
    case SetAuth(token) => s.(token := token)
    case Connect => Connected(s)
    case Opens(i) =>
      var ready := s.(sockets := s.sockets[i := s.sockets[i].(phase := Open)]);
      if !s.cookieAuth && s.token then ready else Authenticate(ready)
    case Acknowledges(i) => Authenticate(s)
    case Closes(i) =>
      var closed := s.(sockets := s.sockets[i := s.sockets[i].(phase := Closed)]);
      if s.sockets[i].onClose
      then closed.(timers := s.timers + {s.nextTimer}, reconnectTimer := Some(s.nextTimer), nextTimer := s.nextTimer + 1)
      else closed
    case Fires(t) => Connected(s.(timers := s.timers - {t}))
    case Disconnect =>
      s.(timers := if s.reconnectTimer.Some? then s.timers - {s.reconnectTimer.value} else s.timers,
         reconnectTimer := None,
         sockets :=
           if s.ws.Some? && s.ws.value < |s.sockets|
           then s.sockets[s.ws.value := Socket(Closed, false)] else s.sockets,
         ws := None,
         hasConnectedBefore := false,
         callbacks := {},
         trace := s.trace + [Disconnected])
    case OnReconnect(callback) =>
      s.(callbacks := s.callbacks + {callback}, trace := s.trace + [Registered(callback)])
    case OffReconnect(callback) =>
      s.(callbacks := s.callbacks - {callback}, trace := s.trace + [Unregistered(callback)])
  }

  /** Whether every event can happen when its turn comes. */
  ghost predicate Runs(s: State, events: seq<Event>)
    decreases |events|
  {
    events == [] || (Enabled(s, events[0]) && Runs(Step(s, events[0]), events[1..]))
  }

  ghost function Run(s: State, events: seq<Event>): State
    requires Runs(s, events)
    decreases |events|
  {
    if events == [] then s else Run(Step(s, events[0]), events[1..])
  }

  // ---------------------------------------------------------------------------
  // The client
  // ---------------------------------------------------------------------------

  class Environment {
    var sockets: seq<Socket>
    var timers: set<nat>
    var nextTimer: nat

    constructor ()
      ensures sockets == [] && timers == {} && nextTimer == 0
    {
      sockets, timers, nextTimer := [], {}, 0;
    }
  }

  class WSClient {
    const env: Environment
    const cookieAuth: bool
    var token: bool
    var ws: Option<nat>
    var reconnectTimer: Option<nat>
    var hasConnectedBefore: bool
    var callbacks: set<nat>
    ghost var trace: seq<Mark>

    ghost function Current(): State
      reads this, env
    {
      State(env.sockets, env.timers, env.nextTimer, ws, reconnectTimer, hasConnectedBefore, callbacks, cookieAuth, token,
            trace)
    }

    constructor (environment: Environment, useCookie: bool)
      requires environment.sockets == [] && environment.timers == {} && environment.nextTimer == 0
      ensures env == environment && Current() == Start(useCookie)
    {
      env, cookieAuth, token := environment, useCookie, false;
      ws, reconnectTimer, hasConnectedBefore, callbacks, trace := None, None, false, {}, [];
    }

    method SetAuthToken(present: bool)
      modifies this
      ensures Current() == Step(old(Current()), SetAuth(present))
    {
      token := present;
    }

    method ConnectNow()
      modifies this, env
      ensures Current() == Step(old(Current()), Connect)
    {
      ws := Some(|env.sockets|);
      env.sockets := env.sockets + [Socket(Connecting, true)];
    }

    method OnAuthenticated()
      modifies this
      ensures Current() == Authenticate(old(Current()))
    {
      var called := {};
      if hasConnectedBefore {
        called := callbacks;
      }
      trace := trace + [Authenticated(called)];
      hasConnectedBefore := true;
    }

    method OnOpen(i: nat)
      requires Enabled(Current(), Opens(i))
      modifies this, env
      ensures Current() == Step(old(Current()), Opens(i))
    {
      env.sockets := env.sockets[i := env.sockets[i].(phase := Open)];
      if !cookieAuth && token {
        return;
      }
      OnAuthenticated();
    }

    method OnAuthAck(i: nat)
      requires Enabled(Current(), Acknowledges(i))
      modifies this
      ensures Current() == Step(old(Current()), Acknowledges(i))
    {
      OnAuthenticated();
    }

    method OnClose(i: nat)
      requires Enabled(Current(), Closes(i))
      modifies this, env
      ensures Current() == Step(old(Current()), Closes(i))
    {
      var handled := env.sockets[i].onClose;
      env.sockets := env.sockets[i := env.sockets[i].(phase := Closed)];
      if handled {
        env.timers := env.timers + {env.nextTimer};
        reconnectTimer := Some(env.nextTimer);
        env.nextTimer := env.nextTimer + 1;
      }
    }

    method OnTimer(t: nat)
      requires Enabled(Current(), Fires(t))
      modifies this, env
      ensures Current() == Step(old(Current()), Fires(t))
    {
      env.timers := env.timers - {t};
      ConnectNow();
    }

    method DisconnectNow()
      modifies this, env
      ensures Current() == Step(old(Current()), Disconnect)
    {
      if reconnectTimer.Some? {
        env.timers := env.timers - {reconnectTimer.value};
        reconnectTimer := None;
      }
      if ws.Some? {
        if ws.value < |env.sockets| {
          env.sockets := env.sockets[ws.value := Socket(Closed, false)];
        }
        ws := None;
      }
      hasConnectedBefore := false;
      callbacks := {};
      trace := trace + [Disconnected];
    }

    method Subscribe(callback: nat)
      modifies this
      ensures Current() == Step(old(Current()), OnReconnect(callback))
    {
      callbacks := callbacks + {callback};
      trace := trace + [Registered(callback)];
    }

    method Unsubscribe(callback: nat)
      modifies this
      ensures Current() == Step(old(Current()), OffReconnect(callback))
    {
      callbacks := callbacks - {callback};
      trace := trace + [Unregistered(callback)];
    }
  }

  // ---------------------------------------------------------------------------
  // One connection at a time
  // ---------------------------------------------------------------------------

  /** The socket is not closed and its closing would schedule a reconnect. */
  predicate Live(s: State, i: nat) {
    i < |s.sockets| && s.sockets[i].phase != Closed && s.sockets[i].onClose
  }

  /** No reconnect can come from anywhere. */
  ghost predicate Idle(s: State) {
    s.timers == {} && forall i: nat :: !Live(s, i)
  }

  /** Everything that could still reconnect is what the two fields name. */
  ghost predicate Tracked(s: State) {
    && (forall i: nat :: Live(s, i) ==> s.ws == Some(i))
    && (forall t :: t in s.timers ==> s.reconnectTimer == Some(t) && t < s.nextTimer)
  }

  /** At most one of a live socket and an armed reconnect timer exists. */
  ghost predicate AtMostOne(s: State) {
    && (forall i: nat, j: nat :: Live(s, i) && Live(s, j) ==> i == j)
    && (forall t, u :: t in s.timers && u in s.timers ==> t == u)
    && (forall i: nat, t :: Live(s, i) ==> t !in s.timers)
  }

  /** A connection is only asked for from outside while nothing can reconnect by itself. */
  ghost predicate ConnectsWhenIdle(s: State, events: seq<Event>)
    requires Runs(s, events)
    decreases |events|
  {
    events == [] ||
    ((events[0].Connect? ==> Idle(s)) && ConnectsWhenIdle(Step(s, events[0]), events[1..]))
  }

  /** Only a connection attempt makes a socket live, and it is then the one `ws` names. */
  lemma StepLiveness(s: State, e: Event, i: nat)
    requires Enabled(s, e)
    ensures Live(Step(s, e), i) ==>
              if e.Connect? || e.Fires? then Live(s, i) || (i == |s.sockets| && Step(s, e).ws == Some(i))
              else Live(s, i) && (Step(s, e).ws == s.ws || (e.Disconnect? && s.ws != Some(i)))
    ensures e.Closes? ==> !Live(Step(s, e), e.socket)
  {
  }

  lemma StepKeepsSingle(s: State, e: Event)
    requires AtMostOne(s) && Tracked(s) && Enabled(s, e) && (e.Connect? ==> Idle(s))
    ensures AtMostOne(Step(s, e)) && Tracked(Step(s, e))
  {
    var next := Step(s, e);
    forall i: nat | Live(s, i)
      ensures s.timers == {}
    {
      assert forall t :: t !in s.timers;
    }
    forall i: nat | Live(next, i)
      ensures next.ws == Some(i) && next.timers == {}
    {
      StepLiveness(s, e, i);
      if e.Fires? {
        assert s.timers == {e.timer};
      } else if e.Closes? {
        var closing := e.socket;
        assert Live(s, closing) ==> closing == i;
      }
    }
    if e.Closes? && Live(s, e.socket) {
      assert next.timers == {s.nextTimer};
    }
  }

  /** An outside `connect` keeps the connection single exactly when nothing could reconnect before it. */
  lemma ConnectKeepsSingleExactly(s: State)
    requires AtMostOne(s) && Tracked(s)
    ensures AtMostOne(Step(s, Connect)) <==> Idle(s)
  {
    var s' := Step(s, Connect);
    assert Live(s', |s.sockets|);
    forall i: nat ensures Live(s', i) <==> Live(s, i) || i == |s.sockets| {
    }
  }

  /**
   In every run that connects from outside only while idle, at most one of a live socket with an attached
   close handler and an armed reconnect timer exists.
   */
  lemma {:induction false} RunKeepsSingle(s: State, events: seq<Event>)
    requires AtMostOne(s) && Tracked(s) && Runs(s, events) && ConnectsWhenIdle(s, events)
    ensures AtMostOne(Run(s, events)) && Tracked(Run(s, events))
    decreases |events|
  {
    hide AtMostOne, Tracked, Idle, Step;
    if events != [] {
      StepKeepsSingle(s, events[0]);
      RunKeepsSingle(Step(s, events[0]), events[1..]);
    }
  }

  ghost predicate NoConnect(events: seq<Event>) {
    forall e :: e in events ==> !e.Connect?
  }

  lemma {:induction false} NoConnectIsFine(s: State, events: seq<Event>)
    requires Runs(s, events) && NoConnect(events)
    ensures ConnectsWhenIdle(s, events)
    decreases |events|
  {
    hide Step;
    if events != [] {
      NoConnectIsFine(Step(s, events[0]), events[1..]);
    }
  }

  /** In particular in every run with one outside `connect`, made by a new client. */
  lemma OneConnectStaysSingle(cookieAuth: bool, events: seq<Event>)
    requires Runs(Step(Start(cookieAuth), Connect), events) && NoConnect(events)
    ensures AtMostOne(Run(Step(Start(cookieAuth), Connect), events))
  {
    var s := Step(Start(cookieAuth), Connect);
    StepKeepsSingle(Start(cookieAuth), Connect);
    NoConnectIsFine(s, events);
    RunKeepsSingle(s, events);
  }

  /** A connected client keeps trying: only a disconnect leaves it with neither a live socket nor an armed timer. */
  lemma StepKeepsTrying(s: State, e: Event)
    requires Enabled(s, e) && !e.Disconnect? && (Idle(s) ==> e.Connect?)
    ensures !Idle(Step(s, e))
  {
    var next := Step(s, e);
    if e.Connect? || e.Fires? {
      assert Live(next, |s.sockets|);
    } else if e.Closes? && Live(s, e.socket) {
      assert s.nextTimer in next.timers;
    } else if i: nat :| Live(s, i) {
      assert Live(next, i);
    } else {
      assert s.timers <= next.timers;
    }
  }

  ghost predicate NoDisconnect(events: seq<Event>) {
    forall e :: e in events ==> !e.Disconnect?
  }

  lemma {:induction false} RunKeepsTrying(s: State, events: seq<Event>)
    requires !Idle(s) && Runs(s, events) && NoDisconnect(events)
    ensures !Idle(Run(s, events))
    decreases |events|
  {
    hide Idle, Step;
    if events != [] {
      assert events[0] in events;
      StepKeepsTrying(s, events[0]);
      RunKeepsTrying(Step(s, events[0]), events[1..]);
    }
  }

  /** Between its one connect and a disconnect a client has exactly one of a live socket and an armed timer. */
  lemma OneConnectKeepsTrying(cookieAuth: bool, events: seq<Event>)
    requires Runs(Step(Start(cookieAuth), Connect), events) && NoConnect(events) && NoDisconnect(events)
    ensures var s := Run(Step(Start(cookieAuth), Connect), events);
            AtMostOne(s) && !Idle(s)
  {
    var s := Step(Start(cookieAuth), Connect);
    OneConnectStaysSingle(cookieAuth, events);
    StepKeepsTrying(Start(cookieAuth), Connect);
    RunKeepsTrying(s, events);
  }

  // ---------------------------------------------------------------------------
  // After a disconnect
  // ---------------------------------------------------------------------------

  /** `disconnect` stops every reconnect exactly when the two fields name everything that could reconnect. */
  lemma DisconnectQuietsExactly(s: State)
    ensures Idle(Step(s, Disconnect)) <==>
            ((forall i: nat :: Live(s, i) ==> s.ws == Some(i)) &&
             (forall t :: t in s.timers ==> s.reconnectTimer == Some(t)))
  {
    var s' := Step(s, Disconnect);
    forall i: nat ensures Live(s', i) <==> Live(s, i) && s.ws != Some(i) {
    }
    assert forall t :: t in s'.timers <==> t in s.timers && s.reconnectTimer != Some(t);
    if s'.timers != {} {
      var t :| t in s'.timers;
      assert t in s.timers;
    }
  }

  /** From an idle client no step but an outside `connect` ever opens a socket. */
  lemma {:induction false} IdleOpensNothing(s: State, events: seq<Event>)
    requires Idle(s) && Runs(s, events) && NoConnect(events)
    ensures |Run(s, events).sockets| == |s.sockets| && Idle(Run(s, events))
    decreases |events|
  {
    if events != [] {
      var next := Step(s, events[0]);
      forall i: nat ensures !Live(next, i) {
        assert !Live(s, i);
      }
      assert events[0] in events && (events[0].Closes? ==> !Live(s, events[0].socket));
      assert |next.sockets| == |s.sockets| && next.timers == {};
      hide Idle, Step;
      IdleOpensNothing(next, events[1..]);
    }
  }

  /** After `disconnect` no socket is ever opened again. */
  lemma DisconnectIsFinal(s: State, events: seq<Event>)
    requires Tracked(s) && Runs(Step(s, Disconnect), events) && NoConnect(events)
    ensures |Run(Step(s, Disconnect), events).sockets| == |s.sockets|
  {
    DisconnectQuietsExactly(s);
    IdleOpensNothing(Step(s, Disconnect), events);
  }

  /** A second `connect` without a `disconnect` leaves a socket that reconnects after the client was disconnected. */
  lemma DoubleConnectOutlivesDisconnect(cookieAuth: bool)
    ensures var s0 := Start(cookieAuth);
            var s := Step(Step(Step(s0, Connect), Connect), Disconnect);
            && Enabled(s, Closes(0)) && |s.sockets| == 2
            && var closed := Step(s, Closes(0));
               Enabled(closed, Fires(0)) && |Step(closed, Fires(0)).sockets| == 3
  {
  }

  // ---------------------------------------------------------------------------
  // Reconnect callbacks
  // ---------------------------------------------------------------------------

  /** Whether the trace has an authentication since construction or the last disconnect. */
  predicate AuthenticatedSince(trace: seq<Mark>) {
    trace != [] &&
    match trace[|trace| - 1]
    case Authenticated(_) => true
    case Disconnected => false
    case _ => AuthenticatedSince(trace[..|trace| - 1])
  }

  /** The callbacks registered since construction or the last disconnect and not unregistered again. */
  function RegisteredSince(trace: seq<Mark>): set<nat> {
    if trace == [] then {} else
      var before := RegisteredSince(trace[..|trace| - 1]);
      match trace[|trace| - 1]
      case Authenticated(_) => before
      case Disconnected => {}
      case Registered(callback) => before + {callback}
      case Unregistered(callback) => before - {callback}
  }

  /** The authentication at `i` calls every registered callback unless it is the first since the last disconnect. */
  ghost predicate CallsBackAt(trace: seq<Mark>, i: nat)
    requires i < |trace|
  {
    trace[i].Authenticated? ==>
      trace[i].called == if AuthenticatedSince(trace[..i]) then RegisteredSince(trace[..i]) else {}
  }

  ghost predicate CallbacksOk(s: State) {
    && s.hasConnectedBefore == AuthenticatedSince(s.trace)
    && s.callbacks == RegisteredSince(s.trace)
    && forall i: nat :: i < |s.trace| ==> CallsBackAt(s.trace, i)
  }

  lemma CallsBackPush(trace: seq<Mark>, mark: Mark)
    requires forall i: nat :: i < |trace| ==> CallsBackAt(trace, i)
    requires mark.Authenticated? ==> mark.called == if AuthenticatedSince(trace) then RegisteredSince(trace) else {}
    ensures forall i: nat :: i < |trace + [mark]| ==> CallsBackAt(trace + [mark], i)
    ensures (trace + [mark])[..|trace|] == trace
  {
    var next := trace + [mark];
    assert next[..|trace|] == trace;
    forall i: nat | i < |next| ensures CallsBackAt(next, i) {
      if i < |trace| {
        assert next[..i] == trace[..i];
        assert CallsBackAt(trace, i);
      }
    }
  }

  lemma StepCallsBack(s: State, e: Event)
    requires CallbacksOk(s) && Enabled(s, e)
    ensures CallbacksOk(Step(s, e))
  {
    hide CallsBackAt, AuthenticatedSince, RegisteredSince;
    match e
    case Opens(i) => MarkPush(s.trace, Authenticated(if s.hasConnectedBefore then s.callbacks else {}));
    case Acknowledges(i) => MarkPush(s.trace, Authenticated(if s.hasConnectedBefore then s.callbacks else {}));
    case Disconnect => MarkPush(s.trace, Disconnected);
    case OnReconnect(callback) => MarkPush(s.trace, Registered(callback));
    case OffReconnect(callback) => MarkPush(s.trace, Unregistered(callback));
    case _ =>
  }

  /** What one more mark does to everything the trace is asked for. */
  lemma MarkPush(trace: seq<Mark>, mark: Mark)
    requires forall i: nat :: i < |trace| ==> CallsBackAt(trace, i)
    requires mark.Authenticated? ==> mark.called == if AuthenticatedSince(trace) then RegisteredSince(trace) else {}
    ensures AuthenticatedSince(trace + [mark]) == (mark.Authenticated? || (!mark.Disconnected? && AuthenticatedSince(trace)))
    ensures RegisteredSince(trace + [mark]) ==
            if mark.Disconnected? then {}
            else if mark.Registered? then RegisteredSince(trace) + {mark.callback}
            else if mark.Unregistered? then RegisteredSince(trace) - {mark.callback}
            else RegisteredSince(trace)
    ensures forall i: nat :: i < |trace + [mark]| ==> CallsBackAt(trace + [mark], i)
  {
    CallsBackPush(trace, mark);
    hide CallsBackAt;
    assert (trace + [mark])[..|trace|] == trace;
  }

  /** How often the connection authenticates: on opening with no token to send first, and on each acknowledgement. */
  function Authentications(cookieAuth: bool, token: bool, events: seq<Event>): nat
    decreases |events|
  {
    if events == [] then 0
    else
      match events[0]
      case SetAuth(present) => Authentications(cookieAuth, present, events[1..])
      case Opens(_) => (if cookieAuth || !token then 1 else 0) + Authentications(cookieAuth, token, events[1..])
      case Acknowledges(_) => 1 + Authentications(cookieAuth, token, events[1..])
      case _ => Authentications(cookieAuth, token, events[1..])
  }

  function Marked(trace: seq<Mark>): nat {
    if trace == [] then 0
    else Marked(trace[..|trace| - 1]) + if trace[|trace| - 1].Authenticated? then 1 else 0
  }

  lemma MarkedPush(trace: seq<Mark>, mark: Mark)
    ensures Marked(trace + [mark]) == Marked(trace) + if mark.Authenticated? then 1 else 0
  {
    assert (trace + [mark])[..|trace|] == trace;
  }

  lemma StepMarks(s: State, e: Event)
    requires Enabled(s, e)
    ensures Marked(Step(s, e).trace) == Marked(s.trace) + Authentications(s.cookieAuth, s.token, [e])
    ensures Step(s, e).cookieAuth == s.cookieAuth
    ensures Step(s, e).token == if e.SetAuth? then e.token else s.token
  {
    hide Marked;
    assert [e][1..] == [];
    match e
    case Opens(i) => MarkedPush(s.trace, Authenticated(if s.hasConnectedBefore then s.callbacks else {}));
    case Acknowledges(i) => MarkedPush(s.trace, Authenticated(if s.hasConnectedBefore then s.callbacks else {}));
    case Disconnect => MarkedPush(s.trace, Disconnected);
    case OnReconnect(callback) => MarkedPush(s.trace, Registered(callback));
    case OffReconnect(callback) => MarkedPush(s.trace, Unregistered(callback));
    case _ =>
  }

  /** In every run the client authenticates exactly that often. */
  lemma {:induction false} RunAuthenticates(s: State, events: seq<Event>)
    requires Runs(s, events)
    ensures Marked(Run(s, events).trace) == Marked(s.trace) + Authentications(s.cookieAuth, s.token, events)
    decreases |events|
  {
    hide Marked, Step;
    if events != [] {
      StepMarks(s, events[0]);
      assert [events[0]][1..] == [];
      RunAuthenticates(Step(s, events[0]), events[1..]);
    }
  }

  /**
   In every run of a new client, an authentication calls every callback registered at that moment,
   except the first one since construction or the last disconnect, which calls none.
   */
  lemma {:induction false} RunCallsBack(s: State, events: seq<Event>)
    requires CallbacksOk(s) && Runs(s, events)
    ensures CallbacksOk(Run(s, events))
    decreases |events|
  {
    if events != [] {
      hide CallbacksOk, Step;
      StepCallsBack(s, events[0]);
      RunCallsBack(Step(s, events[0]), events[1..]);
    }
  }

  lemma CallsBackOnEveryReconnect(cookieAuth: bool, events: seq<Event>)
    requires Runs(Start(cookieAuth), events)
    ensures var trace := Run(Start(cookieAuth), events).trace;
            forall i: nat :: i < |trace| ==> CallsBackAt(trace, i)
  {
    RunCallsBack(Start(cookieAuth), events);
  }
}
