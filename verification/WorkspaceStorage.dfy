/**
 The current workspace and the storage namespaced by it: module variables, deferred notifications,
 and an adapter that only ever sees `key:slug`.
 */
module WorkspaceStorage {
  import opened Common

  // ---------------------------------------------------------------------------
  // Namespaced keys
  // ---------------------------------------------------------------------------

  function Namespaced(key: string, slug: string): string {
    key + ":" + slug
  }

  predicate ColonFree(slug: string) {
    ':' !in slug
  }

  lemma LastColon(key: string, slug: string, at: nat)
    requires ColonFree(slug) && |key| < at < |Namespaced(key, slug)|
    ensures Namespaced(key, slug)[at] != ':'
  {
    assert Namespaced(key, slug)[at] == slug[at - |key| - 1];
  }

  /** Keys of different slugs, or different keys of one slug, never collide. */
  lemma NamespacedInjective(key: string, slug: string, key': string, slug': string)
    requires ColonFree(slug) && ColonFree(slug') && Namespaced(key, slug) == Namespaced(key', slug')
    ensures key == key' && slug == slug'
  {
    var s := Namespaced(key, slug);
    forall at | |key| < at < |s| ensures s[at] != ':' {
      LastColon(key, slug, at);
    }
    forall at | |key'| < at < |s| ensures s[at] != ':' {
      LastColon(key', slug', at);
    }
    assert s[|key|] == ':' && s[|key'|] == ':';
    assert s[..|key|] == key && s[..|key'|] == key';
    assert s[|key| + 1..] == slug && s[|key'| + 1..] == slug';
  }

  /** With a colon in a slug they can. */
  lemma ColonSlugsCollide()
    ensures Namespaced("a", "b:c") == Namespaced("a:b", "c")
  {
    assert Namespaced("a", "b:c") == "a:b:c" == Namespaced("a:b", "c");
  }

  /** The longer slug ends with a colon and the shorter one. */
  predicate Extends(longer: string, shorter: string) {
    |longer| > |shorter| && longer[|longer| - |shorter| - 1..] == ":" + shorter
  }

  /** Some keys of two slugs collide exactly when one slug ends with a colon and the other. */
  lemma SlugsCollideExactly(a: string, b: string)
    requires a != b
    ensures (exists k, l :: Namespaced(k, a) == Namespaced(l, b)) <==> Extends(a, b) || Extends(b, a)
  {
    if k, l :| Namespaced(k, a) == Namespaced(l, b) {
      if |a| >= |b| {
        CollisionExtends(k, a, l, b);
      } else {
        CollisionExtends(l, b, k, a);
      }
    }
    if Extends(a, b) {
      assert Namespaced("", a) == Namespaced(ExtensionCollides(a, b), b);
    }
    if Extends(b, a) {
      assert Namespaced(ExtensionCollides(b, a), a) == Namespaced("", b);
    }
  }

  lemma CollisionExtends(k: string, a: string, l: string, b: string)
    requires Namespaced(k, a) == Namespaced(l, b) && |a| >= |b| && a != b
    ensures Extends(a, b)
  {
    var n := Namespaced(k, a);
    assert n[|n| - |a|..] == a && n[|n| - |b|..] == b && n[|n| - |b| - 1..] == ":" + b;
    assert |a| > |b|;
    assert a[|a| - |b| - 1..] == n[|n| - |b| - 1..];
  }

  /** The key under which the shorter slug meets the empty key of the longer one. */
  function ExtensionCollides(longer: string, shorter: string): (key: string)
    requires Extends(longer, shorter)
    ensures Namespaced("", longer) == Namespaced(key, shorter)
  {
    var key := ":" + longer[..|longer| - |shorter| - 1];
    assert longer == longer[..|longer| - |shorter| - 1] + (":" + shorter);
    key
  }

  // ---------------------------------------------------------------------------
  // The module as a state machine
  // ---------------------------------------------------------------------------

  type Subscriber = nat

  /** What a persisted store last read, and under which slug. */
  datatype Reading = Reading(slug: Option<string>, value: Option<string>)

  /**
   `told` is what each subscriber was last called with since it subscribed, `stores` the storage keys of the
   registered stores, in order, and `loaded` what each of them read last. `joined` and `registeredAt` only
   record which slug was current when a subscriber joined and when a store was registered.
   */
  datatype State = State(
    slug: Option<string>,
    wsId: Option<string>,
    pendingNotify: bool,
    pendingRehydrate: bool,
    subscribers: set<Subscriber>,
    told: map<Subscriber, Option<string>>,
    joined: map<Subscriber, Option<string>>,
    stores: seq<string>,
    loaded: map<string, Reading>,
    registeredAt: map<string, Option<string>>,
    disk: map<string, string>)

  const START := State(None, None, false, false, {}, map[], map[], [], map[], map[], map[])

  datatype Event =
    | SetCurrent(slug: Option<string>, wsId: Option<string>)
    | Notify
    | Rehydrate
    | Subscribe(who: Subscriber)
    | Unsubscribe(who: Subscriber)
    | Register(key: string)
    | SetItem(key: string, value: string)
    | RemoveItem(key: string)

  /** The slug under which storage works: none, or the empty string, switches it off. */
  function ActiveSlug(slug: Option<string>): Option<string> {
    if slug == Some("") then None else slug
  }

  function Active(s: State): Option<string> {
    ActiveSlug(s.slug)
  }

  function Read(slug: Option<string>, disk: map<string, string>, key: string): Option<string> {
    if ActiveSlug(slug).None? then None
    else
      var k := Namespaced(key, ActiveSlug(slug).value);
      if k in disk then Some(disk[k]) else None
  }

  function GetItem(s: State, key: string): Option<string> {
    Read(s.slug, s.disk, key)
  }

  /** The two microtasks are enabled while their flag is set. */
  predicate Enabled(s: State, e: Event) {
    match e
    case Notify => s.pendingNotify
    case Rehydrate => s.pendingRehydrate
    case _ => true
  }

  function Calls(who: set<Subscriber>, slug: Option<string>): map<Subscriber, Option<string>> {
    map w | w in who :: slug
  }

  lemma NoCalls(told: map<Subscriber, Option<string>>, slug: Option<string>)
    ensures told + Calls({}, slug) == told
  {
  }

  lemma Called(told: map<Subscriber, Option<string>>, who: set<Subscriber>, slug: Option<string>, w: Subscriber)
    ensures var next := told + Calls(who, slug);
            (w in next <==> w in told || w in who) && (w in next ==> next[w] == if w in who then slug else told[w])
  {
  }

  lemma CallsPush(
      told: map<Subscriber, Option<string>>, who: set<Subscriber>, w: Subscriber, slug: Option<string>)
    ensures told + Calls(who + {w}, slug) == (told + Calls(who, slug))[w := slug]
  {
  }

  function Readings(keys: seq<string>, slug: Option<string>, disk: map<string, string>): map<string, Reading> {
    map k | k in keys :: Reading(slug, Read(slug, disk, k))
  }

  lemma NothingRead(slug: Option<string>, disk: map<string, string>)
    ensures Readings([], slug, disk) == map[]
  {
  }

  lemma HasRead(
      loaded: map<string, Reading>, keys: seq<string>, slug: Option<string>, disk: map<string, string>, k: string)
    ensures var next := loaded + Readings(keys, slug, disk);
            && (k in next <==> k in loaded || k in keys)
            && (k in next ==> next[k] == if k in keys then Reading(slug, Read(slug, disk, k)) else loaded[k])
  {
    hide Read;
  }

  lemma ReadingsPush(keys: seq<string>, key: string, slug: Option<string>, disk: map<string, string>)
    ensures Readings(keys + [key], slug, disk) == Readings(keys, slug, disk)[key := Reading(slug, Read(slug, disk, key))]
  {
    hide Read;
  }

  function Switched(s: State, slug: Option<string>, wsId: Option<string>): State {
    if s.slug == slug then s.(wsId := wsId)
    else s.(slug := slug, wsId := wsId, pendingNotify := true, pendingRehydrate := true)
  }

  function Stored(s: State, key: string, value: string): map<string, string> {
    if Active(s).None? then s.disk else s.disk[Namespaced(key, Active(s).value) := value]
  }

  function Removed(s: State, key: string): map<string, string> {
    if Active(s).None? then s.disk else s.disk - {Namespaced(key, Active(s).value)}
  }

  function Notified(s: State): State {
    s.(pendingNotify := false, told := s.told + Calls(s.subscribers, s.slug))
  }

  function Rehydrated(s: State): State {
    s.(pendingRehydrate := false, loaded := s.loaded + Readings(s.stores, s.slug, s.disk))
  }

  function Subscribed(s: State, who: Subscriber): State {
    if who in s.subscribers then s
    else s.(subscribers := s.subscribers + {who}, told := s.told - {who}, joined := s.joined[who := s.slug])
  }

  function Registered(s: State, key: string): State {
    s.(stores := s.stores + [key],
       registeredAt := if key in s.stores then s.registeredAt else s.registeredAt[key := s.slug])
  }

  function Step(s: State, e: Event): State {
    match e
    case SetCurrent(slug, wsId) => Switched(s, slug, wsId)
    case Notify => Notified(s)
    case Rehydrate => Rehydrated(s)
    case Subscribe(who) => Subscribed(s, who)
    case Unsubscribe(who) => s.(subscribers := s.subscribers - {who})
    case Register(key) => Registered(s, key)
    case SetItem(key, value) => s.(disk := Stored(s, key, value))
    case RemoveItem(key) => s.(disk := Removed(s, key))
  }

  function Run(s: State, events: seq<Event>): State
    decreases |events|
  {
    if events == [] then s else Run(Step(s, events[0]), events[1..])
  }

  ghost predicate Possible(s: State, events: seq<Event>)
    decreases |events|
  {
    events == [] || (Enabled(s, events[0]) && Possible(Step(s, events[0]), events[1..]))
  }

  class WorkspaceModule {
    var slug: Option<string>
    var wsId: Option<string>
    var pendingNotify: bool
    var pendingRehydrate: bool
    var subscribers: set<Subscriber>
    ghost var told: map<Subscriber, Option<string>>
    ghost var joined: map<Subscriber, Option<string>>
    var stores: seq<string>
    var loaded: map<string, Reading>
    ghost var registeredAt: map<string, Option<string>>
    var disk: map<string, string>

    ghost function Current(): State
      reads this
    {
      State(slug, wsId, pendingNotify, pendingRehydrate, subscribers, told, joined, stores, loaded, registeredAt, disk)
    }

    constructor ()
      ensures Current() == START
    {
      slug, wsId, pendingNotify, pendingRehydrate := None, None, false, false;
      subscribers, told, joined := {}, map[], map[];
      stores, loaded, registeredAt, disk := [], map[], map[], map[];
    }

    method SetCurrentWorkspace(next: Option<string>, nextId: Option<string>)
      modifies this
      ensures Current() == Step(old(Current()), SetCurrent(next, nextId))
    {
      if slug == next {
        wsId := nextId;
        return;
      }
      slug := next;
      wsId := nextId;
      if !pendingNotify {
        pendingNotify := true;
      }
      if !pendingRehydrate {
        pendingRehydrate := true;
      }
    }

    /** The notification microtask: every subscriber is told the slug that is current when it runs. */
    method RunNotify()
      requires pendingNotify
      modifies `pendingNotify, `told
      ensures Current() == Step(old(Current()), Notify)
    {
      hide Calls, Switched, Rehydrated, Subscribed, Registered, Stored, Removed;
      NoCalls(told, slug);
      pendingNotify := false;
      assert subscribers - subscribers == {};
      var current := slug;
      var left := subscribers;
      while left != {}
        invariant left <= subscribers && !pendingNotify
        invariant told == old(told) + Calls(subscribers - left, current)
        decreases |left|
      {
        var who :| who in left;
        assert subscribers - (left - {who}) == (subscribers - left) + {who};
        CallsPush(old(told), subscribers - left, who, current);
        told := told[who := current];
        left := left - {who};
      }
      assert subscribers - left == subscribers;
    }

    /** The rehydration microtask: every registered store reads its key again. */
    method RunRehydrate()
      requires pendingRehydrate
      modifies `pendingRehydrate, `loaded
      ensures Current() == Step(old(Current()), Rehydrate)
    {
      hide Calls, Readings, Read, Active, ActiveSlug;
      pendingRehydrate := false;
      NothingRead(slug, disk);
      assert stores[..0] == [];
      for i := 0 to |stores|
        invariant !pendingRehydrate
        invariant loaded == old(loaded) + Readings(stores[..i], slug, disk)
      {
        ReadingsPush(stores[..i], stores[i], slug, disk);
        assert stores[..i + 1] == stores[..i] + [stores[i]];
        var value := ReadItem(stores[i]);
        loaded := loaded[stores[i] := Reading(slug, value)];
      }
      assert stores[..|stores|] == stores;
    }

    method RegisterForWorkspaceRehydration(key: string)
      modifies `stores, `registeredAt
      ensures Current() == Step(old(Current()), Register(key))
    {
      if key !in stores {
        registeredAt := registeredAt[key := slug];
      }
      stores := stores + [key];
    }

    method SubscribeToCurrentSlug(who: Subscriber)
      modifies this
      ensures Current() == Step(old(Current()), Subscribe(who))
    {
      if who !in subscribers {
        told, joined := told - {who}, joined[who := slug];
      }
      subscribers := subscribers + {who};
    }

    method UnsubscribeFromCurrentSlug(who: Subscriber)
      modifies this
      ensures Current() == Step(old(Current()), Unsubscribe(who))
    {
      subscribers := subscribers - {who};
    }

    method ReadItem(key: string) returns (value: Option<string>)
      ensures value == Read(slug, disk, key)
    {
      if slug.None? || slug.value == "" {
        return None;
      }
      var k := key + ":" + slug.value;
      value := if k in disk then Some(disk[k]) else None;
    }

    method WriteItem(key: string, value: string)
      modifies this
      ensures Current() == Step(old(Current()), SetItem(key, value))
    {
      if slug.Some? && slug.value != "" {
        disk := disk[key + ":" + slug.value := value];
      }
    }

    method DeleteItem(key: string)
      modifies this
      ensures Current() == Step(old(Current()), RemoveItem(key))
    {
      if slug.Some? && slug.value != "" {
        disk := disk - {key + ":" + slug.value};
      }
    }
  }

  // ---------------------------------------------------------------------------
  // One independent map per workspace
  // ---------------------------------------------------------------------------

  /** The abstract storage: a map of its own for every slug. */
  type Worlds = map<string, map<string, string>>

  function World(worlds: Worlds, slug: string): map<string, string> {
    if slug in worlds then worlds[slug] else map[]
  }

  datatype Spec = Spec(slug: Option<string>, worlds: Worlds)

  function SpecStep(m: Spec, e: Event): Spec {
    match e
    case SetCurrent(slug, _) => m.(slug := slug)
    case SetItem(key, value) =>
      if m.slug.None? || m.slug.value == "" then m
      else m.(worlds := m.worlds[m.slug.value := World(m.worlds, m.slug.value)[key := value]])
    case RemoveItem(key) =>
      if m.slug.None? || m.slug.value == "" then m
      else m.(worlds := m.worlds[m.slug.value := World(m.worlds, m.slug.value) - {key}])
    case _ => m
  }

  function SpecRun(m: Spec, events: seq<Event>): Spec
    decreases |events|
  {
    if events == [] then m else SpecRun(SpecStep(m, events[0]), events[1..])
  }

  /** The disk holds at the namespaced key what the slug's own map holds at the key. */
  ghost predicate Agrees(disk: map<string, string>, worlds: Worlds, key: string, slug: string) {
    var k := Namespaced(key, slug);
    if key in World(worlds, slug) then k in disk && disk[k] == World(worlds, slug)[key] else k !in disk
  }

  ghost predicate Represents(s: State, m: Spec) {
    s.slug == m.slug && forall key, slug :: ColonFree(slug) ==> Agrees(s.disk, m.worlds, key, slug)
  }

  ghost predicate ColonFreeSlugs(events: seq<Event>) {
    forall e :: e in events && e.SetCurrent? && e.slug.Some? ==> ColonFree(e.slug.value)
  }

  lemma StepRepresents(s: State, m: Spec, e: Event)
    requires Represents(s, m) && (s.slug.Some? ==> ColonFree(s.slug.value))
    ensures Represents(Step(s, e), SpecStep(m, e))
  {
    hide Agrees;
    var s', m' := Step(s, e), SpecStep(m, e);
    forall key, slug | ColonFree(slug) ensures Agrees(s'.disk, m'.worlds, key, slug) {
      assert Agrees(s.disk, m.worlds, key, slug);
      if (e.SetItem? || e.RemoveItem?) && Active(s).Some? {
        StepAgrees(s, m, e, key, slug);
      }
    }
  }

  lemma StepAgrees(s: State, m: Spec, e: Event, key: string, slug: string)
    requires (e.SetItem? || e.RemoveItem?) && Active(s).Some? && s.slug == m.slug
    requires ColonFree(slug) && ColonFree(s.slug.value) && Agrees(s.disk, m.worlds, key, slug)
    ensures Agrees(Step(s, e).disk, SpecStep(m, e).worlds, key, slug)
  {
    WriteAgrees(s.disk, m.worlds, e.key, s.slug.value, if e.SetItem? then Some(e.value) else None, key, slug);
    hide Namespaced, Agrees, World, Switched, Notified, Rehydrated, Subscribed, Registered, ColonFree;
  }

  /** Writing or removing one key of one slug, on the disk and in that slug's own map. */
  lemma WriteAgrees(
      disk: map<string, string>, worlds: Worlds, k: string, active: string, value: Option<string>, key: string, slug: string)
    requires ColonFree(slug) && ColonFree(active) && Agrees(disk, worlds, key, slug)
    ensures var own := World(worlds, active);
            var next := if value.Some? then disk[Namespaced(k, active) := value.value] else disk - {Namespaced(k, active)};
            Agrees(next, worlds[active := if value.Some? then own[k := value.value] else own - {k}], key, slug)
  {
    hide Namespaced, ColonFree;
    if Namespaced(key, slug) == Namespaced(k, active) {
      NamespacedInjective(key, slug, k, active);
    }
  }

  /**
   Over every interleaving of switches, reads, writes and removes, storage behaves as an independent
   map per workspace: a read gives what the active slug's own map holds, and nothing when no slug is active.
   */
  lemma {:induction false} StorageRefinesWorlds(s: State, m: Spec, events: seq<Event>, key: string)
    requires Represents(s, m) && (s.slug.Some? ==> ColonFree(s.slug.value)) && ColonFreeSlugs(events)
    ensures var s', m' := Run(s, events), SpecRun(m, events);
            && Represents(s', m')
            && GetItem(s', key) ==
               if m'.slug.None? || m'.slug == Some("") || key !in World(m'.worlds, m'.slug.value) then None
               else Some(World(m'.worlds, m'.slug.value)[key])
    decreases |events|
  {
    hide Represents;
    if events == [] {
      ReadsOwnWorld(s, m, key);
    } else {
      StepRepresents(s, m, events[0]);
      SlugStep(s, events[0]);
      StorageRefinesWorlds(Step(s, events[0]), SpecStep(m, events[0]), events[1..], key);
    }
  }

  lemma SlugStep(s: State, e: Event)
    ensures Step(s, e).slug == if e.SetCurrent? then e.slug else s.slug
  {
    hide Calls, Readings, Active, ActiveSlug, Namespaced, Read;
  }

  lemma ReadsOwnWorld(s: State, m: Spec, key: string)
    requires Represents(s, m) && (s.slug.Some? ==> ColonFree(s.slug.value))
    ensures GetItem(s, key) ==
            if m.slug.None? || m.slug == Some("") || key !in World(m.worlds, m.slug.value) then None
            else Some(World(m.worlds, m.slug.value)[key])
  {
    if m.slug.Some? {
      assert Agrees(s.disk, m.worlds, key, m.slug.value);
    }
  }

  lemma StartRepresents()
    ensures Represents(START, Spec(None, map[]))
  {
  }

  /** What one workspace does never shows in another. */
  lemma {:induction false} OtherWorldsUntouched(m: Spec, events: seq<Event>, slug: string)
    requires forall e :: e in events && e.SetCurrent? ==> e.slug != Some(slug)
    requires m.slug != Some(slug)
    ensures World(SpecRun(m, events).worlds, slug) == World(m.worlds, slug)
    decreases |events|
  {
    if events != [] {
      OtherWorldsUntouched(SpecStep(m, events[0]), events[1..], slug);
    }
  }

  // ---------------------------------------------------------------------------
  // Notifications
  // ---------------------------------------------------------------------------

  /** The subscriber was last told the current slug, or joined under it and was told nothing since. */
  predicate Knows(s: State, who: Subscriber) {
    if who in s.told then s.told[who] == s.slug else who in s.joined && s.joined[who] == s.slug
  }

  /** The store last read from the current slug's namespace, or was registered under it and read nothing since. */
  predicate Follows(s: State, key: string) {
    if key in s.loaded then s.loaded[key].slug == s.slug else key in s.registeredAt && s.registeredAt[key] == s.slug
  }

  /** Only a scheduled microtask stands between the current slug and the subscriber. */
  predicate Told(s: State, who: Subscriber) {
    s.pendingNotify || who !in s.subscribers || Knows(s, who)
  }

  /** And between the current slug and the store. */
  predicate Loaded(s: State, key: string) {
    (s.pendingRehydrate || key !in s.stores || Follows(s, key)) && (key in s.loaded ==> key in s.stores)
  }

  ghost predicate Informed(s: State) {
    (forall w :: Told(s, w)) && (forall k :: Loaded(s, k))
  }

  lemma StepInforms(s: State, e: Event)
    requires Informed(s) && Enabled(s, e)
    ensures Informed(Step(s, e))
  {
    hide Step, Told, Loaded;
    forall w ensures Told(Step(s, e), w) {
      StepTold(s, e, w);
    }
    forall k ensures Loaded(Step(s, e), k) {
      StepLoaded(s, e, k);
    }
  }

  lemma StepTold(s: State, e: Event, who: Subscriber)
    requires Told(s, who)
    ensures Told(Step(s, e), who)
  {
    hide Switched, Notified, Rehydrated, Subscribed, Registered, Stored, Removed;
    match e
    case SetCurrent(slug, wsId) => SwitchedTold(s, slug, wsId, who); hide Told;
    case Notify => NotifiedTold(s, who); hide Told;
    case Rehydrate => Unheard(s, ""); hide Knows;
    case Subscribe(w) => SubscribedTold(s, w, who); hide Told;
    case Register(key) => Unheard(s, key); hide Knows;
    case _ =>
  }

  lemma SwitchedTold(s: State, slug: Option<string>, wsId: Option<string>, who: Subscriber)
    requires Told(s, who)
    ensures Told(Switched(s, slug, wsId), who)
  {
  }

  lemma NotifiedTold(s: State, who: Subscriber)
    ensures Told(Notified(s), who)
  {
    Called(s.told, s.subscribers, s.slug, who);
    hide Calls;
  }

  lemma SubscribedTold(s: State, w: Subscriber, who: Subscriber)
    requires Told(s, who)
    ensures Told(Subscribed(s, w), who)
  {
  }

  lemma Unheard(s: State, key: string)
    ensures forall who :: Told(s, who) ==> Told(Rehydrated(s), who) && Told(Registered(s, key), who)
  {
    hide Readings;
  }

  lemma StepLoaded(s: State, e: Event, key: string)
    requires Loaded(s, key)
    ensures Loaded(Step(s, e), key)
  {
    hide Switched, Notified, Rehydrated, Subscribed, Registered, Stored, Removed;
    match e
    case SetCurrent(slug, wsId) => SwitchedLoaded(s, slug, wsId, key); hide Loaded;
    case Notify => Unread(s, 0); hide Follows;
    case Rehydrate => RehydratedLoaded(s, key); hide Loaded;
    case Subscribe(w) => Unread(s, w); hide Follows;
    case Register(k) => RegisteredLoaded(s, k, key); hide Loaded;
    case _ =>
  }

  lemma SwitchedLoaded(s: State, slug: Option<string>, wsId: Option<string>, key: string)
    requires Loaded(s, key)
    ensures Loaded(Switched(s, slug, wsId), key)
  {
  }

  lemma RehydratedLoaded(s: State, key: string)
    requires Loaded(s, key)
    ensures Loaded(Rehydrated(s), key)
  {
    HasRead(s.loaded, s.stores, s.slug, s.disk, key);
    hide Readings, Read;
  }

  lemma RegisteredLoaded(s: State, k: string, key: string)
    requires Loaded(s, key)
    ensures Loaded(Registered(s, k), key)
  {
  }

  lemma Unread(s: State, who: Subscriber)
    ensures forall key :: Loaded(s, key) ==> Loaded(Notified(s), key) && Loaded(Subscribed(s, who), key)
  {
    hide Calls;
  }

  /**
   Over every run: once the microtasks have drained, each subscriber was last told the current slug and
   each registered store last read under it, unless nothing changed since it joined.
   */
  lemma {:induction false} DrainedIsUpToDate(s: State, events: seq<Event>)
    requires Informed(s) && Possible(s, events)
    ensures var s' := Run(s, events);
            && Informed(s')
            && (!s'.pendingNotify ==> forall w :: w in s'.subscribers ==> Knows(s', w))
            && (!s'.pendingRehydrate ==> forall k :: k in s'.stores ==> Follows(s', k))
    decreases |events|
  {
    hide Step, Knows, Follows, Informed;
    if events == [] {
      InformedWhenDrained(s);
    } else {
      StepInforms(s, events[0]);
      DrainedIsUpToDate(Step(s, events[0]), events[1..]);
    }
  }

  lemma InformedWhenDrained(s: State)
    requires Informed(s)
    ensures !s.pendingNotify ==> forall w :: w in s.subscribers ==> Knows(s, w)
    ensures !s.pendingRehydrate ==> forall k :: k in s.stores ==> Follows(s, k)
  {
    hide Knows, Follows;
    forall w | w in s.subscribers && !s.pendingNotify ensures Knows(s, w) {
      assert Told(s, w);
    }
    forall k | k in s.stores && !s.pendingRehydrate ensures Follows(s, k) {
      assert Loaded(s, k);
    }
  }

  // ---------------------------------------------------------------------------
  // Who follows the workspace
  // ---------------------------------------------------------------------------

  /** Subscribed and not unsubscribed since. */
  ghost predicate Joined(events: seq<Event>, who: Subscriber) {
    exists at :: 0 <= at < |events| && JoinedAt(events, who, at)
  }

  ghost predicate JoinedAt(events: seq<Event>, who: Subscriber, at: nat)
    requires at < |events|
  {
    events[at] == Subscribe(who) && Unsubscribe(who) !in events[at..]
  }

  lemma JoinedCons(e: Event, rest: seq<Event>, who: Subscriber)
    ensures Joined([e] + rest, who) <==> Joined(rest, who) || (e == Subscribe(who) && Unsubscribe(who) !in rest)
  {
    var events := [e] + rest;
    assert forall at :: 0 <= at < |rest| ==> events[at + 1..] == rest[at..] && events[at + 1] == rest[at];
    if at :| 0 <= at < |rest| && JoinedAt(rest, who, at) {
      assert JoinedAt(events, who, at + 1);
    }
    assert events[0..] == events;
    if e == Subscribe(who) && Unsubscribe(who) !in rest {
      assert JoinedAt(events, who, 0);
    }
    if at :| 0 <= at < |events| && JoinedAt(events, who, at) {
      assert at > 0 ==> JoinedAt(rest, who, at - 1);
    }
  }

  lemma StepFollowers(s: State, e: Event, who: Subscriber, key: string)
    ensures who in Step(s, e).subscribers <==> e == Subscribe(who) || (who in s.subscribers && e != Unsubscribe(who))
    ensures key in Step(s, e).stores <==> e == Register(key) || key in s.stores
  {
    hide Calls, Readings;
  }

  /** Over every run the subscribers are those who joined and did not leave; every registered store stays. */
  lemma {:induction false} FollowersAre(s: State, events: seq<Event>, who: Subscriber, key: string)
    ensures who in Run(s, events).subscribers <==>
            Joined(events, who) || (who in s.subscribers && Unsubscribe(who) !in events)
    ensures key in Run(s, events).stores <==> Register(key) in events || key in s.stores
    decreases |events|
  {
    if events != [] {
      var e, rest := events[0], events[1..];
      assert events == [e] + rest;
      FollowersAre(Step(s, e), rest, who, key);
      StepFollowers(s, e, who, key);
      JoinedCons(e, rest, who);
      hide Step, Joined;
    }
  }

  /** Who is not subscribed hears nothing. */
  lemma {:induction false} OutsidersHearNothing(s: State, events: seq<Event>, who: Subscriber)
    requires who !in s.subscribers && Subscribe(who) !in events
    ensures Get(Run(s, events).told, who) == Get(s.told, who)
    decreases |events|
  {
    if events != [] {
      var e, rest := events[0], events[1..];
      assert events == [e] + rest;
      StepFollowers(s, e, who, "");
      StepUnheard(s, e, who);
      OutsidersHearNothing(Step(s, e), rest, who);
    }
  }

  function Get(told: map<Subscriber, Option<string>>, who: Subscriber): Option<Option<string>> {
    if who in told then Some(told[who]) else None
  }

  lemma StepUnheard(s: State, e: Event, who: Subscriber)
    requires who !in s.subscribers && e != Subscribe(who)
    ensures Get(Step(s, e).told, who) == Get(s.told, who)
  {
    hide Readings;
  }

  /** The slug and the workspace id are those of the latest switch. */
  lemma {:induction false} LatestSwitchIsCurrent(s: State, events: seq<Event>, at: nat)
    requires at < |events| && events[at].SetCurrent?
    requires forall k :: at < k < |events| ==> !events[k].SetCurrent?
    ensures Run(s, events).slug == events[at].slug && Run(s, events).wsId == events[at].wsId
    decreases |events|
  {
    var rest := events[1..];
    StepKeepsCurrent(s, events[0]);
    hide Step;
    if at > 0 {
      LatestSwitchIsCurrent(Step(s, events[0]), rest, at - 1);
    } else {
      KeepsCurrent(Step(s, events[0]), rest);
    }
  }

  lemma StepKeepsCurrent(s: State, e: Event)
    ensures Step(s, e).slug == if e.SetCurrent? then e.slug else s.slug
    ensures Step(s, e).wsId == if e.SetCurrent? then e.wsId else s.wsId
  {
    hide Calls, Readings, Stored, Removed, Read, Active, Registered, Subscribed;
    CurrentKept(s, e);
  }

  lemma CurrentKept(s: State, e: Event)
    ensures e.Subscribe? ==> Subscribed(s, e.who).slug == s.slug && Subscribed(s, e.who).wsId == s.wsId
    ensures e.Register? ==> Registered(s, e.key).slug == s.slug && Registered(s, e.key).wsId == s.wsId
  {
  }

  lemma {:induction false} KeepsCurrent(s: State, events: seq<Event>)
    requires forall k :: 0 <= k < |events| ==> !events[k].SetCurrent?
    ensures Run(s, events).slug == s.slug && Run(s, events).wsId == s.wsId
    decreases |events|
  {
    if events != [] {
      StepKeepsCurrent(s, events[0]);
      hide Step;
      KeepsCurrent(Step(s, events[0]), events[1..]);
    }
  }

  /** The module as loaded keeps everyone informed. */
  lemma StartInforms()
    ensures Informed(START)
  {
    assert START.subscribers == {} && START.stores == [] && START.loaded == map[];
  }

  /** A rehydration gives each registered store what the active workspace's own map holds under its key. */
  lemma RehydrationReadsOwnWorld(s: State, m: Spec, key: string)
    requires Represents(s, m) && (s.slug.Some? ==> ColonFree(s.slug.value)) && key in s.stores
    ensures var next := Step(s, Rehydrate);
            key in next.loaded && next.loaded[key].slug == m.slug &&
            next.loaded[key].value ==
            if m.slug.None? || m.slug == Some("") || key !in World(m.worlds, m.slug.value) then None
            else Some(World(m.worlds, m.slug.value)[key])
  {
    assert s.slug == m.slug;
    hide Represents, Readings, Read;
    ReadsOwnWorld(s, m, key);
    HasRead(s.loaded, s.stores, s.slug, s.disk, key);
  }
}
