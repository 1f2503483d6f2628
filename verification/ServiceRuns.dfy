/**
 Every interleaving of List calls with cache invalidation, cache sweeps, the clock, a daemon
 that changes at will, and the goroutine that watches Docker events. A List call is three
 steps: the Get, the daemon's answer, the Set. Fields that only record history are marked.
 */
module ServiceRuns {
  import opened Text
  import opened Models
  import opened Caching
  import opened Containers

  /** A daemon answer on its way into the cache, with (history) the steps and times of its List call. */
  datatype Fetch = Fetch(items: seq<Container>, getAt: nat, readAt: nat, readTime: int)

  /** A cached list, with (history) the step and time of its Set. */
  datatype Listing = Listing(fetch: Fetch, setAt: nat, setTime: int)

  datatype Stored = Listed(listing: Listing) | Other

  /** A List call between its steps. */
  datatype Call = Missed(getAt: nat) | Fetched(fetch: Fetch)

  /** History: a list that List returned, at its Get hit or at its Set. */
  datatype Served = Served(listing: Listing, at: nat, time: int)

  /** History: a list that the watcher broadcast. */
  datatype Shown = Shown(served: Served, at: nat)

  /**
   The watcher: waiting for an event or the ticker; about to call List; in a List call that
   missed; holding served list number `index`. `since` is the step at which it last woke up.
   */
  datatype Watch = Idle | Wants(since: nat) | Waiting(since: nat, call: nat) | Has(since: nat, index: nat)

  datatype State = State(
    ttl: int,
    now: int,
    cache: Items<Stored>,
    calls: map<nat, Call>,
    daemon: seq<ApiContainer>,
    watch: Watch,
    // history: the daemon's containers at each step, the steps that invalidated the whole cache
    past: seq<seq<ApiContainer>>,
    invalidated: set<nat>,
    served: seq<Served>,
    shown: seq<Shown>)

  datatype Action =
    | Change(snapshot: seq<ApiContainer>)
    | Get(call: nat)
    | Read(call: nat)
    | Fail(call: nat)
    | Put(call: nat)
    | Expire
    | PutOther(key: string)
    | Forget(key: string)
    | DockerEvent
    | Ticker
    | WatchGet(call: nat)
    | Show
    | Abandon

  datatype Step = Step(action: Action, now: int)

  function Init(ttl: int, now: int): State {
    State(ttl, now, map[], map[], [], Idle, [], {}, [], [])
  }

  ghost predicate Enabled(s: State, a: Step) {
    && s.now <= a.now
    && match a.action
       case Change(snapshot) => ValidSnapshot(snapshot)
       case Get(call) => call !in s.calls
       case Read(call) => call in s.calls && s.calls[call].Missed? && ValidSnapshot(s.daemon)
       case Fail(call) => call in s.calls && s.calls[call].Missed?
       case Put(call) => call in s.calls && s.calls[call].Fetched?
       case Expire => true
       case PutOther(key) => key != CACHE_KEY
       case Forget(key) => true
       case DockerEvent => s.watch.Idle?
       case Ticker => s.watch.Idle?
       case WatchGet(call) => s.watch.Wants? && call !in s.calls
       case Show => s.watch.Has? && s.watch.index < |s.served|
       case Abandon => s.watch.Has?
  }

  /** The number of the step about to be taken. */
  function Tick(s: State): nat { |s.past| }

  function CachedListing(s: State, now: int): Option<Listing> {
    var entry: Option<Stored> := Lookup(s.cache, CACHE_KEY, now);
    if entry.Some? && entry.value.Listed? then Some(entry.value.listing) else None
  }

  function GetList(s: State, call: nat, now: int): State {
    match CachedListing(s, now)
    case Some(l) => s.(served := s.served + [Served(l, Tick(s), now)])
    case None => s.(calls := s.calls[call := Missed(Tick(s))])
  }

  function PutList(s: State, call: nat, now: int): State
    requires call in s.calls && s.calls[call].Fetched?
  {
    var l := Listing(s.calls[call].fetch, Tick(s), now);
    s.(cache := WithEntry(s.cache, CACHE_KEY, Listed(l), now, s.ttl),
       calls := s.calls - {call},
       served := s.served + [Served(l, Tick(s), now)],
       watch := if s.watch.Waiting? && s.watch.call == call then Has(s.watch.since, |s.served|) else s.watch)
  }

  ghost function Act(s: State, a: Step): State
    requires Enabled(s, a)
  {
    match a.action
    case Change(snapshot) => s.(daemon := snapshot)
    case Get(call) => GetList(s, call, a.now)
    case Read(call) =>
      var fetch := Fetch(Visible(s.daemon, a.now), s.calls[call].getAt, Tick(s), a.now);
      s.(calls := s.calls[call := Fetched(fetch)])
    case Fail(call) =>
      s.(calls := s.calls - {call},
         watch := if s.watch.Waiting? && s.watch.call == call then Idle else s.watch)
    case Put(call) => PutList(s, call, a.now)
    case Expire => s.(cache := Swept(s.cache, a.now))
    case PutOther(key) => s.(cache := WithEntry(s.cache, key, Other, a.now, s.ttl))
    case Forget(key) => s.(cache := s.cache - {key})
    case DockerEvent => s.(cache := map[], invalidated := s.invalidated + {Tick(s)}, watch := Wants(Tick(s)))
    case Ticker => s.(watch := Wants(Tick(s)))
    case WatchGet(call) =>
      GetList(s, call, a.now).(watch := if CachedListing(s, a.now).Some? then Has(s.watch.since, |s.served|)
                                        else Waiting(s.watch.since, call))
    case Show => s.(shown := s.shown + [Shown(s.served[s.watch.index], Tick(s))], watch := Idle)
    case Abandon => s.(watch := Idle)
  }

  ghost function Apply(s: State, a: Step): State
    requires Enabled(s, a)
  {
    Act(s, a).(now := a.now, past := s.past + [s.daemon])
  }

  ghost predicate Feasible(s: State, run: seq<Step>)
    decreases |run|
  {
    run == [] || (Enabled(s, run[0]) && Feasible(Apply(s, run[0]), run[1..]))
  }

  ghost function After(s: State, run: seq<Step>): State
    requires Feasible(s, run)
    decreases |run|
  {
    if run == [] then s else After(Apply(s, run[0]), run[1..])
  }

  // ---------- The invariant ----------

  /** The list is the visible image of the daemon at one single step of the call. */
  ghost predicate Genuine(s: State, f: Fetch) {
    && f.getAt < f.readAt < Tick(s) && f.readTime <= s.now
    && ValidSnapshot(s.past[f.readAt])
    && f.items == Visible(s.past[f.readAt], f.readTime)
  }

  ghost predicate GenuineListing(s: State, l: Listing) {
    && Genuine(s, l.fetch)
    && l.fetch.readAt < l.setAt < Tick(s) && l.fetch.readTime <= l.setTime <= s.now
  }

  /** No whole-cache invalidation lies between the Set and the moment of serving. */
  ghost predicate Unbroken(s: State, setAt: nat, at: nat) {
    forall i | i in s.invalidated && i < at :: i < setAt
  }

  ghost predicate ServedWell(s: State, v: Served) {
    && GenuineListing(s, v.listing)
    && v.listing.setAt <= v.at < Tick(s)
    && Unbroken(s, v.listing.setAt, v.at)
    && v.listing.setTime <= v.time <= v.listing.setTime + (if s.ttl > 0 then s.ttl else 0)
  }

  ghost predicate CallWell(s: State, c: Call) {
    match c
    case Missed(getAt) => getAt < Tick(s)
    case Fetched(f) => Genuine(s, f)
  }

  ghost predicate EntryWell(s: State, e: Entry<Stored>) {
    && e.value.Listed?
    && GenuineListing(s, e.value.listing)
    && e.expiresAt == e.value.listing.setTime + s.ttl
    && Unbroken(s, e.value.listing.setAt, Tick(s))
  }

  ghost predicate Inv(s: State) {
    && (forall i | i in s.invalidated :: i < Tick(s))
    && (forall c | c in s.calls :: CallWell(s, s.calls[c]))
    && (CACHE_KEY in s.cache ==> EntryWell(s, s.cache[CACHE_KEY]))
    && (forall v | v in s.served :: ServedWell(s, v))
    && (forall b | b in s.shown :: b.served in s.served && b.at < Tick(s))
  }

  /** t comes after s: the record of earlier steps is the same, and new invalidations are at new steps. */
  ghost predicate Extends(t: State, s: State) {
    && s.past <= t.past && s.now <= t.now && s.ttl == t.ttl && s.invalidated <= t.invalidated
    && forall i | i in t.invalidated :: i in s.invalidated || i >= Tick(s)
  }

  lemma LaterFetch(s: State, t: State, f: Fetch)
    requires Extends(t, s) && Genuine(s, f)
    ensures Genuine(t, f)
  {
    hide Visible, ValidSnapshot;
    assert t.past[f.readAt] == s.past[f.readAt];
  }

  lemma LaterListing(s: State, t: State, l: Listing)
    requires Extends(t, s) && GenuineListing(s, l)
    ensures GenuineListing(t, l)
  {
    hide Genuine;
    LaterFetch(s, t, l.fetch);
  }

  lemma LaterServed(s: State, t: State, v: Served)
    requires Extends(t, s) && ServedWell(s, v)
    ensures ServedWell(t, v)
  {
    hide GenuineListing;
    LaterListing(s, t, v.listing);
  }

  lemma LaterCall(s: State, t: State, c: Call)
    requires Extends(t, s) && CallWell(s, c)
    ensures CallWell(t, c)
  {
    hide Genuine;
    if c.Fetched? { LaterFetch(s, t, c.fetch); }
  }

  lemma StepExtends(s: State, a: Step)
    requires Enabled(s, a)
    ensures Extends(Apply(s, a), s) && Tick(Apply(s, a)) == Tick(s) + 1
  {
    hide Visible;
  }

  // ---------- Where the parts of the next state come from ----------

  /** The listing a Put stores and returns. */
  function PutListing(s: State, a: Step): Listing
    requires a.action.Put? && a.action.call in s.calls && s.calls[a.action.call].Fetched?
  {
    Listing(s.calls[a.action.call].fetch, Tick(s), a.now)
  }

  /** A call is as before, has just missed, or has just read the daemon. */
  lemma CallOrigin(s: State, a: Step, c: nat)
    requires Enabled(s, a) && c in Apply(s, a).calls
    ensures var call := Apply(s, a).calls[c];
            || (c in s.calls && call == s.calls[c])
            || call == Missed(Tick(s))
            || (c in s.calls && s.calls[c].Missed? && ValidSnapshot(s.daemon)
                && call == Fetched(Fetch(Visible(s.daemon, a.now), s.calls[c].getAt, Tick(s), a.now)))
  {
    hide Visible, ValidSnapshot, Lookup, Swept, WithEntry;
  }

  /** The cached list is as before, or has just been put. */
  lemma EntryOrigin(s: State, a: Step)
    requires Enabled(s, a) && CACHE_KEY in Apply(s, a).cache
    ensures var e := Apply(s, a).cache[CACHE_KEY];
            || (!a.action.DockerEvent? && CACHE_KEY in s.cache && e == s.cache[CACHE_KEY])
            || (a.action.Put? && e == Entry(Listed(PutListing(s, a)), a.now + s.ttl))
  {
    hide Visible, ValidSnapshot, Lookup;
  }

  /** A served list was served before, is the cached one on a hit, or has just been put. */
  lemma ServedOrigin(s: State, a: Step, v: Served)
    requires Enabled(s, a) && v in Apply(s, a).served
    ensures || v in s.served
            || (a.action.Put? && v == Served(PutListing(s, a), Tick(s), a.now))
            || (!a.action.DockerEvent? && CachedListing(s, a.now).Some?
                && v == Served(CachedListing(s, a.now).value, Tick(s), a.now))
  {
    hide Visible, ValidSnapshot, Swept, WithEntry, CachedListing;
  }

  /** The record of lists served only grows. */
  lemma ServedGrows(s: State, a: Step)
    requires Enabled(s, a)
    ensures s.served <= Apply(s, a).served
  {
    hide Visible, ValidSnapshot, Swept, WithEntry, CachedListing;
  }

  /** Only a Show adds to what was shown. */
  lemma ShownOrigin(s: State, a: Step)
    requires Enabled(s, a)
    ensures Apply(s, a).shown
         == s.shown + (if a.action.Show? then [Shown(s.served[s.watch.index], Tick(s))] else [])
  {
    hide Visible, ValidSnapshot, Swept, WithEntry, CachedListing;
  }

  // ---------- Every step keeps the invariant ----------

  lemma StepCalls(s: State, a: Step, c: nat)
    requires Inv(s) && Enabled(s, a) && c in Apply(s, a).calls
    ensures CallWell(Apply(s, a), Apply(s, a).calls[c])
  {
    hide Visible, ValidSnapshot, ServedWell, EntryWell, Act;
    StepExtends(s, a);
    CallOrigin(s, a, c);
    if c in s.calls {
      assert CallWell(s, s.calls[c]);
      LaterCall(s, Apply(s, a), s.calls[c]);
    }
  }

  lemma PutGenuine(s: State, a: Step)
    requires Inv(s) && Enabled(s, a) && a.action.Put?
    ensures GenuineListing(Apply(s, a), PutListing(s, a))
  {
    hide Visible, ValidSnapshot, ServedWell, EntryWell, Act;
    StepExtends(s, a);
    assert CallWell(s, s.calls[a.action.call]);
    LaterFetch(s, Apply(s, a), s.calls[a.action.call].fetch);
  }

  lemma StepEntry(s: State, a: Step)
    requires Inv(s) && Enabled(s, a) && CACHE_KEY in Apply(s, a).cache
    ensures EntryWell(Apply(s, a), Apply(s, a).cache[CACHE_KEY])
  {
    hide Visible, ValidSnapshot, GenuineListing, ServedWell, CallWell, Act;
    var t := Apply(s, a);
    StepExtends(s, a);
    EntryOrigin(s, a);
    if a.action.Put? { PutGenuine(s, a); }
    if CACHE_KEY in s.cache { LaterListing(s, t, s.cache[CACHE_KEY].value.listing); }
    NewInvalidation(s, a);
    assert forall i | i in t.invalidated && !a.action.DockerEvent? :: i in s.invalidated && i < Tick(s);
  }

  lemma NewInvalidation(s: State, a: Step)
    requires Enabled(s, a)
    ensures Apply(s, a).invalidated == s.invalidated + (if a.action.DockerEvent? then {Tick(s)} else {})
    ensures Apply(s, a).ttl == s.ttl
  {
    hide Visible, ValidSnapshot, Swept, WithEntry, CachedListing;
  }

  lemma StepServed(s: State, a: Step, v: Served)
    requires Inv(s) && Enabled(s, a) && v in Apply(s, a).served
    ensures ServedWell(Apply(s, a), v)
  {
    hide Visible, ValidSnapshot, GenuineListing, CallWell, Act, Genuine, CachedListing;
    var t := Apply(s, a);
    StepExtends(s, a);
    NewInvalidation(s, a);
    ServedOrigin(s, a, v);
    if v in s.served {
      LaterServed(s, t, v);
    } else if a.action.Put? && v.listing == PutListing(s, a) {
      PutGenuine(s, a);
    } else {
      HitServed(s, a, v);
    }
  }

  /** A hit serves the cached entry, which no invalidation has touched since its Set. */
  lemma HitServed(s: State, a: Step, v: Served)
    requires Inv(s) && Enabled(s, a) && !a.action.DockerEvent?
    requires CachedListing(s, a.now).Some? && v == Served(CachedListing(s, a.now).value, Tick(s), a.now)
    ensures ServedWell(Apply(s, a), v)
  {
    hide Visible, ValidSnapshot, Genuine, CallWell, ServedWell, Act;
    var t := Apply(s, a);
    StepExtends(s, a);
    NewInvalidation(s, a);
    assert EntryWell(s, s.cache[CACHE_KEY]);
    LaterListing(s, t, v.listing);
    HitIsServedWell(s, t, v);
  }

  lemma HitIsServedWell(s: State, t: State, v: Served)
    requires GenuineListing(s, v.listing) && GenuineListing(t, v.listing) && Extends(t, s)
    requires v.at == Tick(s) < Tick(t) && v.listing.setTime <= v.time <= v.listing.setTime + s.ttl
    requires Unbroken(s, v.listing.setAt, Tick(s))
    ensures ServedWell(t, v)
  {
    hide Genuine;
  }

  lemma StepInv(s: State, a: Step)
    requires Inv(s) && Enabled(s, a)
    ensures Inv(Apply(s, a))
  {
    hide Visible, ValidSnapshot, CallWell, EntryWell, ServedWell, Extends, Act;
    var t := Apply(s, a);
    StepExtends(s, a);
    NewInvalidation(s, a);
    ServedGrows(s, a);
    ShownOrigin(s, a);
    forall c | c in t.calls ensures CallWell(t, t.calls[c]) { StepCalls(s, a, c); }
    forall v | v in t.served ensures ServedWell(t, v) { StepServed(s, a, v); }
    if CACHE_KEY in t.cache { StepEntry(s, a); }
  }

  lemma {:induction false} RunInv(s: State, run: seq<Step>)
    requires Inv(s) && Feasible(s, run)
    ensures Inv(After(s, run))
    decreases |run|
  {
    hide Inv;
    if run != [] {
      StepInv(s, run[0]);
      RunInv(Apply(s, run[0]), run[1..]);
    }
  }

  ghost function Reached(ttl: int, start: int, run: seq<Step>): State
    requires Feasible(Init(ttl, start), run)
  {
    After(Init(ttl, start), run)
  }

  // ---------- Main results ----------

  /**
   Only an overlapping fetch serves stale data. If a list is served after an invalidation but
   shows the daemon before it, its List call had its Get miss before that invalidation and its
   Set after it. This holds for every earlier invalidation, in particular the latest.
   */
  lemma StaleOnlyByOverlap(ttl: int, start: int, run: seq<Step>, v: Served, i: nat)
    requires Feasible(Init(ttl, start), run) && v in Reached(ttl, start, run).served
    requires i in Reached(ttl, start, run).invalidated && i < v.at && v.listing.fetch.readAt < i
    ensures v.listing.fetch.getAt < v.listing.fetch.readAt < i < v.listing.setAt <= v.at
  {
    hide Visible, CallWell, EntryWell, Feasible, After;
    RunInv(Init(ttl, start), run);
    assert ServedWell(Reached(ttl, start, run), v);
  }

  /**
   Every list served is the visible image, in order, of the daemon at one single step, and its
   age is at most the time to live plus the time its own call took from that step to its Set.
   */
  lemma ProvenanceAndAge(ttl: int, start: int, run: seq<Step>, v: Served)
    requires Feasible(Init(ttl, start), run) && v in Reached(ttl, start, run).served
    ensures var f, past := v.listing.fetch, Reached(ttl, start, run).past;
            && f.readAt < |past| && ValidSnapshot(past[f.readAt])
            && f.items == Visible(past[f.readAt], f.readTime)
    ensures 0 <= v.time - v.listing.fetch.readTime
    ensures v.time - v.listing.fetch.readTime
              <= (if ttl > 0 then ttl else 0) + (v.listing.setTime - v.listing.fetch.readTime)
  {
    hide Visible, CallWell, EntryWell, Feasible, After;
    RunInv(Init(ttl, start), run);
    TtlFixed(Init(ttl, start), run);
    assert ServedWell(Reached(ttl, start, run), v);
  }

  lemma {:induction false} TtlFixed(s: State, run: seq<Step>)
    requires Feasible(s, run)
    ensures After(s, run).ttl == s.ttl
    decreases |run|
  {
    hide Visible;
    if run != [] { TtlFixed(Apply(s, run[0]), run[1..]); }
  }

  // ---------- When everything is fresh ----------

  /** A call that has read the daemon read it after step k; one that has not will. */
  ghost predicate FreshCall(k: nat, c: Call) {
    c.Fetched? ==> k < c.fetch.readAt
  }

  /** Nothing read before step k can be served any more. */
  ghost predicate Settled(s: State, k: nat) {
    && k < Tick(s)
    && (forall c | c in s.calls :: FreshCall(k, s.calls[c]))
    && (CACHE_KEY in s.cache && s.cache[CACHE_KEY].value.Listed? ==> k < s.cache[CACHE_KEY].value.listing.fetch.readAt)
  }

  /** Every list served after step k was read after it. */
  ghost predicate ServesFresh(s: State, k: nat) {
    forall v | v in s.served && k < v.at :: k < v.listing.fetch.readAt
  }

  /** Every list broadcast after step k was read after it. */
  ghost predicate ShowsFresh(s: State, k: nat) {
    forall b | b in s.shown && k < b.at :: k < b.served.listing.fetch.readAt
  }

  /** The watcher is not about to show a list read before step k. */
  ghost predicate WatchFresh(s: State, k: nat) {
    match s.watch
    case Idle => true
    case Wants(_) => true
    case Waiting(_, call) => call in s.calls && FreshCall(k, s.calls[call])
    case Has(_, index) => index < |s.served| && k < s.served[index].listing.fetch.readAt
  }

  /** With a negative time to live nothing is ever served from the cache, so the watcher is safe on its own. */
  ghost predicate WatcherSettled(s: State, k: nat) {
    k < Tick(s) && (s.ttl < 0 || Settled(s, k)) && WatchFresh(s, k)
  }

  ghost predicate NoneFetched(s: State) {
    forall c | c in s.calls :: s.calls[c].Missed?
  }

  lemma SettledCalls(s: State, a: Step, k: nat, c: nat)
    requires Enabled(s, a) && Settled(s, k) && c in Apply(s, a).calls
    ensures FreshCall(k, Apply(s, a).calls[c])
  {
    hide Visible, ValidSnapshot, Act;
    CallOrigin(s, a, c);
    assert c in s.calls ==> FreshCall(k, s.calls[c]);
  }

  lemma SettledStep(s: State, a: Step, k: nat)
    requires Enabled(s, a) && Settled(s, k)
    ensures Settled(Apply(s, a), k)
  {
    hide Visible, ValidSnapshot, FreshCall, Act;
    var t := Apply(s, a);
    StepExtends(s, a);
    forall c | c in t.calls ensures FreshCall(k, t.calls[c]) { SettledCalls(s, a, k, c); }
    if CACHE_KEY in t.cache { SettledEntry(s, a, k); }
  }

  lemma SettledEntry(s: State, a: Step, k: nat)
    requires Enabled(s, a) && Settled(s, k) && CACHE_KEY in Apply(s, a).cache
    ensures var e := Apply(s, a).cache[CACHE_KEY]; e.value.Listed? ==> k < e.value.listing.fetch.readAt
  {
    hide Visible, ValidSnapshot, Act;
    EntryOrigin(s, a);
    assert a.action.Put? ==> FreshCall(k, s.calls[a.action.call]);
  }

  lemma ServedStep(s: State, a: Step, k: nat)
    requires Enabled(s, a) && Settled(s, k) && ServesFresh(s, k)
    ensures ServesFresh(Apply(s, a), k)
  {
    hide Visible, ValidSnapshot, Act;
    forall v | v in Apply(s, a).served && k < v.at ensures k < v.listing.fetch.readAt {
      ServedOrigin(s, a, v);
      assert a.action.Put? ==> FreshCall(k, s.calls[a.action.call]);
    }
  }

  lemma {:induction false} ServedRun(s: State, run: seq<Step>, k: nat)
    requires Feasible(s, run) && Settled(s, k) && ServesFresh(s, k)
    ensures ServesFresh(After(s, run), k)
    decreases |run|
  {
    hide Settled, ServesFresh;
    if run != [] {
      SettledStep(s, run[0], k);
      ServedStep(s, run[0], k);
      ServedRun(Apply(s, run[0]), run[1..], k);
    }
  }

  /** A cached list that is served has not expired, so the time to live is not negative. */
  lemma HitNeedsTtl(s: State, a: Step)
    requires Inv(s) && Enabled(s, a) && CachedListing(s, a.now).Some?
    ensures s.ttl >= 0
    ensures CACHE_KEY in s.cache && s.cache[CACHE_KEY].value == Listed(CachedListing(s, a.now).value)
  {
    hide Visible, ValidSnapshot, ServedWell, CallWell, Genuine;
    assert EntryWell(s, s.cache[CACHE_KEY]);
  }

  lemma WatchGetStep(s: State, a: Step, k: nat)
    requires Inv(s) && Enabled(s, a) && WatcherSettled(s, k) && a.action.WatchGet?
    ensures WatchFresh(Apply(s, a), k)
  {
    hide Lookup, Inv;
    if CachedListing(s, a.now).Some? { HitNeedsTtl(s, a); }
  }

  /** The watcher's own Put hands it the list it had read; another call's Put leaves it alone. */
  lemma WatchPutStep(s: State, a: Step, k: nat)
    requires Enabled(s, a) && WatchFresh(s, k) && a.action.Put?
    ensures WatchFresh(Apply(s, a), k)
  {
    hide WithEntry;
  }

  lemma WatchStep(s: State, a: Step, k: nat)
    requires Inv(s) && Enabled(s, a) && WatcherSettled(s, k)
    ensures WatchFresh(Apply(s, a), k)
  {
    hide Visible, ValidSnapshot, CachedListing, Swept, WithEntry, Inv, Settled, PutList, Lookup;
    if a.action.WatchGet? {
      WatchGetStep(s, a, k);
    } else if a.action.Put? {
      WatchPutStep(s, a, k);
    }
  }

  lemma WatcherStep(s: State, a: Step, k: nat)
    requires Inv(s) && Enabled(s, a) && WatcherSettled(s, k) && ShowsFresh(s, k)
    ensures WatcherSettled(Apply(s, a), k) && ShowsFresh(Apply(s, a), k)
  {
    hide Visible, ValidSnapshot, Settled, Act, Inv;
    StepExtends(s, a);
    if Settled(s, k) { SettledStep(s, a, k); }
    WatchStep(s, a, k);
    ShownOrigin(s, a);
    NewInvalidation(s, a);
  }

  lemma {:induction false} WatcherRun(s: State, run: seq<Step>, k: nat)
    requires Inv(s) && Feasible(s, run) && WatcherSettled(s, k) && ShowsFresh(s, k)
    ensures ShowsFresh(After(s, run), k)
    decreases |run|
  {
    hide Inv, WatcherSettled, ShowsFresh;
    if run != [] {
      StepInv(s, run[0]);
      WatcherStep(s, run[0], k);
      WatcherRun(Apply(s, run[0]), run[1..], k);
    }
  }

  /** What handling a Docker event leaves behind. */
  lemma EventSettles(s: State, a: Step)
    requires Inv(s) && Enabled(s, a) && a.action.DockerEvent?
    ensures var t := Apply(s, a);
            && ServesFresh(t, Tick(s)) && ShowsFresh(t, Tick(s))
            && (NoneFetched(s) ==> Settled(t, Tick(s)))
            && (s.ttl < 0 || NoneFetched(s) ==> WatcherSettled(t, Tick(s)))
  {
    hide Visible, CallWell, EntryWell;
    var t := Apply(s, a);
    forall v | v in t.served ensures v.at < Tick(s) { assert ServedWell(s, v); }
    forall b | b in t.shown ensures b.at < Tick(s) { assert b in s.shown; }
  }

  lemma {:induction false} RunSplit(s: State, run: seq<Step>, n: nat)
    requires Feasible(s, run) && n <= |run|
    ensures Feasible(s, run[..n]) && Feasible(After(s, run[..n]), run[n..])
    ensures After(s, run) == After(After(s, run[..n]), run[n..])
    ensures Tick(After(s, run[..n])) == Tick(s) + n
    decreases n
  {
    hide Visible;
    if n == 0 {
      assert run[0..] == run;
    } else {
      RunSplit(Apply(s, run[0]), run[1..], n - 1);
      assert run[..n][1..] == run[1..][..n - 1] && run[1..][n - 1..] == run[n..];
    }
  }

  lemma Append(s: State, run: seq<Step>, a: Step)
    requires Feasible(s, run) && Enabled(After(s, run), a)
    ensures Feasible(s, run + [a]) && After(s, run + [a]) == Apply(After(s, run), a)
    decreases |run|
  {
    hide Visible, Act, Enabled;
    if run == [] {
      assert run + [a] == [a] && [a][1..] == [];
      assert After(Apply(s, a), []) == Apply(s, a);
    } else {
      Append(Apply(s, run[0]), run[1..], a);
      assert (run + [a])[1..] == run[1..] + [a];
    }
  }

  lemma OneStep(s: State, a: Step)
    requires Feasible(s, [a])
    ensures Enabled(s, a) && After(s, [a]) == Apply(s, a)
  {
    assert After(Apply(s, a), [a][1..]) == Apply(s, a);
  }

  // ---------- Undisturbed turns ----------

  function MissRun(call: nat, now: int): seq<Step> {
    [Step(Action.Get(call), now)] + [Step(Read(call), now)] + [Step(Put(call), now)]
  }

  /** A List call that misses and is not disturbed returns the daemon's visible containers, and caches them. */
  lemma MissServesDaemon(s: State, call: nat, now: int) returns (t: State)
    requires s.now <= now && call !in s.calls && CachedListing(s, now) == None && ValidSnapshot(s.daemon)
    ensures var l := Listing(Fetch(Visible(s.daemon, now), Tick(s), Tick(s) + 1, now), Tick(s) + 2, now);
            && Feasible(s, MissRun(call, now)) && t == After(s, MissRun(call, now))
            && t.served == s.served + [Served(l, Tick(s) + 2, now)]
            && t.cache == s.cache[CACHE_KEY := Entry(Listed(l), now + s.ttl)]
            && (s.ttl >= 0 ==> CachedListing(t, now) == Some(l))
            && t.calls == s.calls
  {
    hide Visible, ValidSnapshot;
    var t1 := Apply(s, Step(Action.Get(call), now));
    var t2 := Apply(t1, Step(Read(call), now));
    t := Apply(t2, Step(Put(call), now));
    assert t.calls == s.calls;
    SingleStep(s, Step(Action.Get(call), now));
    hide Enabled, Apply, Feasible, After;
    Append(s, [Step(Action.Get(call), now)], Step(Read(call), now));
    Append(s, [Step(Action.Get(call), now)] + [Step(Read(call), now)], Step(Put(call), now));
  }

  /** A List call that hits returns the cached list and changes nothing else. */
  lemma HitServesCache(s: State, call: nat, now: int)
    requires s.now <= now && call !in s.calls && CachedListing(s, now).Some?
    ensures var t := Apply(s, Step(Action.Get(call), now));
            && t.served == s.served + [Served(CachedListing(s, now).value, Tick(s), now)]
            && t.cache == s.cache && t.calls == s.calls
  {
    hide Visible, ValidSnapshot, CachedListing;
  }

  /** A tick of the timer makes an idle watcher show the list, cached or fresh. */
  lemma TickerShowsCache(s: State, call: nat, now: int) returns (t: State)
    requires s.now <= now && s.watch.Idle? && call !in s.calls && CachedListing(s, now).Some?
    ensures var run := [Step(Ticker, now)] + [Step(WatchGet(call), now)] + [Step(Show, now)];
            && Feasible(s, run) && t == After(s, run)
            && |t.shown| == |s.shown| + 1 && t.shown[|s.shown|].served.listing == CachedListing(s, now).value
            && t.watch.Idle?
  {
    hide Visible, ValidSnapshot;
    var t1 := Apply(s, Step(Ticker, now));
    var t2 := Apply(t1, Step(WatchGet(call), now));
    t := Apply(t2, Step(Show, now));
    SingleStep(s, Step(Ticker, now));
    hide Enabled, Apply, Feasible, After;
    Append(s, [Step(Ticker, now)], Step(WatchGet(call), now));
    Append(s, [Step(Ticker, now)] + [Step(WatchGet(call), now)], Step(Show, now));
  }

  lemma TickerShowsDaemon(s: State, call: nat, now: int) returns (t: State)
    requires s.now <= now && s.watch.Idle? && call !in s.calls && CachedListing(s, now) == None
    requires ValidSnapshot(s.daemon)
    ensures var run := [Step(Ticker, now)] + [Step(WatchGet(call), now)] + [Step(Read(call), now)]
                       + [Step(Put(call), now)] + [Step(Show, now)];
            && Feasible(s, run) && t == After(s, run)
            && |t.shown| == |s.shown| + 1
            && t.shown[|s.shown|].served.listing.fetch.items == Visible(s.daemon, now)
            && t.watch.Idle?
  {
    hide Visible, ValidSnapshot;
    var a, b, c := Step(Ticker, now), Step(WatchGet(call), now), Step(Read(call), now);
    var d, e := Step(Put(call), now), Step(Show, now);
    var t1 := Apply(s, a);
    var t2 := Apply(t1, b);
    var t3 := Apply(t2, c);
    var t4 := Apply(t3, d);
    t := Apply(t4, e);
    SingleStep(s, a);
    hide Enabled, Apply, Feasible, After;
    Append(s, [a], b);
    Append(s, [a] + [b], c);
    Append(s, [a] + [b] + [c], d);
    Append(s, [a] + [b] + [c] + [d], e);
  }

  /** An event does so whatever is cached. */
  lemma EventShowsDaemon(s: State, call: nat, now: int) returns (t: State)
    requires s.now <= now && s.watch.Idle? && call !in s.calls && ValidSnapshot(s.daemon)
    ensures var run := [Step(DockerEvent, now)] + [Step(WatchGet(call), now)] + [Step(Read(call), now)]
                       + [Step(Put(call), now)] + [Step(Show, now)];
            && Feasible(s, run) && t == After(s, run)
            && |t.shown| == |s.shown| + 1
            && t.shown[|s.shown|].served.listing.fetch.items == Visible(s.daemon, now)
            && t.watch.Idle?
  {
    hide Visible, ValidSnapshot;
    var a, b, c := Step(DockerEvent, now), Step(WatchGet(call), now), Step(Read(call), now);
    var d, e := Step(Put(call), now), Step(Show, now);
    var t1 := Apply(s, a);
    var t2 := Apply(t1, b);
    var t3 := Apply(t2, c);
    var t4 := Apply(t3, d);
    t := Apply(t4, e);
    SingleStep(s, a);
    hide Enabled, Apply, Feasible, After;
    Append(s, [a], b);
    Append(s, [a] + [b], c);
    Append(s, [a] + [b] + [c], d);
    Append(s, [a] + [b] + [c] + [d], e);
  }

  /** A daemon that fails ends the call, and the watcher is idle again with nothing shown. */
  lemma FailureShowsNothing(s: State, call: nat, now: int) returns (t: State)
    requires s.now <= now && s.watch.Idle? && call !in s.calls && CachedListing(s, now) == None
    ensures var run := [Step(Ticker, now)] + [Step(WatchGet(call), now)] + [Step(Fail(call), now)];
            && Feasible(s, run) && t == After(s, run)
            && t.watch.Idle? && t.calls == s.calls && t.cache == s.cache
            && t.served == s.served && t.shown == s.shown
  {
    hide Visible, ValidSnapshot;
    var t1 := Apply(s, Step(Ticker, now));
    var t2 := Apply(t1, Step(WatchGet(call), now));
    t := Apply(t2, Step(Fail(call), now));
    assert t.calls == s.calls;
    SingleStep(s, Step(Ticker, now));
    hide Enabled, Apply, Feasible, After;
    Append(s, [Step(Ticker, now)], Step(WatchGet(call), now));
    Append(s, [Step(Ticker, now)] + [Step(WatchGet(call), now)], Step(Fail(call), now));
  }

  /** A sweep leaves nothing expired, and no later List call answers differently for it. */
  lemma SweepIsHarmless(s: State, now: int, later: int)
    requires s.now <= now <= later
    ensures var t := Apply(s, Step(Expire, now));
            && (forall k | k in t.cache :: now <= t.cache[k].expiresAt)
            && CachedListing(t, later) == CachedListing(s, later)
  {
  }

  /** Other users of the cache store under their own keys; invalidating one key takes just that entry. */
  lemma OtherKeys(s: State, key: string, now: int)
    requires s.now <= now
    ensures key != CACHE_KEY ==>
              var t := Apply(s, Step(PutOther(key), now));
              && key in t.cache && t.cache[key].expiresAt == now + s.ttl
              && t.cache - {key} == s.cache - {key} && CachedListing(t, now) == CachedListing(s, now)
    ensures Apply(s, Step(Forget(key), now)).cache == s.cache - {key}
  {
  }

  // ---------- The overlap ----------

  /** What the Put of such a call stores and serves right after the event. */
  function StaleListing(s: State, call: nat, now: int): Listing
    requires call in s.calls && s.calls[call].Fetched?
  {
    Listing(s.calls[call].fetch, Tick(s) + 1, now)
  }

  lemma PutAfterEvent(s: State, a: Step, call: nat) returns (t: State)
    requires Enabled(s, a) && a.action.DockerEvent? && call in s.calls && s.calls[call].Fetched?
    ensures Enabled(Apply(s, a), Step(Put(call), a.now)) && t == Apply(Apply(s, a), Step(Put(call), a.now))
    ensures var l := StaleListing(s, call, a.now);
            && t.cache == map[CACHE_KEY := Entry(Listed(l), a.now + s.ttl)]
            && t.served == s.served + [Served(l, Tick(s) + 1, a.now)]
            && t.watch == Wants(Tick(s)) && t.shown == s.shown && t.now == a.now && Tick(t) == Tick(s) + 2
            && call !in t.calls
  {
    t := Apply(Apply(s, a), Step(Put(call), a.now));
  }

  /** The watcher's own turn after that: it finds the stale list in the cache and shows it. */
  lemma WatcherAfterPut(t: State, call: nat, l: Listing) returns (u: State)
    requires t.watch.Wants? && call !in t.calls && CachedListing(t, t.now) == Some(l)
    ensures var get, show := Step(WatchGet(call), t.now), Step(Show, t.now);
            && Enabled(t, get) && Enabled(Apply(t, get), show) && u == Apply(Apply(t, get), show)
    ensures u.shown == t.shown + [Shown(Served(l, Tick(t), t.now), Tick(t) + 1)]
  {
    var t1 := Apply(t, Step(WatchGet(call), t.now));
    assert t1.served[|t.served|] == Served(l, Tick(t), t.now);
    u := Apply(t1, Step(Show, t.now));
  }

  lemma SingleStep(s: State, a: Step)
    requires Enabled(s, a)
    ensures Feasible(s, [a]) && After(s, [a]) == Apply(s, a)
  {
    hide Enabled, Apply;
    assert [a][1..] == [];
    assert After(Apply(s, a), []) == Apply(s, a);
  }

  /** In any reachable state, a List call that has read the daemon can serve its stale list right after the event. */
  lemma OverlapServesStale(s: State, a: Step, call: nat)
    requires Inv(s) && Enabled(s, a) && a.action.DockerEvent? && call in s.calls && s.calls[call].Fetched?
    ensures var t, run := Apply(s, a), [Step(Put(call), a.now)];
            && Feasible(t, run)
            && Served(StaleListing(s, call, a.now), Tick(s) + 1, a.now) in After(t, run).served
            && !ServesFresh(After(t, run), Tick(s))
  {
    hide Inv, Enabled, Apply, Feasible, After;
    var u := PutAfterEvent(s, a, call);
    SingleStep(Apply(s, a), Step(Put(call), a.now));
    ReadInThePast(s, call);
    assert u.served[|s.served|] in u.served;
  }

  function OverlapRun(call: nat, now: int): seq<Step> {
    [Step(Put(call), now)] + [Step(WatchGet(call), now)] + [Step(Show, now)]
  }

  /** And unless the time to live is negative, the watcher can then broadcast it as its answer to the event. */
  lemma OverlapShowsStale(s: State, a: Step, call: nat)
    requires Inv(s) && Enabled(s, a) && a.action.DockerEvent? && call in s.calls && s.calls[call].Fetched?
    requires s.ttl >= 0
    ensures var t, run, l := Apply(s, a), OverlapRun(call, a.now), StaleListing(s, call, a.now);
            && Feasible(t, run)
            && After(t, run).shown == s.shown + [Shown(Served(l, Tick(s) + 2, a.now), Tick(s) + 3)]
            && !ShowsFresh(After(t, run), Tick(s))
  {
    hide Inv, Enabled, Apply, Feasible, After;
    var t := Apply(s, a);
    var u := PutAfterEvent(s, a, call);
    var v := WatcherAfterPut(u, call, StaleListing(s, call, a.now));
    SingleStep(t, Step(Put(call), a.now));
    Append(t, [Step(Put(call), a.now)], Step(WatchGet(call), a.now));
    Append(t, [Step(Put(call), a.now)] + [Step(WatchGet(call), a.now)], Step(Show, a.now));
    ReadInThePast(s, call);
    assert v.shown[|s.shown|] in v.shown;
  }

  lemma ReadInThePast(s: State, call: nat)
    requires Inv(s) && call in s.calls && s.calls[call].Fetched?
    ensures s.calls[call].fetch.readAt < Tick(s)
  {
    assert CallWell(s, s.calls[call]);
  }

  // ---------- Exactly when ----------

  ghost predicate AlwaysServesFresh(s: State, k: nat) {
    forall run | Feasible(s, run) :: ServesFresh(After(s, run), k)
  }

  ghost predicate AlwaysShowsFresh(s: State, k: nat) {
    forall run | Feasible(s, run) :: ShowsFresh(After(s, run), k)
  }

  /**
   In every continuation every list served after a Docker event was read after it, if and only
   if no List call that has read the daemon was in flight when the event was handled.
   */
  lemma ServedFreshIff(s: State, a: Step)
    requires Inv(s) && Enabled(s, a) && a.action.DockerEvent?
    ensures AlwaysServesFresh(Apply(s, a), Tick(s)) <==> NoneFetched(s)
  {
    hide Feasible, After, Settled, ServesFresh, Inv;
    var t := Apply(s, a);
    EventSettles(s, a);
    if NoneFetched(s) {
      forall run | Feasible(t, run) ensures ServesFresh(After(t, run), Tick(s)) { ServedRun(t, run, Tick(s)); }
    } else {
      var call :| call in s.calls && s.calls[call].Fetched?;
      OverlapServesStale(s, a, call);
    }
  }

  /** The same of every list broadcast, where a negative time to live also suffices. */
  lemma ShownFreshIff(s: State, a: Step)
    requires Inv(s) && Enabled(s, a) && a.action.DockerEvent?
    ensures AlwaysShowsFresh(Apply(s, a), Tick(s)) <==> s.ttl < 0 || NoneFetched(s)
  {
    hide Feasible, After, WatcherSettled, ShowsFresh, Inv;
    var t := Apply(s, a);
    EventSettles(s, a);
    StepInv(s, a);
    if s.ttl < 0 || NoneFetched(s) {
      forall run | Feasible(t, run) ensures ShowsFresh(After(t, run), Tick(s)) { WatcherRun(t, run, Tick(s)); }
    } else {
      var call :| call in s.calls && s.calls[call].Fetched?;
      OverlapShowsStale(s, a, call);
    }
  }

  /**
   Over whole runs: if no List call has read the daemon and not yet stored its answer when a
   Docker event is handled, everything broadcast after it, up to the end of any run, shows the
   daemon as it was read and stored after the event.
   */
  lemma BroadcastsAreFresh(ttl: int, start: int, run: seq<Step>, k: nat, b: Shown)
    requires Feasible(Init(ttl, start), run)
    requires k < |run| && run[k].action.DockerEvent?
    requires Feasible(Init(ttl, start), run[..k])
    requires ttl < 0 || NoneFetched(Reached(ttl, start, run[..k]))
    requires b in Reached(ttl, start, run).shown && b.at > k
    ensures k < b.served.listing.fetch.readAt < b.served.listing.setAt <= b.served.at
  {
    hide Feasible, After, Visible, CallWell, EntryWell, WatcherSettled;
    var s0 := Init(ttl, start);
    RunSplit(s0, run, k);
    var s := After(s0, run[..k]);
    RunInv(s0, run[..k]);
    TtlFixed(s0, run[..k]);
    RunSplit(s, run[k..], 1);
    assert run[k..][..1] == [run[k]];
    OneStep(s, run[k]);
    EventSettles(s, run[k]);
    StepInv(s, run[k]);
    WatcherRun(Apply(s, run[k]), run[k..][1..], k);
    RunInv(s0, run);
    assert ServedWell(Reached(ttl, start, run), b.served);
  }

  /**
   Such an overlap is reachable for any two daemon states: a List call has read the first one
   and not yet stored it, the daemon is in the second one, and the watcher is idle.
   */
  lemma OverlapIsReachable(ttl: int, now: int, before: seq<ApiContainer>, after: seq<ApiContainer>) returns (s: State)
    requires ValidSnapshot(before) && ValidSnapshot(after)
    ensures var run := [Step(Change(before), now), Step(Action.Get(0), now), Step(Read(0), now),
                        Step(Change(after), now)];
            Feasible(Init(ttl, now), run) && s == Reached(ttl, now, run)
    ensures s.daemon == after && s.watch.Idle? && s.calls == map[0 := Fetched(Fetch(Visible(before, now), 1, 2, now))]
  {
    hide Visible, ValidSnapshot;
    var r := [Step(Change(before), now), Step(Action.Get(0), now), Step(Read(0), now), Step(Change(after), now)];
    var s0 := Init(ttl, now);
    var s1 := Apply(s0, r[0]);
    var s2 := Apply(s1, r[1]);
    var s3 := Apply(s2, r[2]);
    s := Apply(s3, r[3]);
    Append(s0, [], r[0]);
    Append(s0, [] + [r[0]], r[1]);
    Append(s0, [] + [r[0]] + [r[1]], r[2]);
    Append(s0, [] + [r[0]] + [r[1]] + [r[2]], r[3]);
    assert r == [] + [r[0]] + [r[1]] + [r[2]] + [r[3]];
  }
}
