/**
 The whole way from a Docker event to a browser: the List calls, the watcher and the broker
 composed, every interleaving of their steps.
 */
module Pipeline {
  import opened Text
  import Caching
  import opened Models
  import opened Grouping
  import opened Containers
  import opened EventStream
  import opened Broker
  import opened Watcher
  import S = ServiceRuns
  import B = BrokerRuns
  import C = CarriageReturns

  type Template = seq<ContainerGroup> -> Option<string>

  /** A Docker event, by the service step at which the watcher woke up for it. */
  datatype Handled = Handled(msg: DockerMessage, woke: nat)

  /** History: what a broadcast was for, and the step at which the watcher had woken up. */
  datatype Origin = Page(shown: S.Shown, woke: nat) | Targeted(msg: DockerMessage, woke: nat)

  datatype State = State(
    service: S.State,
    broker: B.State,
    // the event whose targeted update the watcher has not yet broadcast
    pending: Option<Handled>,
    // history: the events handled, and the origin of each message of the broker's log
    handled: set<Handled>,
    source: seq<Origin>)

  datatype Step =
    | Service(inner: S.Step)
    | Wake(event: Option<DockerMessage>, now: int)
    | Publish(groups: seq<ContainerGroup>, page: string, now: int)
    | RenderFails(groups: seq<ContainerGroup>, now: int)
    | Update(msg: DockerMessage)
    | Client(step: B.Step)

  function Init(ttl: int, start: int, retryMs: int): State {
    State(S.Init(ttl, start), B.Init(retryMs), None, {}, [])
  }

  predicate Initial(s: State) { s == Init(s.service.ttl, s.service.now, s.broker.retryMs) }

  /** The listing that the watcher is about to render. */
  function Held(s: S.State): S.Served
    requires s.watch.Has? && s.watch.index < |s.served|
  {
    s.served[s.watch.index]
  }

  ghost predicate HoldsGrouping(s: S.State, groups: seq<ContainerGroup>) {
    s.watch.Has? && s.watch.index < |s.served| && IsGrouping(Held(s).listing.fetch.items, groups)
  }

  /** What the step does to the service, if anything. */
  function ServiceStep(a: Step): seq<S.Step> {
    match a
    case Service(inner) => [inner]
    case Wake(Some(_), now) => [S.Step(S.DockerEvent, now)]
    case Wake(None, now) => [S.Step(S.Ticker, now)]
    case Publish(_, _, now) => [S.Step(S.Show, now)]
    case RenderFails(_, now) => [S.Step(S.Abandon, now)]
    case Update(_) => []
    case Client(_) => []
  }

  /** What the step does to the broker, if anything. */
  function BrokerStep(a: Step): seq<B.Step> {
    match a
    case Publish(_, page, _) => [B.Begin(Event(CONTAINERS_EVENT, page))]
    case Update(msg) => [B.Begin(Event(UPDATE_EVENT, UpdatePayload(msg)))]
    case Client(step) => [step]
    case _ => []
  }

  /** Steps that only the watcher takes are taken with it; it broadcasts alone, and to the end, before it goes on. */
  ghost predicate Enabled(render: Template, s: State, a: Step) {
    && !s.broker.panicked
    && (ServiceStep(a) != [] ==> S.Enabled(s.service, ServiceStep(a)[0]))
    && (BrokerStep(a) != [] ==> B.Enabled(s.broker, BrokerStep(a)[0]))
    && match a
       case Service(inner) =>
         !inner.action.DockerEvent? && !inner.action.Ticker? && !inner.action.Show? && !inner.action.Abandon?
       case Wake(_, _) => s.pending.None? && !s.broker.lock.Broadcasting?
       case Publish(groups, page, _) => HoldsGrouping(s.service, groups) && render(groups) == Some(page)
       case RenderFails(groups, _) => HoldsGrouping(s.service, groups) && render(groups) == None
       case Update(msg) => s.pending.Some? && s.pending.value.msg == msg && s.service.watch.Idle?
       case Client(step) => !step.Begin?
  }

  function Pending(s: State, a: Step): Option<Handled> {
    match a
    case Wake(Some(msg), _) => if msg.actorID == "" then None else Some(Handled(msg, S.Tick(s.service)))
    case Update(_) => None
    case _ => s.pending
  }

  function HandledAfter(s: State, a: Step): set<Handled> {
    match a
    case Wake(Some(msg), _) => s.handled + {Handled(msg, S.Tick(s.service))}
    case _ => s.handled
  }

  function Source(s: State, a: Step): seq<Origin>
    requires a.Publish? ==> s.service.watch.Has? && s.service.watch.index < |s.service.served|
    requires a.Update? ==> s.pending.Some?
  {
    match a
    case Publish(_, _, _) =>
      s.source + [Page(S.Shown(Held(s.service), S.Tick(s.service)), s.service.watch.since)]
    case Update(msg) => s.source + [Targeted(msg, s.pending.value.woke)]
    case _ => s.source
  }

  ghost function Apply(render: Template, s: State, a: Step): State
    requires Enabled(render, s, a)
  {
    State(
      if ServiceStep(a) == [] then s.service else S.Apply(s.service, ServiceStep(a)[0]),
      if BrokerStep(a) == [] then s.broker else B.Apply(s.broker, BrokerStep(a)[0]),
      Pending(s, a),
      HandledAfter(s, a),
      Source(s, a))
  }

  ghost predicate Feasible(render: Template, s: State, run: seq<Step>)
    decreases |run|
  {
    run == [] || (Enabled(render, s, run[0]) && Feasible(render, Apply(render, s, run[0]), run[1..]))
  }

  ghost function After(render: Template, s: State, run: seq<Step>): State
    requires Feasible(render, s, run)
    decreases |run|
  {
    if run == [] then s else After(render, Apply(render, s, run[0]), run[1..])
  }

  // ---------- Each component takes a run of its own ----------

  function ServiceRun(run: seq<Step>): seq<S.Step> {
    if run == [] then [] else ServiceStep(run[0]) + ServiceRun(run[1..])
  }

  function BrokerRun(run: seq<Step>): seq<B.Step> {
    if run == [] then [] else BrokerStep(run[0]) + BrokerRun(run[1..])
  }

  lemma {:induction false} ServiceProjection(render: Template, s: State, run: seq<Step>)
    requires Feasible(render, s, run)
    ensures S.Feasible(s.service, ServiceRun(run))
    ensures S.After(s.service, ServiceRun(run)) == After(render, s, run).service
    decreases |run|
  {
    hide S.Enabled, S.Apply, B.Enabled, B.Apply;
    if run != [] {
      var a, t := run[0], Apply(render, s, run[0]);
      ServiceProjection(render, t, run[1..]);
      assert ServiceStep(a) == [] ==> ServiceRun(run) == ServiceRun(run[1..]);
      assert ServiceStep(a) != [] ==> ServiceRun(run)[1..] == ServiceRun(run[1..]);
    }
  }

  lemma {:induction false} BrokerProjection(render: Template, s: State, run: seq<Step>)
    requires Feasible(render, s, run)
    ensures B.Feasible(s.broker, BrokerRun(run))
    ensures B.After(s.broker, BrokerRun(run)) == After(render, s, run).broker
    decreases |run|
  {
    hide S.Enabled, S.Apply, B.Enabled, B.Apply;
    if run != [] {
      var a, t := run[0], Apply(render, s, run[0]);
      BrokerProjection(render, t, run[1..]);
      assert BrokerStep(a) == [] ==> BrokerRun(run) == BrokerRun(run[1..]);
      assert BrokerStep(a) != [] ==> BrokerRun(run)[1..] == BrokerRun(run[1..]);
    }
  }

  // ---------- What a message of the log is ----------

  /** The message is a page for a grouping of this listing. */
  ghost predicate PageOf(render: Template, b: S.Shown, m: Event) {
    && m.name == CONTAINERS_EVENT
    && exists groups :: IsGrouping(b.served.listing.fetch.items, groups) && render(groups) == Some(m.data)
  }

  /** A page of a list served after the watcher woke up; or the update of an event that names a container. */
  ghost predicate Explained(render: Template, s: State, o: Origin, m: Event) {
    match o
    case Page(b, woke) => b in s.service.shown && woke < b.served.at && PageOf(render, b, m)
    case Targeted(msg, woke) =>
      && Handled(msg, woke) in s.handled && msg.actorID != ""
      && m == Event(UPDATE_EVENT, UpdatePayload(msg))
  }

  ghost predicate Linked(render: Template, s: State) {
    && |s.source| == |s.broker.log|
    && forall i | 0 <= i < |s.source| :: Explained(render, s, s.source[i], s.broker.log[i])
  }

  /** Later wake-ups come later, and the page of a wake-up comes before its update. */
  function Order(o: Origin): nat { 2 * o.woke + if o.Page? then 0 else 1 }

  /** Everything broadcast so far comes before this. */
  function Bound(s: State): nat {
    if !s.service.watch.Idle? then 2 * s.service.watch.since
    else if s.pending.Some? then 2 * s.pending.value.woke + 1
    else 2 * S.Tick(s.service)
  }

  ghost predicate Ordered(s: State) {
    && (forall i, j | 0 <= i < j < |s.source| :: Order(s.source[i]) < Order(s.source[j]))
    && (forall i | 0 <= i < |s.source| :: Order(s.source[i]) < Bound(s))
  }

  /** What the watcher is doing fits the event whose update is pending. */
  ghost predicate InStep(s: State) {
    && (s.pending.Some? ==> s.pending.value in s.handled && s.pending.value.msg.actorID != ""
                            && s.pending.value.woke < S.Tick(s.service))
    && (!s.service.watch.Idle? ==> s.service.watch.since < S.Tick(s.service))
    && (s.service.watch.Has? ==> s.service.watch.index < |s.service.served|
                                 && s.service.watch.since < Held(s.service).at)
    && (s.pending.Some? && !s.service.watch.Idle? ==> s.service.watch.since == s.pending.value.woke)
    && (forall h | h in s.handled :: h.woke in s.service.invalidated)
    && (forall g, h | g in s.handled && h in s.handled && g.woke == h.woke :: g == h)
    && (forall i | i in s.service.invalidated :: i < S.Tick(s.service))
  }

  lemma LogGrows(s: B.State, a: B.Step)
    requires B.Enabled(s, a)
    ensures B.Apply(s, a).log == s.log + (if a.Begin? then [a.msg] else [])
  {
    hide Frame;
  }

  lemma ShownGrows(s: S.State, a: S.Step)
    requires S.Enabled(s, a)
    ensures S.Apply(s, a).shown == s.shown + (if a.action.Show? then [S.Shown(Held(s), S.Tick(s))] else [])
    ensures S.Tick(S.Apply(s, a)) == S.Tick(s) + 1
  {
    hide Visible, ValidSnapshot, S.Act;
    S.ShownOrigin(s, a);
  }

  /** Unless the watcher wakes up, it goes on with the same wake-up or becomes idle. */
  lemma WatchMoves(s: S.State, a: S.Step)
    requires S.Enabled(s, a) && !a.action.DockerEvent? && !a.action.Ticker?
    ensures var t := S.Apply(s, a);
            t.watch.Idle? || (!s.watch.Idle? && t.watch.since == s.watch.since)
  {
    hide Visible, ValidSnapshot, S.CachedListing, Caching.Lookup, Caching.Swept, Caching.WithEntry;
  }

  /** The list the watcher holds is the one it held, or has just been served. */
  lemma HeldMoves(s: S.State, a: S.Step)
    requires S.Enabled(s, a) && S.Apply(s, a).watch.Has?
    ensures var t := S.Apply(s, a);
            || t.watch == s.watch
            || (t.watch.index == |s.served| < |t.served| && t.served[|s.served|].at == S.Tick(s))
  {
    hide Visible, ValidSnapshot, S.CachedListing, Caching.Lookup, Caching.Swept, Caching.WithEntry;
  }

  lemma StepShown(render: Template, s: State, a: Step)
    requires Enabled(render, s, a)
    ensures Apply(render, s, a).service.shown
         == s.service.shown + (if a.Publish? then [S.Shown(Held(s.service), S.Tick(s.service))] else [])
  {
    hide S.Enabled, S.Apply, B.Enabled, B.Apply, HoldsGrouping;
    if ServiceStep(a) != [] { ShownGrows(s.service, ServiceStep(a)[0]); }
  }

  lemma StepLog(render: Template, s: State, a: Step)
    requires Enabled(render, s, a)
    ensures Apply(render, s, a).broker.log
         == s.broker.log + (if a.Publish? then [Event(CONTAINERS_EVENT, a.page)]
                            else if a.Update? then [Event(UPDATE_EVENT, UpdatePayload(a.msg))] else [])
  {
    hide S.Enabled, S.Apply, B.Enabled, B.Apply, HoldsGrouping;
    if BrokerStep(a) != [] { LogGrows(s.broker, BrokerStep(a)[0]); }
  }

  /** A message already in the log keeps its explanation. */
  lemma StillExplained(render: Template, s: State, t: State, o: Origin, m: Event)
    requires Explained(render, s, o, m)
    requires s.handled <= t.handled && forall b | b in s.service.shown :: b in t.service.shown
    ensures Explained(render, t, o, m)
  {
    hide PageOf;
  }

  lemma NewExplained(render: Template, s: State, a: Step)
    requires Enabled(render, s, a) && InStep(s) && |s.source| == |s.broker.log| && (a.Publish? || a.Update?)
    ensures var t := Apply(render, s, a);
            && |t.source| == |t.broker.log| == |s.source| + 1
            && Explained(render, t, t.source[|s.source|], t.broker.log[|s.source|])
  {
    hide S.Enabled, S.Apply, B.Enabled, B.Apply, UpdatePayload;
    StepShown(render, s, a);
    StepLog(render, s, a);
  }

  lemma StepLinked(render: Template, s: State, a: Step)
    requires Enabled(render, s, a) && Linked(render, s) && InStep(s)
    ensures Linked(render, Apply(render, s, a))
  {
    hide S.Enabled, S.Apply, B.Enabled, B.Apply, Explained, InStep, UpdatePayload;
    var t := Apply(render, s, a);
    StepShown(render, s, a);
    StepLog(render, s, a);
    forall i | 0 <= i < |t.source| ensures Explained(render, t, t.source[i], t.broker.log[i]) {
      if i < |s.source| {
        StillExplained(render, s, t, s.source[i], s.broker.log[i]);
      } else {
        NewExplained(render, s, a);
      }
    }
  }

  /** A wake-up: the watcher was idle and nothing was pending. */
  lemma WakeInStep(render: Template, s: State, a: Step)
    requires Enabled(render, s, a) && InStep(s) && Ordered(s) && a.Wake?
    ensures InStep(Apply(render, s, a)) && Ordered(Apply(render, s, a))
  {
    hide Visible, ValidSnapshot, B.Enabled, B.Apply, UpdatePayload;
  }

  /** What a step that is not a wake-up does to the watcher and to what is pending. */
  lemma QuietStep(render: Template, s: State, a: Step)
    requires Enabled(render, s, a) && !a.Wake?
    ensures var t := Apply(render, s, a);
            && s.service.served <= t.service.served
            && (t.service.watch.Idle? || (!s.service.watch.Idle? && t.service.watch.since == s.service.watch.since))
            && (t.service.watch.Has? ==>
                  || t.service.watch == s.service.watch
                  || (t.service.watch.index == |s.service.served| < |t.service.served|
                      && t.service.served[|s.service.served|].at == S.Tick(s.service)))
            && t.service.invalidated == s.service.invalidated
            && S.Tick(s.service) <= S.Tick(t.service) && t.handled == s.handled
            && t.pending == (if a.Update? then None else s.pending)
            && (a.Publish? ==> S.Tick(t.service) == S.Tick(s.service) + 1 && t.service.watch.Idle?)
            && (a.Update? ==> t.service == s.service)
  {
    hide Visible, ValidSnapshot, S.Enabled, S.Apply, B.Enabled, B.Apply, UpdatePayload, HoldsGrouping;
    if ServiceStep(a) != [] {
      WatchMoves(s.service, ServiceStep(a)[0]);
      S.ServedGrows(s.service, ServiceStep(a)[0]);
      if S.Apply(s.service, ServiceStep(a)[0]).watch.Has? { HeldMoves(s.service, ServiceStep(a)[0]); }
      ShownGrows(s.service, ServiceStep(a)[0]);
      S.NewInvalidation(s.service, ServiceStep(a)[0]);
    }
    if a.Publish? { ShowEndsTurn(s.service, ServiceStep(a)[0]); }
  }

  lemma ShowEndsTurn(s: S.State, a: S.Step)
    requires S.Enabled(s, a) && a.action.Show?
    ensures S.Apply(s, a).watch.Idle?
  {
  }

  lemma QuietInStep(render: Template, s: State, a: Step)
    requires Enabled(render, s, a) && InStep(s) && Ordered(s) && !a.Wake?
    ensures InStep(Apply(render, s, a)) && Ordered(Apply(render, s, a))
  {
    hide S.Enabled, S.Apply, B.Enabled, B.Apply, UpdatePayload;
    QuietStep(render, s, a);
    var t := Apply(render, s, a);
    assert t.source == s.source || (|t.source| == |s.source| + 1 && s.source <= t.source);
    assert Bound(s) <= Bound(t);
  }

  lemma {:induction false} RunLinked(render: Template, s: State, run: seq<Step>)
    requires Feasible(render, s, run) && Linked(render, s) && InStep(s) && Ordered(s)
    ensures var t := After(render, s, run); Linked(render, t) && InStep(t) && Ordered(t)
    decreases |run|
  {
    hide Enabled, Apply, Linked, InStep, Ordered;
    if run != [] {
      StepLinked(render, s, run[0]);
      if run[0].Wake? { WakeInStep(render, s, run[0]); } else { QuietInStep(render, s, run[0]); }
      RunLinked(render, Apply(render, s, run[0]), run[1..]);
    }
  }

  // ---------- Main results ----------

  /** The listing shows the daemon as it was at one single step after step k. */
  ghost predicate ReadAfter(s: S.State, k: int, b: S.Shown) {
    var f := b.served.listing.fetch;
    && b in s.shown
    && k < f.readAt < |s.past| && ValidSnapshot(s.past[f.readAt])
    && f.items == Visible(s.past[f.readAt], f.readTime)
  }

  /**
   A decoded event and what it was broadcast for: the page for a grouping of the daemon's visible
   containers at one step after step k, or the update of a handled Docker event that names a
   container. Only the CRs of the page or payload may be missing.
   */
  ghost predicate Faithful(render: Template, s: State, k: int, o: Origin, e: Event) {
    exists m :: FaithfulTo(render, s, k, o, m, e)
  }

  ghost predicate FaithfulTo(render: Template, s: State, k: int, o: Origin, m: Event, e: Event) {
    && Explained(render, s, o, m)
    && (o.Page? ==> ReadAfter(s.service, k, o.shown))
    && e == Event(m.name, C.StripCR(m.data))
  }

  lemma ShownIsRead(s: S.State, b: S.Shown)
    requires S.Inv(s) && b in s.shown
    ensures ReadAfter(s, -1, b)
  {
    hide Visible, ValidSnapshot;
    assert S.ServedWell(s, b.served);
  }

  lemma ShownIsFresh(s: S.State, k: nat, b: S.Shown)
    requires S.Inv(s) && S.ShowsFresh(s, k) && b in s.shown && k < b.at
    ensures ReadAfter(s, k, b)
  {
    hide Visible, ValidSnapshot;
    assert S.ServedWell(s, b.served);
  }

  /** Every list in the log from position n on was shown after step k of the service. */
  ghost predicate ShownAfter(s: State, n: nat, k: nat) {
    && k < S.Tick(s.service)
    && forall i | n <= i < |s.source| && s.source[i].Page? :: k < s.source[i].shown.at
  }

  lemma {:induction false} ShownAfterRun(render: Template, s: State, run: seq<Step>, n: nat, k: nat)
    requires Feasible(render, s, run) && ShownAfter(s, n, k)
    ensures ShownAfter(After(render, s, run), n, k)
    decreases |run|
  {
    hide S.Enabled, S.Apply, B.Enabled, B.Apply, HoldsGrouping;
    if run != [] {
      if ServiceStep(run[0]) != [] { ShownGrows(s.service, ServiceStep(run[0])[0]); }
      ShownAfterRun(render, Apply(render, s, run[0]), run[1..], n, k);
    }
  }

  lemma {:induction false} Split(render: Template, s: State, before: seq<Step>, rest: seq<Step>)
    requires Feasible(render, s, before + rest)
    ensures Feasible(render, s, before) && Feasible(render, After(render, s, before), rest)
    ensures After(render, s, before + rest) == After(render, After(render, s, before), rest)
    decreases |before|
  {
    hide Enabled, Apply;
    if before == [] {
      assert before + rest == rest;
    } else {
      assert (before + rest)[1..] == before[1..] + rest;
      Split(render, Apply(render, s, before[0]), before[1..], rest);
    }
  }

  /** The invariants of both components, and the link between them, in every reachable state. */
  lemma ReachedInv(render: Template, s0: State, run: seq<Step>)
    requires Initial(s0) && Feasible(render, s0, run)
    ensures var s := After(render, s0, run);
            S.Inv(s.service) && B.Inv(s.broker) && Linked(render, s) && InStep(s) && Ordered(s)
  {
    hide Feasible, After, S.Feasible, S.After, B.Feasible, B.After;
    ServiceProjection(render, s0, run);
    BrokerProjection(render, s0, run);
    S.RunInv(s0.service, ServiceRun(run));
    B.InitInv(s0.broker.retryMs);
    B.RunInv(s0.broker, BrokerRun(run));
    RunLinked(render, s0, run);
  }

  /** After a Docker event that found no List call with the daemon's answer in hand. */
  lemma FreshAfterEvent(render: Template, s0: State, before: seq<Step>, msg: DockerMessage, now: int, rest: seq<Step>)
    requires Initial(s0) && Feasible(render, s0, before + ([Wake(Some(msg), now)] + rest))
    requires Feasible(render, s0, before)
    requires var s := After(render, s0, before); s.service.ttl < 0 || S.NoneFetched(s.service)
    ensures var s := After(render, s0, before);
            var t := After(render, s0, before + ([Wake(Some(msg), now)] + rest));
            && S.ShowsFresh(t.service, S.Tick(s.service))
            && ShownAfter(t, |s.broker.log|, S.Tick(s.service))
  {
    hide S.Inv, S.WatcherSettled, S.ShowsFresh, S.NoneFetched, S.Enabled, S.Apply, S.Feasible, S.After,
         B.Inv, B.Enabled, B.Apply;
    var wake := Wake(Some(msg), now);
    Split(render, s0, before, [wake] + rest);
    ReachedInv(render, s0, before);
    var s := After(render, s0, before);
    var t := Apply(render, s, wake);
    var k := S.Tick(s.service);
    assert ([wake] + rest)[1..] == rest;
    S.EventSettles(s.service, S.Step(S.DockerEvent, now));
    S.StepInv(s.service, S.Step(S.DockerEvent, now));
    ShownGrows(s.service, S.Step(S.DockerEvent, now));
    ServiceProjection(render, t, rest);
    S.WatcherRun(t.service, ServiceRun(rest), k);
    ShownAfterRun(render, t, rest, |s.broker.log|, k);
  }

  lemma LogFaithful(render: Template, s: State, i: nat)
    requires S.Inv(s.service) && Linked(render, s) && i < |s.broker.log|
    ensures Faithful(render, s, -1, s.source[i], C.Cleaned(s.broker.log)[i])
  {
    hide PageOf, ReadAfter, S.Inv, C.StripCR, Explained;
    assert Explained(render, s, s.source[i], s.broker.log[i]);
    if s.source[i].Page? {
      PageWasShown(render, s, s.source[i], s.broker.log[i]);
      ShownIsRead(s.service, s.source[i].shown);
    }
    assert FaithfulTo(render, s, -1, s.source[i], s.broker.log[i], C.Cleaned(s.broker.log)[i]);
  }

  lemma PageWasShown(render: Template, s: State, o: Origin, m: Event)
    requires Explained(render, s, o, m) && o.Page?
    ensures o.shown in s.service.shown
  {
  }

  lemma LogFresh(render: Template, s: State, i: nat, n: nat, k: nat)
    requires S.Inv(s.service) && Linked(render, s) && n <= i < |s.broker.log|
    requires S.ShowsFresh(s.service, k) && ShownAfter(s, n, k)
    ensures Faithful(render, s, k, s.source[i], C.Cleaned(s.broker.log)[i])
  {
    hide PageOf, ReadAfter, S.Inv, S.ShowsFresh, C.StripCR, Explained;
    assert Explained(render, s, s.source[i], s.broker.log[i]);
    if s.source[i].Page? {
      PageWasShown(render, s, s.source[i], s.broker.log[i]);
      ShownIsFresh(s.service, k, s.source[i].shown);
    }
    assert FaithfulTo(render, s, k, s.source[i], s.broker.log[i], C.Cleaned(s.broker.log)[i]);
  }

  lemma WatcherNames()
    ensures ProperName(CONTAINERS_EVENT) && ProperName(UPDATE_EVENT)
  {
  }

  lemma LogNames(render: Template, s: State)
    requires Linked(render, s)
    ensures forall m | m in s.broker.log :: ProperName(m.name)
  {
    hide ProperName, IsGrouping, Visible, UpdatePayload;
    WatcherNames();
    forall i | 0 <= i < |s.broker.log| ensures ProperName(s.broker.log[i].name) {
      assert Explained(render, s, s.source[i], s.broker.log[i]);
    }
  }

  /** The data of every message this client received arrives, as far as CRs are concerned. */
  ghost predicate Readable(s: B.State, id: nat)
    requires id in s.clients
  {
    var c := s.clients[id];
    c.received <= |B.Kept(c.offers)| ==> forall m | m in B.Received(c) :: C.Settled(m.data)
  }

  lemma ReceivedArrives(s: B.State, id: nat, at: seq<nat>)
    requires id in s.clients && s.clients[id].received <= |B.Kept(s.clients[id].offers)|
    requires 0 <= s.clients[id].since <= B.End(s, id) <= |s.log|
    requires B.PicksFrom(B.Received(s.clients[id]), B.Window(s, id), at)
    requires forall m | m in s.log :: ProperName(m.name)
    ensures Readable(s, id) <==> forall m | m in B.Received(s.clients[id]) :: C.Arrives(m)
  {
    hide ProperName, C.Settled, B.Kept;
    var received := B.Received(s.clients[id]);
    forall m | m in received ensures ProperName(m.name) {
      var i :| 0 <= i < |received| && received[i] == m;
      assert B.Window(s, id)[at[i]] in s.log;
    }
    assert forall m | m in received :: C.Arrives(m) <==> C.Settled(m.data);
  }

  /**
   A browser decodes exactly what its client received, merely without the CRs, if and only if
   the CRs in those messages are harmless; and these are messages of the log, in order, none
   of them from before the subscription.
   */
  lemma DecodedFromLog(render: Template, s0: State, run: seq<Step>, id: nat) returns (at: seq<nat>)
    requires Initial(s0) && Feasible(render, s0, run) && id in After(render, s0, run).broker.clients
    ensures var s := After(render, s0, run).broker;
            var c := s.clients[id];
            && c.received <= |B.Kept(c.offers)|
            && (Decode(c.written).events == C.Cleaned(B.Received(c)) <==> Readable(s, id))
            && B.PicksFrom(C.Cleaned(B.Received(c)), C.Cleaned(s.log), at)
            && (forall j | j in at :: c.since <= j)
            && (at != [] ==> !c.phase.Connected?)
  {
    hide Feasible, After, Decode, B.Feasible, B.After, B.Kept, B.Messages, B.Conserved, S.Inv, InStep, Ordered,
         ProperName, C.Arrives, C.StripCR, Readable;
    var s := After(render, s0, run).broker;
    ReachedInv(render, s0, run);
    BrokerProjection(render, s0, run);
    LogNames(render, After(render, s0, run));
    B.EndToEndCleaned(s0.broker.retryMs, BrokerRun(run), id);
    var c := s.clients[id];
    assert B.ChannelSafe(s, id);
    B.KeptNone();
    var inner :| B.PicksFrom(B.Received(c), B.Window(s, id), inner);
    ReceivedArrives(s, id, inner);
    at := PlacesInLog(s.log, c.since, B.End(s, id), B.Received(c), inner);
  }

  /** From positions in a part of the log to positions in the log. */
  lemma PlacesInLog(log: seq<Event>, lo: nat, hi: nat, x: seq<Event>, inner: seq<nat>) returns (at: seq<nat>)
    requires lo <= hi <= |log| && B.PicksFrom(x, log[lo..hi], inner)
    ensures |at| == |x| && B.PicksFrom(C.Cleaned(x), C.Cleaned(log), at) && forall j | j in at :: lo <= j
  {
    hide C.StripCR;
    at := seq(|inner|, j requires 0 <= j < |inner| => inner[j] + lo);
  }

  /** Event j comes from the broadcast at[j], and is faithful to step k if that is broadcast n or a later one. */
  ghost predicate Shows(render: Template, s: State, k: int, n: nat, at: seq<nat>, events: seq<Event>) {
    && |at| == |events|
    && (forall j | 0 <= j < |at| :: at[j] < |s.source|)
    && (forall j | 0 <= j < |at| && at[j] >= n :: Faithful(render, s, k, s.source[at[j]], events[j]))
    && (forall i, j | 0 <= i < j < |at| :: at[i] < at[j] && Order(s.source[at[i]]) < Order(s.source[at[j]]))
  }

  /**
   Whatever the interleaving, if the CRs in what this client received are harmless, everything
   its browser decodes is the page for a grouping of the daemon's visible containers at one
   single moment, or the update of a handled Docker event. Each wake-up of the watcher shows at
   most one page and one update, in this order, and never after those of a later one.
   */
  lemma BrowserShowsDaemon(render: Template, s0: State, run: seq<Step>, id: nat) returns (at: seq<nat>)
    requires Initial(s0) && Feasible(render, s0, run)
    requires var s := After(render, s0, run); id in s.broker.clients && Readable(s.broker, id)
    ensures var s := After(render, s0, run);
            var events := Decode(s.broker.clients[id].written).events;
            && Shows(render, s, -1, 0, at, events)
            && (forall g, h | g in s.handled && h in s.handled && g.woke == h.woke :: g == h)
  {
    hide Feasible, After, Decode, Faithful, S.Inv, B.Inv, B.Kept, Readable, C.StripCR, Explained;
    var s := After(render, s0, run);
    at := DecodedFromLog(render, s0, run, id);
    var events := Decode(s.broker.clients[id].written).events;
    ReachedInv(render, s0, run);
    forall j | 0 <= j < |at| ensures at[j] < |s.source| && Faithful(render, s, -1, s.source[at[j]], events[j]) {
      LogFaithful(render, s, at[j]);
    }
  }

  // ---------- No event is skipped ----------

  /** Every handled event that names a container has its update in the log, or still pending. */
  ghost predicate NoneSkipped(s: State) {
    forall h | h in s.handled && h.msg.actorID != "" ::
      s.pending == Some(h) || Targeted(h.msg, h.woke) in s.source
  }

  lemma StepSkipsNone(render: Template, s: State, a: Step)
    requires Enabled(render, s, a) && NoneSkipped(s)
    ensures NoneSkipped(Apply(render, s, a))
  {
    hide S.Enabled, S.Apply, B.Enabled, B.Apply, HoldsGrouping, UpdatePayload;
    var t := Apply(render, s, a);
    forall h | h in t.handled && h.msg.actorID != ""
      ensures t.pending == Some(h) || Targeted(h.msg, h.woke) in t.source
    {
      if h in s.handled && Targeted(h.msg, h.woke) in s.source {
        var i :| 0 <= i < |s.source| && s.source[i] == Targeted(h.msg, h.woke);
        assert t.source[i] == s.source[i];
      } else if a.Update? {
        assert t.source[|s.source|] == Targeted(h.msg, h.woke);
      }
    }
  }

  lemma {:induction false} RunSkipsNone(render: Template, s: State, run: seq<Step>)
    requires Feasible(render, s, run) && NoneSkipped(s)
    ensures NoneSkipped(After(render, s, run))
    decreases |run|
  {
    hide Enabled, Apply, NoneSkipped;
    if run != [] {
      StepSkipsNone(render, s, run[0]);
      RunSkipsNone(render, Apply(render, s, run[0]), run[1..]);
    }
  }

  /** Where the update of a handled event is in the log, once it is no longer pending. */
  lemma UpdateIsLogged(render: Template, s0: State, run: seq<Step>, h: Handled) returns (i: nat)
    requires Initial(s0) && Feasible(render, s0, run)
    requires var s := After(render, s0, run); h in s.handled && h.msg.actorID != "" && s.pending != Some(h)
    ensures var s := After(render, s0, run);
            && i < |s.source| == |s.broker.log| && s.source[i] == Targeted(h.msg, h.woke)
            && s.broker.log[i] == Event(UPDATE_EVENT, UpdatePayload(h.msg))
  {
    hide Feasible, After, S.Inv, B.Inv, InStep, Ordered, UpdatePayload, PageOf;
    RunSkipsNone(render, s0, run);
    ReachedInv(render, s0, run);
    var s := After(render, s0, run);
    i :| 0 <= i < |s.source| && s.source[i] == Targeted(h.msg, h.woke);
    assert Explained(render, s, s.source[i], s.broker.log[i]);
  }

  /** The decoded event carries the handled event's id and action, when both are free of quotes and CRs. */
  ghost predicate CarriesEvent(e: Event, msg: DockerMessage) {
    && e.name == "container-update"
    && ('"' !in msg.actorID && '"' !in msg.action && CR !in msg.actorID && CR !in msg.action ==>
          Text.Split(e.data, '"') == ["{", "id", ":", msg.actorID, ",", "action", ":", msg.action, "}"])
  }

  lemma PayloadIsCarried(msg: DockerMessage)
    ensures CarriesEvent(Event(UPDATE_EVENT, C.StripCR(UpdatePayload(msg))), msg)
  {
    if '"' !in msg.actorID && '"' !in msg.action && CR !in msg.actorID && CR !in msg.action {
      PayloadHasNoCR(msg);
      C.NoCRSettled(UpdatePayload(msg));
      PayloadReadsBack(msg);
    }
  }

  lemma PayloadHasNoCR(msg: DockerMessage)
    requires CR !in msg.actorID && CR !in msg.action
    ensures CR !in UpdatePayload(msg)
  {
    assert CR !in "{\"id\":\"" && CR !in "\",\"action\":\"" && CR !in "\"}";
  }

  /**
   No event is skipped: the update of every handled event that names a container is broadcast
   (or still pending); each client subscribed at that time and with a free slot gets it, and when
   it has drained its buffer its browser has decoded it, with the event's id and action. A client
   that is still reading is subscribed, unless it came later or Stop has taken the lock.
   */
  lemma UpdateDelivered(render: Template, s0: State, run: seq<Step>, h: Handled, id: nat) returns (i: nat)
    requires Initial(s0) && Feasible(render, s0, run)
    requires var s := After(render, s0, run);
             && h in s.handled && h.msg.actorID != "" && s.pending != Some(h)
             && id in s.broker.clients
    ensures var s := After(render, s0, run);
            var c, update := s.broker.clients[id], Event(UPDATE_EVENT, UpdatePayload(h.msg));
            && i < |s.source| == |s.broker.log| && s.source[i] == Targeted(h.msg, h.woke)
            && s.broker.log[i] == update
            && (c.since <= i && c.phase.Reading? && B.StopPending(s.broker) && s.broker.lock.Free? ==>
                  i < B.End(s.broker, id))
            && (c.since <= i < B.End(s.broker, id) ==>
                  && c.received <= |B.Kept(c.offers)|
                  && i - c.since < |c.offers| && c.offers[i - c.since].msg == update
                  && (c.offers[i - c.since].fill < 16 ==>
                        && update in B.Received(c) + B.Buffered(c)
                        && (c.buf == [] && Readable(s.broker, id) ==>
                              exists e | e in Decode(c.written).events :: CarriesEvent(e, h.msg))))
  {
    hide Feasible, After, Decode, B.Feasible, B.After, B.Kept, B.End, Readable, C.StripCR, UpdatePayload,
         CarriesEvent;
    i := UpdateIsLogged(render, s0, run, h);
    BrokerProjection(render, s0, run);
    var s := After(render, s0, run);
    var c, update := s.broker.clients[id], Event(UPDATE_EVENT, UpdatePayload(h.msg));
    if c.phase.Reading? && B.StopPending(s.broker) && s.broker.lock.Free? {
      B.ReaderIsRegistered(s0.broker.retryMs, BrokerRun(run), id);
      EndOfReader(s.broker, id);
    }
    if c.since <= i < B.End(s.broker, id) {
      B.Delivered(s0.broker.retryMs, BrokerRun(run), id, i);
      if c.offers[i - c.since].fill < 16 && c.buf == [] && Readable(s.broker, id) {
        var at := DecodedFromLog(render, s0, run, id);
        NothingBuffered(render, s0, run, id);
        CleanedMember(B.Received(c), update);
        PayloadIsCarried(h.msg);
      }
    }
  }

  lemma EndOfReader(s: B.State, id: nat)
    requires id in s.clients && id in s.registered && s.lock.Free?
    ensures B.End(s, id) == |s.log|
  {
  }

  lemma NothingBuffered(render: Template, s0: State, run: seq<Step>, id: nat)
    requires Initial(s0) && Feasible(render, s0, run)
    requires var s := After(render, s0, run).broker; id in s.clients && s.clients[id].buf == []
    ensures var c := After(render, s0, run).broker.clients[id];
            c.received <= |B.Kept(c.offers)| && B.Buffered(c) == []
  {
    hide Feasible, After, S.Inv, Linked, InStep, Ordered, B.Kept, Response;
    ReachedInv(render, s0, run);
    assert B.Conserved(After(render, s0, run).broker, id);
  }

  lemma CleanedMember(messages: seq<Event>, m: Event)
    requires m in messages
    ensures Event(m.name, C.StripCR(m.data)) in C.Cleaned(messages)
  {
    hide C.StripCR;
    var i :| 0 <= i < |messages| && messages[i] == m;
    assert C.Cleaned(messages)[i] == Event(m.name, C.StripCR(m.data));
  }

  /** A pending update waits for nothing but the watcher's own list and the lock. */
  lemma PendingCanGo(render: Template, s: State)
    requires s.pending.Some? && s.service.watch.Idle? && s.broker.lock.Free? && !s.broker.panicked
    ensures Enabled(render, s, Update(s.pending.value.msg))
    ensures Apply(render, s, Update(s.pending.value.msg)).pending == None
  {
    hide UpdatePayload;
  }

  /** So does the page of a list the watcher holds, when it renders; when it does not, the watcher goes on. */
  lemma PageCanGo(render: Template, s: State, groups: seq<ContainerGroup>)
    requires HoldsGrouping(s.service, groups) && s.broker.lock.Free? && !s.broker.panicked
    ensures var a := match render(groups)
                     case Some(page) => Publish(groups, page, s.service.now)
                     case None => RenderFails(groups, s.service.now);
            Enabled(render, s, a) && Apply(render, s, a).service.watch.Idle?
  {
    hide Visible, ValidSnapshot, IsGrouping;
  }

  /** Handling an event that names a container makes its update pending. */
  lemma WakeMakesPending(render: Template, s: State, msg: DockerMessage, now: int)
    requires Enabled(render, s, Wake(Some(msg), now))
    ensures var t := Apply(render, s, Wake(Some(msg), now));
            && Handled(msg, S.Tick(s.service)) in t.handled
            && t.pending == if msg.actorID != "" then Some(Handled(msg, S.Tick(s.service))) else None
  {
    hide S.Apply, S.Enabled;
  }

  /** A client that is not subscribed yet when the log holds n messages is only ever sent later ones. */
  ghost predicate Late(s: B.State, id: nat, n: nat) {
    n <= |s.log| && (id in s.clients && !s.clients[id].phase.Connected? ==> n <= s.clients[id].since)
  }

  lemma LateStep(s: B.State, a: B.Step, id: nat, n: nat)
    requires B.Enabled(s, a) && Late(s, id, n)
    ensures Late(B.Apply(s, a), id, n)
  {
    hide Frame, Preamble;
  }

  lemma {:induction false} LateRun(s: B.State, run: seq<B.Step>, id: nat, n: nat)
    requires B.Feasible(s, run) && Late(s, id, n)
    ensures Late(B.After(s, run), id, n)
    decreases |run|
  {
    hide B.Enabled, B.Apply, Late;
    if run != [] {
      LateStep(s, run[0], id, n);
      LateRun(B.Apply(s, run[0]), run[1..], id, n);
    }
  }

  /**
   From a Docker event to the browser: when no List call has the daemon's answer in hand as the
   event is handled, every page decoded from a broadcast begun after it shows the daemon as it
   was read after the event; and for a client that has not subscribed by then that is every
   page it ever decodes.
   */
  lemma BrowserSeesEvent(render: Template, s0: State, before: seq<Step>, msg: DockerMessage, now: int,
                         rest: seq<Step>, id: nat)
    returns (at: seq<nat>)
    requires Initial(s0) && Feasible(render, s0, before)
    requires var s := After(render, s0, before); s.service.ttl < 0 || S.NoneFetched(s.service)
    requires Feasible(render, s0, before + ([Wake(Some(msg), now)] + rest))
    requires var t := After(render, s0, before + ([Wake(Some(msg), now)] + rest));
             id in t.broker.clients && Readable(t.broker, id)
    ensures var s := After(render, s0, before);
            var t := After(render, s0, before + ([Wake(Some(msg), now)] + rest));
            var events := Decode(t.broker.clients[id].written).events;
            && Shows(render, t, S.Tick(s.service), |s.broker.log|, at, events)
            && ((id in s.broker.clients ==> s.broker.clients[id].phase.Connected?) ==>
                  forall j | j in at :: j >= |s.broker.log|)
  {
    hide Feasible, After, Decode, Faithful, S.Inv, S.ShowsFresh, S.NoneFetched, B.Inv, B.Feasible, B.After, B.Kept,
         Readable, Explained, ShownAfter, InStep, C.StripCR;
    var tail := [Wake(Some(msg), now)] + rest;
    var s, t := After(render, s0, before), After(render, s0, before + tail);
    Split(render, s0, before, tail);
    ReachedInv(render, s0, before + tail);
    FreshAfterEvent(render, s0, before, msg, now, rest);
    at := DecodedFromLog(render, s0, before + tail, id);
    var events := Decode(t.broker.clients[id].written).events;
    forall j | 0 <= j < |events| && at[j] >= |s.broker.log|
      ensures Faithful(render, t, S.Tick(s.service), t.source[at[j]], events[j])
    {
      LogFresh(render, t, at[j], |s.broker.log|, S.Tick(s.service));
    }
    if id in s.broker.clients ==> s.broker.clients[id].phase.Connected? {
      BrokerProjection(render, s, tail);
      LateRun(s.broker, BrokerRun(tail), id, |s.broker.log|);
    }
  }
}
