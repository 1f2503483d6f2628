/**
 Every interleaving of the broker's clients, its one broadcasting goroutine and Stop. Broadcast
 and Stop hold a lock over several steps; readers take no lock, so receives fall in between.
 Fields that only record history are marked as such.
 */
module BrokerRuns {
  import opened Text
  import opened EventStream
  import opened Broker
  import C = CarriageReturns

  /** Where handleSSE is: preamble written, in its select loop, before the deferred Unsubscribe, returned. */
  datatype Phase = Connected | Reading | Leaving | Gone

  /** History: one send attempt, and how many slots were taken when it was made. */
  datatype Offer = Offer(msg: Event, fill: nat)

  datatype Client = Client(
    phase: Phase,
    buf: seq<string>,
    closed: bool,
    written: string,
    // history: messages received, send attempts, and the part of the log broadcast while registered
    received: nat,
    offers: seq<Offer>,
    since: nat,
    until: nat)

  datatype Lock = Free | Broadcasting(msg: Event, todo: set<nat>) | Stopping(todo: set<nat>)

  datatype StopPhase = NotCalled | Called | Locked | Done

  datatype State = State(
    retryMs: int,
    clients: map<nat, Client>,
    registered: set<nat>,
    lock: Lock,
    stop: StopPhase,
    panicked: bool,
    // history: every broadcast begun
    log: seq<Event>)

  datatype Step =
    | Open(id: nat)
    | Subscribe(id: nat)
    | Begin(msg: Event)
    | Send(id: nat)
    | Finish
    | Receive(id: nat)
    | SeeClosed(id: nat)
    | Cancel(id: nat)
    | Unsubscribe(id: nat)
    | CallStop
    | LockStop
    | Close(id: nat)
    | FinishStop

  function Init(retryMs: int): State {
    State(retryMs, map[], {}, Free, NotCalled, false, [])
  }

  predicate InPhase(s: State, id: nat, phase: Phase) {
    id in s.clients && s.clients[id].phase == phase
  }

  predicate Enabled(s: State, a: Step) {
    && !s.panicked
    && match a
       case Open(id) => id !in s.clients
       case Subscribe(id) => InPhase(s, id, Connected) && s.lock.Free?
       case Begin(_) => s.lock.Free?
       case Send(id) => s.lock.Broadcasting? && id in s.lock.todo && id in s.clients
       case Finish => s.lock.Broadcasting? && s.lock.todo == {}
       case Receive(id) => InPhase(s, id, Reading) && s.clients[id].buf != []
       case SeeClosed(id) => InPhase(s, id, Reading) && s.clients[id].buf == [] && s.clients[id].closed
       case Cancel(id) => InPhase(s, id, Reading)
       case Unsubscribe(id) => InPhase(s, id, Leaving) && s.lock.Free?
       case CallStop => true
       case LockStop => s.stop.Called? && s.lock.Free?
       case Close(id) => s.lock.Stopping? && id in s.lock.todo && id in s.clients
       case FinishStop => s.lock.Stopping? && s.lock.todo == {}
  }

  function With(s: State, id: nat, c: Client): State { s.(clients := s.clients[id := c]) }

  function Apply(s: State, a: Step): State
    requires Enabled(s, a)
  {
    match a
    case Open(id) => With(s, id, Client(Connected, [], false, Preamble(s.retryMs), 0, [], 0, 0))
    case Subscribe(id) =>
      With(s, id, s.clients[id].(phase := Reading, since := |s.log|)).(registered := s.registered + {id})
    case Begin(msg) => s.(lock := Broadcasting(msg, s.registered), log := s.log + [msg])
    case Send(id) =>
      var c, msg := s.clients[id], s.lock.msg;
      if c.closed then s.(panicked := true)
      else
        With(s, id, c.(buf := Offered(c.buf, Frame(msg.name, msg.data)), offers := c.offers + [Offer(msg, |c.buf|)]))
        .(lock := Broadcasting(msg, s.lock.todo - {id}))
    case Finish => s.(lock := Free)
    case Receive(id) =>
      var c := s.clients[id];
      With(s, id, c.(buf := c.buf[1..], written := c.written + c.buf[0], received := c.received + 1))
    case SeeClosed(id) => With(s, id, s.clients[id].(phase := Leaving))
    case Cancel(id) => With(s, id, s.clients[id].(phase := Leaving))
    case Unsubscribe(id) =>
      var c := s.clients[id];
      With(s, id, c.(phase := Gone, until := if id in s.registered then |s.log| else c.until))
      .(registered := s.registered - {id})
    case CallStop => if s.stop.NotCalled? then s.(stop := Called) else s.(panicked := true)
    case LockStop => s.(stop := Locked, lock := Stopping(s.registered))
    case Close(id) =>
      var c := s.clients[id];
      if c.closed then s.(panicked := true)
      else With(s, id, c.(closed := true, until := |s.log|)).(lock := Stopping(s.lock.todo - {id}))
    case FinishStop => s.(stop := Done, lock := Free, registered := {})
  }

  // ---------- Runs ----------

  /** Each step of the run is enabled where it is taken. */
  predicate Feasible(s: State, run: seq<Step>)
    decreases |run|
  {
    run == [] || (Enabled(s, run[0]) && Feasible(Apply(s, run[0]), run[1..]))
  }

  function After(s: State, run: seq<Step>): State
    requires Feasible(s, run)
    decreases |run|
  {
    if run == [] then s else After(Apply(s, run[0]), run[1..])
  }

  // ---------- History ----------

  function Messages(offers: seq<Offer>): (r: seq<Event>)
    ensures |r| == |offers|
  {
    seq(|offers|, i requires 0 <= i < |offers| => offers[i].msg)
  }

  /** The messages that found a free slot, in order. */
  function Kept(offers: seq<Offer>): seq<Event> {
    if offers == [] then []
    else
      var o := offers[|offers| - 1];
      if o.fill < CAPACITY then Kept(offers[..|offers| - 1]) + [o.msg] else Kept(offers[..|offers| - 1])
  }

  /** The messages that found no free slot, in order. */
  function Dropped(offers: seq<Offer>): seq<Event> {
    if offers == [] then []
    else
      var o := offers[|offers| - 1];
      if o.fill < CAPACITY then Dropped(offers[..|offers| - 1]) else Dropped(offers[..|offers| - 1]) + [o.msg]
  }

  function Received(c: Client): seq<Event>
    requires c.received <= |Kept(c.offers)|
  {
    Kept(c.offers)[..c.received]
  }

  function Buffered(c: Client): seq<Event>
    requires c.received <= |Kept(c.offers)|
  {
    Kept(c.offers)[c.received..]
  }

  function FrameList(messages: seq<Event>): (r: seq<string>)
    ensures |r| == |messages|
  {
    seq(|messages|, i requires 0 <= i < |messages| => Frame(messages[i].name, messages[i].data))
  }

  /** How far the log concerns a client: to its removal, or to the last broadcast that has reached it. */
  function End(s: State, id: nat): int
    requires id in s.clients
  {
    if id !in s.registered then s.clients[id].until
    else if s.lock.Broadcasting? && id in s.lock.todo then |s.log| - 1
    else |s.log|
  }

  /** The messages broadcast during a client's subscription. */
  function Window(s: State, id: nat): seq<Event>
    requires id in s.clients && 0 <= s.clients[id].since <= End(s, id) <= |s.log|
  {
    s.log[s.clients[id].since..End(s, id)]
  }

  // ---------- The invariant ----------

  /** Received, then buffered: exactly the kept messages, as frames; the rest found the buffer full. */
  ghost predicate Accounted(retryMs: int, c: Client) {
    && |c.buf| <= CAPACITY
    && (forall o | o in c.offers :: o.fill <= CAPACITY)
    && c.received <= |Kept(c.offers)|
    && c.buf == FrameList(Buffered(c))
    && c.written == Response(retryMs, Received(c))
  }

  ghost predicate Conserved(s: State, id: nat)
    requires id in s.clients
  {
    && Accounted(s.retryMs, s.clients[id])
    && 0 <= s.clients[id].since <= End(s, id) <= |s.log|
    && Messages(s.clients[id].offers) == Window(s, id)
  }

  ghost predicate ChannelSafe(s: State, id: nat)
    requires id in s.clients
  {
    var c := s.clients[id];
    && (c.phase.Connected? || c.phase.Gone? ==> id !in s.registered)
    && (c.phase.Connected? ==> c.offers == [] && !c.closed && c.since == c.until == 0)
    && (id in s.registered && c.closed ==> s.lock.Stopping? && id !in s.lock.todo && c.until == |s.log|)
    && (id in s.registered && s.lock.Stopping? && id !in s.lock.todo ==> c.closed)
    && (c.closed ==> s.stop.Locked? || s.stop.Done?)
  }

  ghost predicate Inv(s: State) {
    && s.registered <= s.clients.Keys
    && (s.lock.Broadcasting? ==> s.lock.todo <= s.registered && s.log != [] && s.log[|s.log| - 1] == s.lock.msg)
    && (s.lock.Stopping? ==> s.lock.todo <= s.registered)
    && (s.lock.Stopping? <==> s.stop.Locked?)
    && (forall id | id in s.clients :: Conserved(s, id) && ChannelSafe(s, id))
  }

  /** The client's own record and its part of the log are untouched. */
  lemma Untouched(s: State, t: State, id: nat)
    requires id in s.clients && id in t.clients && Conserved(s, id)
    requires t.clients[id] == s.clients[id] && End(t, id) == End(s, id)
    requires s.log <= t.log && t.retryMs == s.retryMs
    ensures Conserved(t, id)
  {
    hide Accounted, Messages;
    assert Window(t, id) == Window(s, id);
  }

  lemma KeptSnoc(offers: seq<Offer>, o: Offer)
    ensures Kept(offers + [o]) == if o.fill < CAPACITY then Kept(offers) + [o.msg] else Kept(offers)
    ensures Messages(offers + [o]) == Messages(offers) + [o.msg]
  {
    assert (offers + [o])[..|offers|] == offers;
  }

  lemma SendAccounted(retryMs: int, c: Client, msg: Event)
    requires Accounted(retryMs, c)
    ensures Accounted(retryMs, c.(buf := Offered(c.buf, Frame(msg.name, msg.data)),
                                  offers := c.offers + [Offer(msg, |c.buf|)]))
  {
    hide Response, Kept, FrameList, Frame;
    KeptSnoc(c.offers, Offer(msg, |c.buf|));
    assert (Kept(c.offers) + [msg])[..c.received] == Kept(c.offers)[..c.received];
    assert (Kept(c.offers) + [msg])[c.received..] == Kept(c.offers)[c.received..] + [msg];
    FrameListSnoc(Buffered(c), msg);
  }

  lemma SendConserves(s: State, id: nat)
    requires Inv(s) && Enabled(s, Send(id)) && !s.clients[id].closed
    ensures Conserved(Apply(s, Send(id)), id)
  {
    hide Accounted, Kept, Messages, Frame;
    var c, msg, t := s.clients[id], s.lock.msg, Apply(s, Send(id));
    assert Conserved(s, id);
    SendAccounted(s.retryMs, c, msg);
    KeptSnoc(c.offers, Offer(msg, |c.buf|));
    assert Window(t, id) == Window(s, id) + [msg];
  }

  lemma FrameListSnoc(messages: seq<Event>, m: Event)
    ensures FrameList(messages + [m]) == FrameList(messages) + [Frame(m.name, m.data)]
  {
    hide Frame;
  }

  lemma ReceiveAccounted(retryMs: int, c: Client)
    requires Accounted(retryMs, c) && c.buf != []
    ensures Accounted(retryMs, c.(buf := c.buf[1..], written := c.written + c.buf[0], received := c.received + 1))
  {
    hide Kept, Frame, Response;
    var d := c.(buf := c.buf[1..], written := c.written + c.buf[0], received := c.received + 1);
    assert |Buffered(c)| == |c.buf| > 0;
    var m := Buffered(c)[0];
    assert Received(d) == Received(c) + [m];
    assert Buffered(d) == Buffered(c)[1..];
    assert c.buf[0] == Frame(m.name, m.data);
    ResponseSnoc(retryMs, Received(c), m);
    assert FrameList(Buffered(c))[1..] == FrameList(Buffered(c)[1..]);
  }

  lemma ReceiveConserves(s: State, id: nat)
    requires Inv(s) && Enabled(s, Receive(id))
    ensures Conserved(Apply(s, Receive(id)), id)
  {
    hide Accounted, Messages;
    assert Conserved(s, id);
    ReceiveAccounted(s.retryMs, s.clients[id]);
    assert Window(Apply(s, Receive(id)), id) == Window(s, id);
  }

  lemma ResponseSnoc(retryMs: int, messages: seq<Event>, m: Event)
    ensures Response(retryMs, messages + [m]) == Response(retryMs, messages) + Frame(m.name, m.data)
  {
    hide Frame, Preamble;
    assert (messages + [m])[..|messages|] == messages;
    assert Preamble(retryMs) + (Frames(messages) + Frame(m.name, m.data))
        == Preamble(retryMs) + Frames(messages) + Frame(m.name, m.data);
  }

  lemma OpenConserves(s: State, id: nat)
    requires Inv(s) && Enabled(s, Open(id))
    ensures Conserved(Apply(s, Open(id)), id) && ChannelSafe(Apply(s, Open(id)), id)
  {
    var t := Apply(s, Open(id));
    assert Response(s.retryMs, []) == Preamble(s.retryMs);
    assert Window(t, id) == [] == Messages([]);
  }

  lemma SameAccount(retryMs: int, c: Client, d: Client)
    requires Accounted(retryMs, c)
    requires d.buf == c.buf && d.offers == c.offers && d.received == c.received && d.written == c.written
    ensures Accounted(retryMs, d)
  {
  }

  /** Steps that only move a client's phase, its registration or its closed flag. */
  lemma PhaseConserves(s: State, a: Step, id: nat)
    requires Inv(s) && Enabled(s, a) && id in s.clients && id in Apply(s, a).clients
    requires || a in {Subscribe(id), SeeClosed(id), Cancel(id), Unsubscribe(id)}
             || (a == Close(id) && !s.clients[id].closed)
    ensures Conserved(Apply(s, a), id)
  {
    hide Accounted, Messages;
    assert Conserved(s, id) && ChannelSafe(s, id);
    SameAccount(s.retryMs, s.clients[id], Apply(s, a).clients[id]);
    assert Window(Apply(s, a), id) == Window(s, id);
  }

  predicate ActsOn(a: Step, id: nat) {
    a in {Open(id), Send(id), Receive(id), Subscribe(id), SeeClosed(id), Cancel(id), Unsubscribe(id), Close(id)}
  }

  lemma BystanderConserves(s: State, a: Step, id: nat)
    requires Inv(s) && Enabled(s, a) && !Apply(s, a).panicked
    requires id in s.clients && id in Apply(s, a).clients && !ActsOn(a, id)
    ensures Conserved(Apply(s, a), id)
  {
    hide Conserved;
    assert Conserved(s, id) && ChannelSafe(s, id);
    var t := Apply(s, a);
    assert t.clients[id] == s.clients[id];
    assert s.log <= t.log;
    Untouched(s, t, id);
  }

  lemma StepConserves(s: State, a: Step, id: nat)
    requires Inv(s) && Enabled(s, a) && !Apply(s, a).panicked && id in Apply(s, a).clients
    ensures Conserved(Apply(s, a), id)
  {
    hide Conserved, ChannelSafe;
    if a == Open(id) {
      OpenConserves(s, id);
    } else if a == Send(id) {
      SendConserves(s, id);
    } else if a == Receive(id) {
      ReceiveConserves(s, id);
    } else if ActsOn(a, id) {
      PhaseConserves(s, a, id);
    } else {
      BystanderConserves(s, a, id);
    }
  }

  lemma StepChannelSafe(s: State, a: Step, id: nat)
    requires Inv(s) && Enabled(s, a) && !Apply(s, a).panicked && id in Apply(s, a).clients
    ensures ChannelSafe(Apply(s, a), id)
  {
    hide Conserved;
    if a == Open(id) {
      OpenConserves(s, id);
    } else {
      assert ChannelSafe(s, id);
    }
  }

  /** No step but a second Stop panics: no send on a closed channel, no second close. */
  lemma StepPanics(s: State, a: Step)
    requires Inv(s) && Enabled(s, a)
    ensures Apply(s, a).panicked <==> a.CallStop? && !s.stop.NotCalled?
  {
    hide Conserved;
    if a.Send? || a.Close? {
      assert ChannelSafe(s, a.id);
    }
  }

  lemma StepInv(s: State, a: Step)
    requires Inv(s) && Enabled(s, a)
    ensures Inv(Apply(s, a))
  {
    hide Conserved, ChannelSafe;
    var t := Apply(s, a);
    if t.panicked {
      StepPanics(s, a);
      PanicKeepsInv(s, t);
    } else {
      forall id | id in t.clients ensures Conserved(t, id) && ChannelSafe(t, id) {
        StepConserves(s, a, id);
        StepChannelSafe(s, a, id);
      }
    }
  }

  lemma PanicKeepsInv(s: State, t: State)
    requires Inv(s) && t == s.(panicked := true)
    ensures Inv(t)
  {
    hide Conserved;
    forall id | id in t.clients ensures Conserved(t, id) && ChannelSafe(t, id) {
      assert Conserved(s, id) && ChannelSafe(s, id);
      Untouched(s, t, id);
    }
  }

  lemma {:induction false} RunInv(s: State, run: seq<Step>)
    requires Inv(s) && Feasible(s, run)
    ensures Inv(After(s, run))
    decreases |run|
  {
    hide Inv;
    if run != [] {
      StepInv(s, run[0]);
      RunInv(Apply(s, run[0]), run[1..]);
    }
  }

  lemma InitInv(retryMs: int)
    ensures Inv(Init(retryMs))
  {
  }

  // ---------- Main results ----------

  /** The state after a run from the start. */
  function Reached(retryMs: int, run: seq<Step>): State
    requires Feasible(Init(retryMs), run)
  {
    After(Init(retryMs), run)
  }

  /** w is a merge of x and y that keeps the order of both. */
  ghost predicate Interleaves(w: seq<Event>, x: seq<Event>, y: seq<Event>)
    decreases |w|
  {
    if w == [] then x == y == []
    else
      || (x != [] && x[|x| - 1] == w[|w| - 1] && Interleaves(w[..|w| - 1], x[..|x| - 1], y))
      || (y != [] && y[|y| - 1] == w[|w| - 1] && Interleaves(w[..|w| - 1], x, y[..|y| - 1]))
  }

  /** x consists of the elements of w at these increasing positions. */
  ghost predicate PicksFrom(x: seq<Event>, w: seq<Event>, at: seq<nat>) {
    && |at| == |x|
    && (forall i | 0 <= i < |x| :: at[i] < |w| && w[at[i]] == x[i])
    && (forall i, j | 0 <= i < j < |x| :: at[i] < at[j])
  }

  ghost predicate InOrderPart(x: seq<Event>, w: seq<Event>) {
    exists at :: PicksFrom(x, w, at)
  }

  lemma {:induction false} OffersInterleave(offers: seq<Offer>)
    ensures Interleaves(Messages(offers), Kept(offers), Dropped(offers))
  {
    if offers != [] {
      var init, o := offers[..|offers| - 1], offers[|offers| - 1];
      OffersInterleave(init);
      assert Messages(offers)[..|offers| - 1] == Messages(init);
      if o.fill < CAPACITY {
        assert Kept(offers)[..|Kept(offers)| - 1] == Kept(init);
      } else {
        assert Dropped(offers)[..|Dropped(offers)| - 1] == Dropped(init);
      }
    }
  }

  lemma KeptNone()
    ensures Kept([]) == [] && Messages([]) == []
  {
  }

  lemma PickLast(x: seq<Event>, w: seq<Event>, at: seq<nat>, m: Event) returns (more: seq<nat>)
    requires PicksFrom(x, w, at)
    ensures PicksFrom(x + [m], w + [m], more)
  {
    more := at + [|w|];
  }

  lemma {:induction false} KeptInOrder(offers: seq<Offer>) returns (at: seq<nat>)
    ensures PicksFrom(Kept(offers), Messages(offers), at)
  {
    hide Kept, Messages;
    if offers == [] {
      KeptNone();
      at := [];
    } else {
      var init, o := offers[..|offers| - 1], offers[|offers| - 1];
      assert offers == init + [o];
      KeptSnoc(init, o);
      at := KeptInOrder(init);
      assert PicksFrom(Kept(init), Messages(init) + [o.msg], at);
      if o.fill < CAPACITY {
        at := PickLast(Kept(init), Messages(init), at, o.msg);
      }
    }
  }

  lemma {:induction false} NothingDropped(offers: seq<Offer>)
    requires forall o | o in offers :: o.fill < CAPACITY
    ensures Kept(offers) == Messages(offers) && Dropped(offers) == []
  {
    if offers != [] {
      var init, o := offers[..|offers| - 1], offers[|offers| - 1];
      NothingDropped(init);
      assert o in offers;
      assert Messages(offers) == Messages(init) + [o.msg];
    }
  }

  /**
   Conservation, in every reachable state: what was broadcast during a client's subscription is
   an interleaving of what it received, then what its buffer holds, with what was dropped; a
   message was dropped only when all 16 slots were taken, so without a full buffer nothing is.
   */
  lemma Conservation(retryMs: int, run: seq<Step>, id: nat)
    requires Feasible(Init(retryMs), run) && id in Reached(retryMs, run).clients
    ensures var s := Reached(retryMs, run);
            var c := s.clients[id];
            && |c.buf| <= 16 && c.received <= |Kept(c.offers)|
            && 0 <= c.since <= End(s, id) <= |s.log|
            && c.buf == FrameList(Buffered(c))
            && Interleaves(Window(s, id), Received(c) + Buffered(c), Dropped(c.offers))
            && (forall o | o in c.offers && o.fill >= 16 :: o.fill == 16)
            && ((forall o | o in c.offers :: o.fill < 16) ==> Received(c) + Buffered(c) == Window(s, id))
  {
    hide Feasible, After, Interleaves, FrameList, Response, Kept, Dropped, Messages;
    InitInv(retryMs);
    RunInv(Init(retryMs), run);
    var s := Reached(retryMs, run);
    var c := s.clients[id];
    assert Conserved(s, id);
    assert Received(c) + Buffered(c) == Kept(c.offers);
    OffersInterleave(c.offers);
    if forall o | o in c.offers :: o.fill < CAPACITY {
      NothingDropped(c.offers);
    }
  }

  lemma {:induction false} KeptMember(offers: seq<Offer>, j: nat)
    requires j < |offers| && offers[j].fill < CAPACITY
    ensures offers[j].msg in Kept(offers)
  {
    var init, last := offers[..|offers| - 1], offers[|offers| - 1];
    assert offers == init + [last];
    KeptSnoc(init, last);
    if j < |init| { KeptMember(init, j); }
  }

  /**
   Delivery, in every reachable state: each message broadcast during a client's subscription was
   offered to it, and if there was a free slot then, the client has received it or has it buffered.
   */
  lemma Delivered(retryMs: int, run: seq<Step>, id: nat, i: nat)
    requires Feasible(Init(retryMs), run) && id in Reached(retryMs, run).clients
    requires Reached(retryMs, run).clients[id].since <= i < End(Reached(retryMs, run), id)
    ensures var s := Reached(retryMs, run);
            var c := s.clients[id];
            && i < |s.log| && c.received <= |Kept(c.offers)|
            && i - c.since < |c.offers| && c.offers[i - c.since].msg == s.log[i]
            && (c.offers[i - c.since].fill < 16 ==> s.log[i] in Received(c) + Buffered(c))
  {
    hide Feasible, After, FrameList, Response, Kept;
    InitInv(retryMs);
    RunInv(Init(retryMs), run);
    var s := Reached(retryMs, run);
    var c := s.clients[id];
    assert Conserved(s, id);
    var j := i - c.since;
    assert Window(s, id)[j] == s.log[i] && Messages(c.offers)[j] == c.offers[j].msg;
    assert Received(c) + Buffered(c) == Kept(c.offers);
    if c.offers[j].fill < CAPACITY { KeptMember(c.offers, j); }
  }

  /**
   End to end, over every interleaving: a browser decoding the bytes written to a client gets
   exactly the messages received, an in-order part of what was broadcast while it was
   subscribed, if and only if each of them is safe on the wire; and then the reconnection time.
   */
  lemma EndToEnd(retryMs: int, run: seq<Step>, id: nat)
    requires Feasible(Init(retryMs), run) && id in Reached(retryMs, run).clients
    ensures var s := Reached(retryMs, run);
            var c := s.clients[id];
            && c.received <= |Kept(c.offers)| && 0 <= c.since <= End(s, id) <= |s.log|
            && InOrderPart(Received(c), Window(s, id))
            && (Decode(c.written).events == Received(c) <==> forall m | m in Received(c) :: WireSafe(m))
            && ((forall m | m in Received(c) :: WireSafe(m)) ==>
                  Decode(c.written).retry == if retryMs >= 0 then Some(retryMs) else None)
  {
    hide Feasible, After, WireSafe, Decode, Kept, Response, FrameList, Messages;
    InitInv(retryMs);
    RunInv(Init(retryMs), run);
    var s := Reached(retryMs, run);
    var c := s.clients[id];
    RetryFixed(Init(retryMs), run);
    assert Conserved(s, id);
    var at := KeptInOrder(c.offers);
    assert PicksFrom(Received(c), Window(s, id), at[..c.received]);
    ResponseRoundTrip(retryMs, Received(c));
  }

  /**
   With carriage returns: the browser gets the messages received, merely without their CRs, if
   and only if each of them arrives on its own. Other messages and other clients do not matter.
   */
  lemma EndToEndCleaned(retryMs: int, run: seq<Step>, id: nat)
    requires Feasible(Init(retryMs), run) && id in Reached(retryMs, run).clients
    ensures var s := Reached(retryMs, run);
            var c := s.clients[id];
            && c.received <= |Kept(c.offers)| && 0 <= c.since <= End(s, id) <= |s.log|
            && InOrderPart(Received(c), Window(s, id))
            && (Decode(c.written).events == C.Cleaned(Received(c)) <==> forall m | m in Received(c) :: C.Arrives(m))
            && ((forall m | m in Received(c) :: C.Arrives(m)) ==>
                  Decode(c.written).retry == if retryMs >= 0 then Some(retryMs) else None)
  {
    hide Feasible, After, WireSafe, Decode, Kept, Response, FrameList, Messages, C.Arrives, C.Cleaned;
    EndToEnd(retryMs, run, id);
    InitInv(retryMs);
    RunInv(Init(retryMs), run);
    RetryFixed(Init(retryMs), run);
    assert Conserved(Reached(retryMs, run), id);
    C.ResponseCleanedIff(retryMs, Received(Reached(retryMs, run).clients[id]));
  }

  lemma {:induction false} RetryFixed(s: State, run: seq<Step>)
    requires Feasible(s, run)
    ensures After(s, run).retryMs == s.retryMs
    decreases |run|
  {
    if run != [] { RetryFixed(Apply(s, run[0]), run[1..]); }
  }

  /** Messages safe on the wire when they are broadcast are safe when they are received. */
  lemma SafeLogDecodes(retryMs: int, run: seq<Step>, id: nat)
    requires Feasible(Init(retryMs), run) && id in Reached(retryMs, run).clients
    requires forall m | m in Reached(retryMs, run).log :: WireSafe(m)
    ensures var c := Reached(retryMs, run).clients[id];
            && c.received <= |Kept(c.offers)|
            && Decode(c.written).events == Received(c)
  {
    hide Feasible, After, WireSafe, Decode, Kept, Response, FrameList, Messages;
    EndToEnd(retryMs, run, id);
    var s := Reached(retryMs, run);
    var c := s.clients[id];
    var at :| PicksFrom(Received(c), Window(s, id), at);
    forall m | m in Received(c) ensures WireSafe(m) {
      var i :| 0 <= i < c.received && Received(c)[i] == m;
      assert Window(s, id)[at[i]] in s.log;
    }
  }

  // ---------- Stop ----------

  function StopCalls(run: seq<Step>): nat {
    if run == [] then 0 else (if run[0].CallStop? then 1 else 0) + StopCalls(run[1..])
  }

  /** A run panics exactly when Stop is called a second time. */
  lemma PanicIffStoppedTwice(retryMs: int, run: seq<Step>)
    requires Feasible(Init(retryMs), run)
    ensures Reached(retryMs, run).panicked <==> StopCalls(run) >= 2
  {
    InitInv(retryMs);
    PanicsFrom(Init(retryMs), run);
  }

  lemma {:induction false} PanicsFrom(s: State, run: seq<Step>)
    requires Inv(s) && !s.panicked && Feasible(s, run)
    ensures After(s, run).panicked <==> StopCalls(run) >= if s.stop.NotCalled? then 2 else 1
    decreases |run|
  {
    hide Conserved, ChannelSafe;
    if run != [] {
      var t := Apply(s, run[0]);
      StepInv(s, run[0]);
      StepPanics(s, run[0]);
      if t.panicked {
        assert run[1..] == [];
      } else {
        PanicsFrom(t, run[1..]);
      }
    }
  }

  /** In every reachable state a registered channel is open, except while Stop itself is closing them. */
  lemma RegisteredIsOpen(retryMs: int, run: seq<Step>, id: nat)
    requires Feasible(Init(retryMs), run)
    ensures var s := Reached(retryMs, run);
            id in s.registered && !s.lock.Stopping? ==> id in s.clients && !s.clients[id].closed
  {
    hide Feasible, After, Conserved;
    InitInv(retryMs);
    RunInv(Init(retryMs), run);
    var s := Reached(retryMs, run);
    if id in s.registered { assert ChannelSafe(s, id); }
  }

  /** n receives, then the reader sees the end of the channel. */
  function Drain(id: nat, n: nat): seq<Step> {
    if n == 0 then [SeeClosed(id)] else [Receive(id)] + Drain(id, n - 1)
  }

  /** A reader whose channel is closed can receive its whole buffer, and then its loop ends. */
  lemma {:induction false} DrainEnds(s: State, id: nat)
    requires Inv(s) && !s.panicked && InPhase(s, id, Reading) && s.clients[id].closed
    ensures var run := Drain(id, |s.clients[id].buf|);
            && Feasible(s, run)
            && id in After(s, run).clients
            && var c := After(s, run).clients[id];
               && c.phase.Leaving? && c.buf == [] && c.offers == s.clients[id].offers
               && c.received == |Kept(c.offers)| && c.written == Response(s.retryMs, Kept(c.offers))
    decreases |s.clients[id].buf|
  {
    hide Kept, Response, FrameList, Messages;
    var c := s.clients[id];
    var run := Drain(id, |c.buf|);
    assert Conserved(s, id);
    if c.buf == [] {
      var t := Apply(s, SeeClosed(id));
      assert run[1..] == [];
      assert After(s, run) == After(t, []) == t;
      assert Received(c) == Kept(c.offers);
    } else {
      StepInv(s, Receive(id));
      DrainEnds(Apply(s, Receive(id)), id);
      assert run[1..] == Drain(id, |c.buf| - 1);
    }
  }

  /** Every client registered when Stop has closed its channels, and still reading, can drain and end. */
  lemma StoppedClientsDrain(retryMs: int, run: seq<Step>, id: nat)
    requires Feasible(Init(retryMs), run) && Enabled(Reached(retryMs, run), FinishStop)
    requires id in Reached(retryMs, run).registered && InPhase(Reached(retryMs, run), id, Reading)
    ensures var s := Apply(Reached(retryMs, run), FinishStop);
            var drain := Drain(id, |s.clients[id].buf|);
            && Feasible(s, drain)
            && id in After(s, drain).clients
            && After(s, drain).clients[id].phase.Leaving?
            && After(s, drain).clients[id].written == Response(s.retryMs, Kept(s.clients[id].offers))
  {
    hide Kept, Response, Conserved, Feasible, After;
    InitInv(retryMs);
    RunInv(Init(retryMs), run);
    var s := Reached(retryMs, run);
    assert ChannelSafe(s, id);
    StepInv(s, FinishStop);
    DrainEnds(Apply(s, FinishStop), id);
  }

  /** A closed channel is offered nothing more, in any continuation. */
  lemma {:induction false} ClosedIsFinal(s: State, run: seq<Step>, id: nat)
    requires Inv(s) && Feasible(s, run) && id in s.clients && s.clients[id].closed
    ensures id in After(s, run).clients && After(s, run).clients[id].closed
    ensures After(s, run).clients[id].offers == s.clients[id].offers
    decreases |run|
  {
    hide Inv, Conserved;
    if run != [] {
      var t := Apply(s, run[0]);
      StepInv(s, run[0]);
      SendsToOpen(s, run[0], id);
      ClosedIsFinal(t, run[1..], id);
    }
  }

  lemma SendsToOpen(s: State, a: Step, id: nat)
    requires Inv(s) && Enabled(s, a) && id in s.clients && s.clients[id].closed
    ensures id in Apply(s, a).clients && Apply(s, a).clients[id].closed
    ensures Apply(s, a).clients[id].offers == s.clients[id].offers
  {
    hide Conserved;
    assert ChannelSafe(s, id);
  }

  /**
   Once Stop has finished, a channel it did not close stays open in every continuation: the
   reader of a client that subscribes after Stop is never ended by the broker.
   */
  lemma {:induction false} LateChannelStaysOpen(s: State, run: seq<Step>, id: nat)
    requires Feasible(s, run) && s.stop.Done? && !s.lock.Stopping?
    requires id in s.clients ==> !s.clients[id].closed
    ensures After(s, run).stop.Done? && !After(s, run).lock.Stopping?
    ensures id in After(s, run).clients ==> !After(s, run).clients[id].closed
    ensures SeeClosed(id) !in run
    decreases |run|
  {
    if run != [] {
      LateChannelStaysOpen(Apply(s, run[0]), run[1..], id);
      assert run == [run[0]] + run[1..];
    }
  }

  // ---------- Exactly whom Stop ends ----------

  /** From the moment Stop holds the lock, the channels it has closed are those of R it has come to. */
  ghost predicate StopCloses(s: State, R: set<nat>) {
    && (s.stop.Locked? || s.stop.Done?)
    && (s.lock.Stopping? <==> s.stop.Locked?)
    && (s.lock.Stopping? ==> s.registered == R && s.lock.todo <= R)
    && R <= s.clients.Keys
    && forall id | id in s.clients ::
         s.clients[id].closed <==> id in R && (s.lock.Stopping? ==> id !in s.lock.todo)
  }

  lemma LockStopCloses(s: State)
    requires Inv(s) && Enabled(s, LockStop)
    ensures StopCloses(Apply(s, LockStop), s.registered)
  {
    hide Conserved;
    assert forall id | id in s.clients :: ChannelSafe(s, id);
  }

  lemma StepStopCloses(s: State, a: Step, R: set<nat>)
    requires Enabled(s, a) && StopCloses(s, R)
    ensures StopCloses(Apply(s, a), R)
  {
    hide Frame, Preamble;
  }

  lemma {:induction false} RunStopCloses(s: State, run: seq<Step>, R: set<nat>)
    requires Feasible(s, run) && StopCloses(s, R)
    ensures StopCloses(After(s, run), R)
    decreases |run|
  {
    hide StopCloses, Enabled, Apply;
    if run != [] {
      StepStopCloses(s, run[0], R);
      RunStopCloses(Apply(s, run[0]), run[1..], R);
    }
  }

  lemma {:induction false} Split(s: State, before: seq<Step>, rest: seq<Step>)
    requires Feasible(s, before + rest)
    ensures Feasible(s, before) && Feasible(After(s, before), rest)
    ensures After(s, before + rest) == After(After(s, before), rest)
    decreases |before|
  {
    hide Enabled, Apply;
    if before == [] {
      assert before + rest == rest;
    } else {
      assert (before + rest)[1..] == before[1..] + rest;
      Split(Apply(s, before[0]), before[1..], rest);
    }
  }

  lemma DrainSeesClosed(id: nat, n: nat)
    ensures SeeClosed(id) in Drain(id, n)
  {
    if n > 0 { DrainSeesClosed(id, n - 1); }
  }

  /** Once Stop has finished, a reader can see the end of its channel exactly when the channel is closed. */
  lemma SeesEndIff(s: State, id: nat)
    requires Inv(s) && !s.panicked && s.stop.Done? && InPhase(s, id, Reading)
    ensures (exists run :: Feasible(s, run) && SeeClosed(id) in run) <==> s.clients[id].closed
  {
    hide Conserved, ChannelSafe, Kept, Response;
    if s.clients[id].closed {
      DrainEnds(s, id);
      DrainSeesClosed(id, |s.clients[id].buf|);
    } else if run :| Feasible(s, run) && SeeClosed(id) in run {
      LateChannelStaysOpen(s, run, id);
    }
  }

  /**
   Exactly whom Stop ends: after it has finished, the broker can end a reader if and only if its
   client was registered when Stop took the lock.
   */
  lemma EndedIffRegisteredAtStop(retryMs: int, before: seq<Step>, rest: seq<Step>, id: nat)
    requires Feasible(Init(retryMs), before) && Feasible(Init(retryMs), before + ([LockStop] + rest))
    requires var t := Reached(retryMs, before + ([LockStop] + rest));
             !t.panicked && t.stop.Done? && InPhase(t, id, Reading)
    ensures var t := Reached(retryMs, before + ([LockStop] + rest));
            (exists run :: Feasible(t, run) && SeeClosed(id) in run) <==> id in Reached(retryMs, before).registered
  {
    hide Inv, StopCloses, Apply, Enabled;
    var s0, tail := Init(retryMs), [LockStop] + rest;
    Split(s0, before, tail);
    var s := After(s0, before);
    InitInv(retryMs);
    RunInv(s0, before);
    RunInv(s0, before + tail);
    assert tail[0] == LockStop && tail[1..] == rest;
    LockStopCloses(s);
    RunStopCloses(Apply(s, LockStop), rest, s.registered);
    var t := After(s0, before + tail);
    SeesEndIff(t, id);
    ClosedWhenDone(t, s.registered, id);
  }

  lemma ClosedWhenDone(t: State, R: set<nat>, id: nat)
    requires StopCloses(t, R) && t.stop.Done? && id in t.clients
    ensures t.clients[id].closed <==> id in R
  {
  }

  // ---------- Who is registered ----------

  predicate InLoop(c: Client) { c.phase.Reading? || c.phase.Leaving? }

  predicate StopPending(s: State) { s.stop.NotCalled? || s.stop.Called? }

  /** Until Stop takes the lock, the registered clients are exactly those between Subscribe and Unsubscribe. */
  ghost predicate ReadersRegistered(s: State) {
    && s.registered <= s.clients.Keys
    && (StopPending(s) ==>
          !s.lock.Stopping? && forall id | id in s.clients :: InLoop(s.clients[id]) <==> id in s.registered)
  }

  lemma StepReaders(s: State, a: Step)
    requires Enabled(s, a) && ReadersRegistered(s)
    ensures ReadersRegistered(Apply(s, a))
  {
    hide Frame, Preamble;
  }

  lemma {:induction false} RunReaders(s: State, run: seq<Step>)
    requires Feasible(s, run) && ReadersRegistered(s)
    ensures ReadersRegistered(After(s, run))
    decreases |run|
  {
    hide Enabled, Apply, ReadersRegistered;
    if run != [] {
      StepReaders(s, run[0]);
      RunReaders(Apply(s, run[0]), run[1..]);
    }
  }

  /** In every reachable state before Stop takes the lock, a client is registered exactly while it is in its loop. */
  lemma ReaderIsRegistered(retryMs: int, run: seq<Step>, id: nat)
    requires Feasible(Init(retryMs), run) && id in Reached(retryMs, run).clients
    requires StopPending(Reached(retryMs, run))
    ensures InLoop(Reached(retryMs, run).clients[id]) <==> id in Reached(retryMs, run).registered
  {
    hide Feasible, After;
    assert ReadersRegistered(Init(retryMs));
    RunReaders(Init(retryMs), run);
  }

  /** The steps that end a client's subscription, or begin to end them all. */
  predicate EndsSubscription(a: Step, id: nat) {
    a in {Cancel(id), SeeClosed(id), Unsubscribe(id), LockStop}
  }

  predicate Subscribed(s: State, id: nat) {
    InPhase(s, id, Reading) && id in s.registered && StopPending(s) && !s.lock.Stopping?
  }

  lemma StaysSubscribed(s: State, a: Step, id: nat)
    requires Enabled(s, a) && Subscribed(s, id) && !EndsSubscription(a, id)
    ensures Subscribed(Apply(s, a), id)
  {
    hide Frame, Preamble;
  }

  lemma {:induction false} RunStaysSubscribed(s: State, run: seq<Step>, id: nat)
    requires Feasible(s, run) && Subscribed(s, id) && forall a | a in run :: !EndsSubscription(a, id)
    ensures Subscribed(After(s, run), id)
    decreases |run|
  {
    hide Enabled, Apply, Subscribed;
    if run != [] {
      StaysSubscribed(s, run[0], id);
      RunStaysSubscribed(Apply(s, run[0]), run[1..], id);
    }
  }

  /** The client's next offer, number i, is still to come in the broadcast of msg. */
  ghost predicate OfferDue(s: State, id: nat, i: nat, msg: Event) {
    && id in s.clients && |s.clients[id].offers| == i
    && s.lock.Broadcasting? && s.lock.msg == msg && id in s.lock.todo
  }

  ghost predicate OfferMade(s: State, id: nat, i: nat, msg: Event) {
    id in s.clients && i < |s.clients[id].offers| && s.clients[id].offers[i].msg == msg
  }

  lemma OfferStep(s: State, a: Step, id: nat, i: nat, msg: Event)
    requires Inv(s) && Enabled(s, a) && (OfferDue(s, id, i, msg) || OfferMade(s, id, i, msg))
    ensures OfferDue(Apply(s, a), id, i, msg) || OfferMade(Apply(s, a), id, i, msg)
    ensures a.Finish? || OfferMade(s, id, i, msg) ==> OfferMade(Apply(s, a), id, i, msg)
  {
    hide Conserved, Frame, Preamble;
    assert ChannelSafe(s, id);
  }

  lemma {:induction false} OfferRun(s: State, run: seq<Step>, id: nat, i: nat, msg: Event)
    requires Inv(s) && Feasible(s, run) && (OfferDue(s, id, i, msg) || OfferMade(s, id, i, msg))
    requires OfferMade(s, id, i, msg) || Finish in run
    ensures OfferMade(After(s, run), id, i, msg)
    decreases |run|
  {
    hide Inv, Enabled, Apply, OfferDue, OfferMade;
    if run != [] {
      StepInv(s, run[0]);
      OfferStep(s, run[0], id, i, msg);
      assert run == [run[0]] + run[1..];
      OfferRun(Apply(s, run[0]), run[1..], id, i, msg);
    }
  }

  lemma SubscribeRegisters(s: State, id: nat)
    requires Enabled(s, Subscribe(id)) && StopPending(s) && ReadersRegistered(s)
    ensures Subscribed(Apply(s, Subscribe(id)), id)
  {
  }

  lemma BeginOffers(s: State, id: nat, msg: Event)
    requires Enabled(s, Begin(msg)) && Subscribed(s, id)
    ensures OfferDue(Apply(s, Begin(msg)), id, |s.clients[id].offers|, msg)
  {
  }

  /**
   Delivery on the steps of a run: a broadcast that begins after a client subscribes, and before
   it cancels, sees the end or unsubscribes and before Stop takes the lock, is offered to that
   client by the time the broadcast finishes; if a slot is free then, the client gets it.
   */
  lemma SubscribedIsOffered(retryMs: int, before: seq<Step>, during: seq<Step>, msg: Event, rest: seq<Step>, id: nat)
    requires Feasible(Init(retryMs), before + ([Subscribe(id)] + (during + ([Begin(msg)] + rest))))
    requires Feasible(Init(retryMs), before) && StopPending(Reached(retryMs, before))
    requires (forall a | a in during :: !EndsSubscription(a, id)) && Finish in rest
    ensures var t := Reached(retryMs, before + ([Subscribe(id)] + (during + ([Begin(msg)] + rest))));
            && id in t.clients
            && var c := t.clients[id];
               && c.received <= |Kept(c.offers)|
               && exists i | 0 <= i < |c.offers| ::
                    c.offers[i].msg == msg && (c.offers[i].fill < 16 ==> msg in Received(c) + Buffered(c))
  {
    hide Inv, Enabled, Apply, Subscribed, ReadersRegistered, OfferDue, Kept, StopPending;
    var s0 := Init(retryMs);
    var tail3 := [Begin(msg)] + rest;
    var tail2 := during + tail3;
    var tail1 := [Subscribe(id)] + tail2;
    Split(s0, before, tail1);
    InitInv(retryMs);
    RunInv(s0, before);
    var s := After(s0, before);
    InitReaders(retryMs);
    RunReaders(s0, before);
    assert tail1[0] == Subscribe(id) && tail1[1..] == tail2;
    SubscribeRegisters(s, id);
    StepInv(s, Subscribe(id));
    var s1 := Apply(s, Subscribe(id));
    Split(s1, during, tail3);
    RunStaysSubscribed(s1, during, id);
    RunInv(s1, during);
    var s2 := After(s1, during);
    assert tail3[0] == Begin(msg) && tail3[1..] == rest;
    BeginOffers(s2, id, msg);
    StepInv(s2, Begin(msg));
    var i := OffersBefore(s2, id);
    OfferRun(Apply(s2, Begin(msg)), rest, id, i, msg);
    RunInv(Apply(s2, Begin(msg)), rest);
    OfferIsKept(After(Apply(s2, Begin(msg)), rest), id, i, msg);
  }

  lemma InitReaders(retryMs: int)
    ensures ReadersRegistered(Init(retryMs))
  {
  }

  lemma OffersBefore(s: State, id: nat) returns (i: nat)
    requires Subscribed(s, id)
    ensures id in s.clients && i == |s.clients[id].offers|
  {
    i := |s.clients[id].offers|;
  }

  lemma OfferIsKept(s: State, id: nat, i: nat, msg: Event)
    requires Inv(s) && OfferMade(s, id, i, msg)
    ensures var c := s.clients[id];
            && c.received <= |Kept(c.offers)|
            && (c.offers[i].fill < 16 ==> msg in Received(c) + Buffered(c))
  {
    hide Kept, FrameList, Response;
    var c := s.clients[id];
    assert Conserved(s, id);
    assert Received(c) + Buffered(c) == Kept(c.offers);
    if c.offers[i].fill < CAPACITY { KeptMember(c.offers, i); }
  }

  // ---------- Leaving ----------

  /** A reader whose request ends is unregistered by its own two steps as soon as the lock is free. */
  lemma CancelUnsubscribes(s: State, id: nat)
    requires !s.panicked && InPhase(s, id, Reading) && s.lock.Free?
    ensures var run := [Cancel(id)] + [Unsubscribe(id)];
            && Feasible(s, run) && id !in After(s, run).registered && InPhase(After(s, run), id, Gone)
            && After(s, run).registered == s.registered - {id}
  {
    var s1 := Apply(s, Cancel(id));
    var s2 := Apply(s1, Unsubscribe(id));
    var run := [Cancel(id)] + [Unsubscribe(id)];
    assert run[1..] == [Unsubscribe(id)] && [Unsubscribe(id)][1..] == [];
    assert After(s2, []) == s2;
  }

  lemma GoneStep(s: State, a: Step, id: nat)
    requires Inv(s) && Enabled(s, a) && InPhase(s, id, Gone)
    ensures id in Apply(s, a).clients && Apply(s, a).clients[id] == s.clients[id]
  {
    hide Conserved, Frame, Preamble;
    assert ChannelSafe(s, id);
  }

  /** A client that has left is offered and written nothing more, in any continuation. */
  lemma {:induction false} GoneIsFinal(s: State, run: seq<Step>, id: nat)
    requires Inv(s) && Feasible(s, run) && InPhase(s, id, Gone)
    ensures id in After(s, run).clients && After(s, run).clients[id] == s.clients[id]
    decreases |run|
  {
    hide Inv, Enabled, Apply;
    if run != [] {
      StepInv(s, run[0]);
      GoneStep(s, run[0], id);
      GoneIsFinal(Apply(s, run[0]), run[1..], id);
    }
  }

  // ---------- Nothing blocks ----------

  /** A broadcast needs no reader to make progress: its sends alone can be taken, and then the lock is free. */
  lemma {:induction false} BroadcastFinishes(s: State) returns (run: seq<Step>)
    requires Inv(s) && !s.panicked && s.lock.Broadcasting?
    ensures Feasible(s, run) && After(s, run).lock.Free? && !After(s, run).panicked
    ensures forall a | a in run :: a.Send? || a.Finish?
    decreases |s.lock.todo|
  {
    hide Conserved, Frame;
    if s.lock.todo == {} {
      run := [Finish];
      assert [Finish][1..] == [] && After(Apply(s, Finish), []) == Apply(s, Finish);
    } else {
      var id :| id in s.lock.todo;
      assert ChannelSafe(s, id);
      StepInv(s, Send(id));
      var t := Apply(s, Send(id));
      assert t.lock.todo == s.lock.todo - {id};
      var rest := BroadcastFinishes(t);
      run := [Send(id)] + rest;
      assert run[1..] == rest;
    }
  }

  /** Nor does Stop, once it has the lock. */
  lemma {:induction false} StopFinishes(s: State) returns (run: seq<Step>)
    requires Inv(s) && !s.panicked && s.lock.Stopping?
    ensures Feasible(s, run) && After(s, run).lock.Free? && After(s, run).stop.Done? && !After(s, run).panicked
    ensures forall a | a in run :: a.Close? || a.FinishStop?
    decreases |s.lock.todo|
  {
    hide Conserved, Frame;
    if s.lock.todo == {} {
      run := [FinishStop];
      assert [FinishStop][1..] == [] && After(Apply(s, FinishStop), []) == Apply(s, FinishStop);
    } else {
      var id :| id in s.lock.todo;
      assert ChannelSafe(s, id);
      StepInv(s, Close(id));
      var t := Apply(s, Close(id));
      assert t.lock.todo == s.lock.todo - {id};
      var rest := StopFinishes(t);
      run := [Close(id)] + rest;
      assert run[1..] == rest;
    }
  }

  // ---------- Everyone can come in ----------

  /** Whenever the lock is free a new client can connect and subscribe, also after Stop; its response has begun. */
  lemma ClientCanJoin(s: State, id: nat)
    requires !s.panicked && s.lock.Free? && id !in s.clients
    ensures var run := [Open(id)] + [Subscribe(id)];
            && Feasible(s, run) && InPhase(After(s, run), id, Reading)
            && After(s, run).registered == s.registered + {id}
            && After(s, run).clients[id].written == Preamble(s.retryMs)
            && After(s, run).clients[id].since == |s.log| && !After(s, run).clients[id].closed
  {
    hide Preamble;
    var s1 := Apply(s, Open(id));
    var s2 := Apply(s1, Subscribe(id));
    var run := [Open(id)] + [Subscribe(id)];
    assert run[0] == Open(id) && run[1..] == [Subscribe(id)] && [Subscribe(id)][1..] == [];
    assert Enabled(s, Open(id)) && Enabled(s1, Subscribe(id));
    assert Feasible(s1, [Subscribe(id)]) && After(s1, [Subscribe(id)]) == After(s2, []) == s2;
  }

  /** Stop can be called at any time, and takes the lock when it is free. */
  lemma StopCanRun(s: State)
    requires !s.panicked && s.lock.Free? && s.stop.NotCalled?
    ensures var run := [CallStop] + [LockStop];
            && Feasible(s, run) && After(s, run).lock == Stopping(s.registered) && !After(s, run).panicked
  {
    var s1 := Apply(s, CallStop);
    var s2 := Apply(s1, LockStop);
    var run := [CallStop] + [LockStop];
    assert run[1..] == [LockStop] && [LockStop][1..] == [];
    assert After(s2, []) == s2;
  }
}
