/** The page's event source: reconnecting with exponential backoff, over every sequence of browser events. */
module Reconnect {
  const BASE_DELAY := 1000
  const MAX_DELAY := 30000

  function Pow2(k: nat): (p: nat)
    ensures p > 0
  {
    if k == 0 then 1 else 2 * Pow2(k - 1)
  }

  /** Milliseconds to wait after k earlier errors in a row. */
  function Delay(k: nat): nat {
    if BASE_DELAY * Pow2(k) <= MAX_DELAY then BASE_DELAY * Pow2(k) else MAX_DELAY
  }

  /** Every event source made so far (true while it is not closed), and the pending connect timers' due times. */
  datatype View = View(sources: seq<bool>, attempts: nat, timers: seq<int>)

  const UNCONNECTED := View([], 0, [])

  /** Closing the current source and making a new one. */
  function Connected(v: View): View {
    v.(sources := (if v.sources == [] then [] else v.sources[..|v.sources| - 1] + [false]) + [true])
  }

  predicate Live(v: View) { v.sources != [] && v.sources[|v.sources| - 1] }

  class Connection {
    var sources: seq<bool>
    var reconnectAttempts: nat
    var timers: seq<int>

    function Current(): View
      reads this
    {
      View(sources, reconnectAttempts, timers)
    }

    constructor ()
      ensures Current() == Connected(UNCONNECTED)
    {
      sources, reconnectAttempts, timers := [], 0, [];
      new;
      Connect();
    }

    method Connect()
      modifies this
      ensures Current() == Connected(old(Current()))
    {
      if sources != [] {
        sources := sources[..|sources| - 1] + [false];
      }
      sources := sources + [true];
    }

    method OnOpen()
      requires Live(Current())
      modifies this
      ensures Current() == Opened(old(Current()))
    {
      reconnectAttempts := 0;
    }

    method OnError(now: int)
      requires Live(Current())
      modifies this
      ensures Current() == Failed(old(Current()), now)
    {
      sources := sources[..|sources| - 1] + [false];
      var delay := Delay(reconnectAttempts);
      reconnectAttempts := reconnectAttempts + 1;
      timers := timers + [now + delay];
    }

    /** The browser runs a timer that is due. */
    method OnTimer(i: nat)
      requires i < |timers|
      modifies this
      ensures Current() == Fired(old(Current()), i)
    {
      timers := timers[..i] + timers[i + 1..];
      Connect();
    }
  }

  function Opened(v: View): View { v.(attempts := 0) }

  function Failed(v: View, now: int): View
    requires v.sources != []
  {
    View(v.sources[..|v.sources| - 1] + [false], v.attempts + 1, v.timers + [now + Delay(v.attempts)])
  }

  function Fired(v: View, i: nat): View
    requires i < |v.timers|
  {
    Connected(v.(timers := v.timers[..i] + v.timers[i + 1..]))
  }

  // ---------- Runs ----------

  datatype Event = Open | Error | Timer(i: nat)

  datatype Step = Step(event: Event, at: int)

  /** The view with the clock and (history) the time of the last open, or of the start. */
  datatype State = State(view: View, now: int, calm: int)

  function Init(start: int): State { State(Connected(UNCONNECTED), start, start) }

  /** A closed source has no more events; a timer runs when it is due, or later. */
  predicate Enabled(s: State, a: Step) {
    && s.now <= a.at
    && match a.event
       case Open => Live(s.view)
       case Error => Live(s.view)
       case Timer(i) => i < |s.view.timers| && s.view.timers[i] <= a.at
  }

  function Apply(s: State, a: Step): State
    requires Enabled(s, a)
  {
    match a.event
    case Open => State(Opened(s.view), a.at, a.at)
    case Error => State(Failed(s.view, a.at), a.at, s.calm)
    case Timer(i) => State(Fired(s.view, i), a.at, s.calm)
  }

  predicate Feasible(s: State, run: seq<Step>)
    decreases |run|
  {
    run == [] || (Enabled(s, run[0]) && Feasible(Apply(s, run[0]), run[1..]))
  }

  function After(s: State, run: seq<Step>): State
    requires Feasible(s, run)
    decreases |run|
  {
    if run == [] then s else After(Apply(s, run[0]), run[1..])
  }

  /** The errors since the last open. */
  function Errors(run: seq<Step>): nat {
    if run == [] then 0
    else match run[|run| - 1].event
      case Open => 0
      case Error => Errors(run[..|run| - 1]) + 1
      case Timer(_) => Errors(run[..|run| - 1])
  }

  /** The least time that k errors in a row, each followed by a reconnect, take. */
  function Waited(k: nat): nat {
    if k == 0 then 0 else Waited(k - 1) + Delay(k - 1)
  }

  /** Only the newest source can be live, and then no timer is pending; otherwise exactly one is. */
  ghost predicate OneOf(v: View) {
    && v.sources != []
    && (forall i | 0 <= i < |v.sources| - 1 :: !v.sources[i])
    && |v.timers| == (if Live(v) then 0 else 1)
    && (!Live(v) ==> v.attempts > 0)
  }

  ghost predicate Inv(s: State) {
    && OneOf(s.view)
    && (if Live(s.view) then s.calm + Waited(s.view.attempts) <= s.now
        else s.calm + Waited(s.view.attempts) <= s.view.timers[0] <= s.now + Delay(s.view.attempts - 1))
  }

  lemma ErrorInv(s: State, a: Step)
    requires Inv(s) && Enabled(s, a) && a.event.Error?
    ensures Inv(Apply(s, a))
  {
    hide Delay;
    assert s.view.timers == [];
    assert Apply(s, a).view.timers == [a.at + Delay(s.view.attempts)];
  }

  lemma ErrorTimers(s: State, a: Step)
    requires Inv(s) && Enabled(s, a) && a.event.Error?
    ensures Apply(s, a).view.timers == [a.at + Delay(s.view.attempts)]
  {
    hide Delay, Waited;
    assert s.view.timers == [];
  }

  lemma TimerInv(s: State, a: Step)
    requires Inv(s) && Enabled(s, a) && a.event.Timer?
    ensures Inv(Apply(s, a))
  {
    hide Delay, Waited;
    assert !Live(s.view) && a.event.i == 0;
    assert Apply(s, a).view.timers == [];
  }

  lemma StepInv(s: State, a: Step)
    requires Inv(s) && Enabled(s, a)
    ensures Inv(Apply(s, a))
  {
    match a.event
    case Open => assert Apply(s, a).view.sources == s.view.sources;
    case Error => ErrorInv(s, a);
    case Timer(_) => TimerInv(s, a);
  }

  lemma InitInv(start: int)
    ensures Inv(Init(start))
  {
  }

  lemma {:induction false} RunInv(s: State, run: seq<Step>)
    requires Inv(s) && Feasible(s, run)
    ensures Inv(After(s, run))
    decreases |run|
  {
    hide Inv;
    if run != [] {
      StepInv(s, run[0]);
      RunInv(Apply(s, run[0]), run[1..]);
    }
  }

  lemma {:induction false} Split(s: State, run: seq<Step>, last: Step)
    requires Feasible(s, run + [last])
    ensures Feasible(s, run) && Enabled(After(s, run), last)
    ensures After(s, run + [last]) == Apply(After(s, run), last)
    decreases |run|
  {
    hide Enabled, Apply;
    if run == [] {
      assert run + [last] == [last] && [last][1..] == [];
    } else {
      assert (run + [last])[1..] == run[1..] + [last];
      Split(Apply(s, run[0]), run[1..], last);
    }
  }

  lemma {:induction false} AttemptsAreErrors(start: int, run: seq<Step>)
    requires Feasible(Init(start), run)
    ensures After(Init(start), run).view.attempts == Errors(run)
  {
    if run != [] {
      var init, last := run[..|run| - 1], run[|run| - 1];
      assert run == init + [last];
      Split(Init(start), init, last);
      AttemptsAreErrors(start, init);
    }
  }

  /**
   After any sequence of browser events there is exactly one of a live source and a pending
   timer, and no older source was left open.
   */
  lemma OneSourceOrTimer(start: int, run: seq<Step>)
    requires Feasible(Init(start), run)
    ensures OneOf(After(Init(start), run).view)
  {
    hide Feasible, After;
    RunInv(Init(start), run);
  }

  function Min(a: nat, b: nat): nat { if a < b then a else b }

  lemma DelayIs(k: nat)
    ensures Delay(k) == Min(1000 * Pow2(k), 30000)
  {
  }

  /**
   An error always schedules exactly one reconnect, min(1000 * 2^k, 30000) milliseconds later,
   where k counts the errors before it since the last open.
   */
  lemma ErrorSchedules(start: int, run: seq<Step>, at: int)
    requires Feasible(Init(start), run + [Step(Error, at)])
    ensures After(Init(start), run + [Step(Error, at)]).view.timers == [at + Min(1000 * Pow2(Errors(run)), 30000)]
  {
    hide Delay, Feasible, After, Waited, Errors, Min, Pow2;
    var last := Step(Error, at);
    Split(Init(start), run, last);
    AttemptsAreErrors(start, run);
    InitInv(start);
    RunInv(Init(start), run);
    ErrorTimers(After(Init(start), run), last);
    DelayIs(Errors(run));
  }

  /** With k errors since the last open the page has backed off for at least the sum of their delays. */
  lemma BackoffTakesTime(start: int, run: seq<Step>)
    requires Feasible(Init(start), run) && Live(After(Init(start), run).view)
    ensures var s := After(Init(start), run);
            s.calm + Waited(Errors(run)) <= s.now
  {
    RunInv(Init(start), run);
    AttemptsAreErrors(start, run);
  }

  /** The delay starts at a second, doubles five times and then stays at its maximum. */
  lemma DelaySteps(k: nat)
    ensures Delay(0) == 1000 && Delay(k + 1) == Min(2 * Delay(k), 30000)
    ensures Delay(k) == 30000 <==> k >= 5
  {
    assert Pow2(5) == 32 && Pow2(4) == 16;
    if k >= 5 { Pow2Monotone(5, k); } else { Pow2Monotone(k, 4); }
  }

  lemma {:induction false} Pow2Monotone(j: nat, k: nat)
    requires j <= k
    ensures Pow2(j) <= Pow2(k)
  {
    if j < k { Pow2Monotone(j, k - 1); }
  }

  /** Without a live source the one pending timer can run when it is due, and then a source is live again. */
  lemma TimerReconnects(start: int, run: seq<Step>)
    requires Feasible(Init(start), run) && !Live(After(Init(start), run).view)
    ensures var s := After(Init(start), run);
            && |s.view.timers| == 1
            && var a := Step(Timer(0), if s.now < s.view.timers[0] then s.view.timers[0] else s.now);
               Enabled(s, a) && Live(Apply(s, a).view) && Apply(s, a).view.attempts == s.view.attempts
  {
    hide Feasible, After, Waited, Delay;
    InitInv(start);
    RunInv(Init(start), run);
  }
}
