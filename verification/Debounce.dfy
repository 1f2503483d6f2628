/** The page's debounce helper: one timer, restarted by every call. */
module Debounce {
  import opened Text

  datatype Timer<A> = Timer(arg: A, due: int)

  /**
   The id in the variable `timer`, the browser's pending timers by id, the next id, and (history)
   the calls of the wrapped function.
   */
  datatype View<A> = View(timer: Option<nat>, pending: map<nat, Timer<A>>, next: nat, calls: seq<A>)

  function Called<A>(v: View<A>, arg: A, now: int, delay: nat): View<A> {
    var cleared := if v.timer.Some? then v.pending - {v.timer.value} else v.pending;
    View(Some(v.next), cleared[v.next := Timer(arg, now + delay)], v.next + 1, v.calls)
  }

  function Fired<A>(v: View<A>, id: nat): View<A>
    requires id in v.pending
  {
    v.(pending := v.pending - {id}, calls := v.calls + [v.pending[id].arg])
  }

  class Debounced<A> {
    const delay: nat
    var timer: Option<nat>
    var pending: map<nat, Timer<A>>
    var next: nat
    ghost var calls: seq<A>

    constructor (delay: nat)
      ensures this.delay == delay && Current() == View(None, map[], 0, [])
    {
      this.delay, timer, pending, next, calls := delay, None, map[], 0, [];
    }

    ghost function Current(): View<A>
      reads this
    {
      View(timer, pending, next, calls)
    }

    method Call(arg: A, now: int)
      modifies this
      ensures Current() == Called(old(Current()), arg, now, delay)
    {
      if timer.Some? {
        pending := pending - {timer.value};
      }
      timer := Some(next);
      pending := pending[next := Timer(arg, now + delay)];
      next := next + 1;
    }

    /** The browser runs a timer that is due. */
    method OnTimer(id: nat) returns (arg: A)
      requires id in pending
      modifies this
      ensures arg == old(pending[id].arg) && Current() == Fired(old(Current()), id)
    {
      arg := pending[id].arg;
      pending := pending - {id};
      calls := calls + [arg];
    }
  }

  // ---------- Runs ----------

  datatype Step<A> = Input(arg: A, at: int) | Run(id: nat, at: int)

  datatype State<A> = State(view: View<A>, now: int)

  function Init<A>(start: int): State<A> { State(View(None, map[], 0, []), start) }

  predicate Enabled<A>(s: State<A>, a: Step<A>) {
    && s.now <= a.at
    && (a.Run? ==> a.id in s.view.pending && s.view.pending[a.id].due <= a.at)
  }

  function Apply<A>(s: State<A>, a: Step<A>, delay: nat): State<A>
    requires Enabled(s, a)
  {
    match a
    case Input(arg, at) => State(Called(s.view, arg, at, delay), at)
    case Run(id, at) => State(Fired(s.view, id), at)
  }

  predicate Feasible<A>(start: int, delay: nat, run: seq<Step<A>>)
    decreases |run|, 0
  {
    run == [] || (Feasible(start, delay, run[..|run| - 1])
                  && Enabled(After(start, delay, run[..|run| - 1]), run[|run| - 1]))
  }

  function After<A>(start: int, delay: nat, run: seq<Step<A>>): State<A>
    requires Feasible(start, delay, run)
    decreases |run|, 1
  {
    if run == [] then Init(start) else Apply(After(start, delay, run[..|run| - 1]), run[|run| - 1], delay)
  }

  /** The inputs that are directly followed by a run of the timer. */
  function Settled<A>(run: seq<Step<A>>): seq<A> {
    if |run| < 2 then []
    else
      var input, last := run[|run| - 2], run[|run| - 1];
      Settled(run[..|run| - 1]) + (if last.Run? && input.Input? then [input.arg] else [])
  }

  ghost predicate Inv<A>(delay: nat, run: seq<Step<A>>, v: View<A>) {
    && (v.timer.Some? ==> v.timer.value < v.next)
    && v.calls == Settled(run)
    && if run != [] && run[|run| - 1].Input? then
         var input := run[|run| - 1];
         v.timer.Some? && v.pending == map[v.timer.value := Timer(input.arg, input.at + delay)]
       else v.pending == map[]
  }

  lemma {:induction false} RunInv<A>(start: int, delay: nat, run: seq<Step<A>>)
    requires Feasible(start, delay, run)
    ensures Inv(delay, run, After(start, delay, run).view)
  {
    if run != [] {
      var init, last := run[..|run| - 1], run[|run| - 1];
      RunInv(start, delay, init);
      var v := After(start, delay, init).view;
      if last.Input? {
        assert Settled(run) == Settled(init);
      } else {
        assert init != [] && init[|init| - 1] == run[|run| - 2];
        assert v.pending - {last.id} == map[];
      }
    }
  }

  /**
   Whatever the user and the clock do, the wrapped function is called for exactly those inputs
   that no further input followed before their timer ran, in order.
   */
  lemma CallsAreSettledInputs<A>(start: int, delay: nat, run: seq<Step<A>>)
    requires Feasible(start, delay, run)
    ensures After(start, delay, run).view.calls == Settled(run)
    ensures |After(start, delay, run).view.pending| <= 1
  {
    RunInv(start, delay, run);
  }

  /** A timer only ever runs directly after an input, at least the whole delay later. */
  lemma RunsAfterQuiet<A>(start: int, delay: nat, run: seq<Step<A>>, id: nat, at: int)
    requires Feasible(start, delay, run + [Run(id, at)])
    ensures run != [] && run[|run| - 1].Input? && at >= run[|run| - 1].at + delay
  {
    assert (run + [Run(id, at)])[..|run|] == run;
    RunInv(start, delay, run);
  }

  /** An input that is left alone is called for: its timer can run at any moment from the delay on. */
  lemma QuietInputRuns<A>(start: int, delay: nat, run: seq<Step<A>>, arg: A, t: int, at: int)
    requires Feasible(start, delay, run + [Input(arg, t)]) && at >= t + delay
    ensures var before := run + [Input(arg, t)];
            && After(start, delay, before).view.timer.Some?
            && Feasible(start, delay, before + [Run(After(start, delay, before).view.timer.value, at)])
  {
    var before := run + [Input(arg, t)];
    RunInv(start, delay, before);
    var last := Run(After(start, delay, before).view.timer.value, at);
    assert (before + [last])[..|before|] == before;
  }
}
