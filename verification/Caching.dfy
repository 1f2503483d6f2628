/**
 The TTL cache. Each operation runs under the cache's mutex and reads the clock inside it, so
 every operation is one atomic step with one time stamp; `now` is that reading.
 */
module Caching {
  import opened Text

  datatype Entry<+V> = Entry(value: V, expiresAt: int)

  type Items<V> = map<string, Entry<V>>

  function Lookup<V>(items: Items<V>, key: string, now: int): Option<V> {
    if key in items && now <= items[key].expiresAt then Some(items[key].value) else None
  }

  function WithEntry<V>(items: Items<V>, key: string, value: V, now: int, ttl: int): Items<V> {
    items[key := Entry(value, now + ttl)]
  }

  function Swept<V>(items: Items<V>, now: int): Items<V> {
    map k | k in items && now <= items[k].expiresAt :: items[k]
  }

  class Cache<V> {
    var items: Items<V>
    const ttl: int

    constructor (ttl: int)
      ensures items == map[] && this.ttl == ttl
    {
      items := map[];
      this.ttl := ttl;
    }

    method Get(key: string, now: int) returns (r: Option<V>)
      ensures r == Lookup(items, key, now)
    {
      if key !in items || now > items[key].expiresAt {
        return None;
      }
      return Some(items[key].value);
    }

    method Set(key: string, value: V, now: int)
      modifies this
      ensures items == WithEntry(old(items), key, value, now, ttl)
    {
      items := items[key := Entry(value, now + ttl)];
    }

    method Invalidate(key: string)
      modifies this
      ensures items == old(items) - {key}
    {
      items := items - {key};
    }

    method InvalidateAll()
      modifies this
      ensures items == map[]
    {
      items := map[];
    }

    /** One tick of the cleanup goroutine: afterwards nothing is expired, and no answer has changed. */
    method Sweep(now: int)
      modifies this
      ensures items == Swept(old(items), now)
      ensures forall k | k in items :: now <= items[k].expiresAt
      ensures forall k, t | t >= now :: Lookup(items, k, t) == Lookup(old(items), k, t)
    {
      var todo := items.Keys;
      while todo != {}
        invariant todo <= items.Keys <= old(items).Keys
        invariant forall k | k in items :: items[k] == old(items)[k]
        invariant forall k | k in items && k !in todo :: now <= items[k].expiresAt
        invariant forall k | k in old(items) && k !in items :: now > old(items)[k].expiresAt
        decreases todo
      {
        var k :| k in todo;
        todo := todo - {k};
        if now > items[k].expiresAt {
          items := items - {k};
        }
      }
    }
  }

  // ---------- Runs ----------

  datatype Op<+V> = Get(key: string) | Set(key: string, value: V) | Invalidate(key: string) | InvalidateAll | Sweep

  datatype Timed<+V> = Timed(op: Op<V>, now: int)

  function Effect<V>(items: Items<V>, t: Timed<V>, ttl: int): Items<V> {
    match t.op
    case Get(_) => items
    case Set(key, value) => WithEntry(items, key, value, t.now, ttl)
    case Invalidate(key) => items - {key}
    case InvalidateAll => map[]
    case Sweep => Swept(items, t.now)
  }

  /** The entries after the first n operations of a run that starts with an empty cache. */
  function After<V>(run: seq<Timed<V>>, n: nat, ttl: int): Items<V>
    requires n <= |run|
  {
    if n == 0 then map[] else Effect(After(run, n - 1, ttl), run[n - 1], ttl)
  }

  /** The same run on a cache that never deletes an expired entry. */
  function AfterUnswept<V>(run: seq<Timed<V>>, n: nat, ttl: int): Items<V>
    requires n <= |run|
  {
    if n == 0 then map[]
    else if run[n - 1].op.Sweep? then AfterUnswept(run, n - 1, ttl)
    else Effect(AfterUnswept(run, n - 1, ttl), run[n - 1], ttl)
  }

  ghost predicate Clocked<V>(run: seq<Timed<V>>) {
    forall i, j | 0 <= i <= j < |run| :: run[i].now <= run[j].now
  }

  /** The last Set of a key among the first n operations, if no invalidation of it came later. */
  function LastSet<V>(run: seq<Timed<V>>, n: nat, key: string): Option<Timed<V>>
    requires n <= |run|
  {
    if n == 0 then None
    else
      match run[n - 1].op
      case Set(k, _) => if k == key then Some(run[n - 1]) else LastSet(run, n - 1, key)
      case Invalidate(k) => if k == key then None else LastSet(run, n - 1, key)
      case InvalidateAll => None
      case _ => LastSet(run, n - 1, key)
  }

  /** What a Get at position n of the run must answer, from the history of calls alone. */
  function Expected<V>(run: seq<Timed<V>>, n: nat, key: string, ttl: int): Option<V>
    requires n < |run|
  {
    match LastSet(run, n, key)
    case Some(Timed(Set(_, value), at)) => if run[n].now <= at + ttl then Some(value) else None
    case _ => None
  }

  lemma {:induction false} LastSetIsSet<V>(run: seq<Timed<V>>, n: nat, key: string)
    requires n <= |run|
    ensures var s := LastSet(run, n, key); s.Some? ==> s.value.op.Set? && s.value.op.key == key
  {
    if n > 0 { LastSetIsSet(run, n - 1, key); }
  }

  lemma {:induction false} UnsweptHoldsLastSet<V>(run: seq<Timed<V>>, n: nat, key: string, ttl: int)
    requires n <= |run|
    ensures key in AfterUnswept(run, n, ttl) <==> LastSet(run, n, key).Some?
    ensures key in AfterUnswept(run, n, ttl) ==>
              var s := LastSet(run, n, key).value;
              s.op.Set? && AfterUnswept(run, n, ttl)[key] == Entry(s.op.value, s.now + ttl)
  {
    if n > 0 { UnsweptHoldsLastSet(run, n - 1, key, ttl); }
  }

  /** Sweeping removes only entries that are already expired at the latest operation. */
  lemma {:induction false} SweptAndUnswept<V>(run: seq<Timed<V>>, n: nat, ttl: int, key: string)
    requires n <= |run| && Clocked(run)
    ensures var e, l := After(run, n, ttl), AfterUnswept(run, n, ttl);
            && (key in e ==> key in l && l[key] == e[key])
            && (key in l && key !in e ==> n > 0 && l[key].expiresAt < run[n - 1].now)
  {
    if n > 0 {
      SweptAndUnswept(run, n - 1, ttl, key);
      assert n > 1 ==> run[n - 2].now <= run[n - 1].now;
    }
  }

  /**
   Refinement: with a clock that never goes back, every Get of every run answers the same with
   and without sweeps, and that answer is the last uninvalidated Set if it is at most ttl old.
   */
  lemma GetAnswers<V>(run: seq<Timed<V>>, n: nat, ttl: int)
    requires n < |run| && Clocked(run) && run[n].op.Get?
    ensures var key, now := run[n].op.key, run[n].now;
            && Lookup(After(run, n, ttl), key, now) == Lookup(AfterUnswept(run, n, ttl), key, now)
            && Lookup(After(run, n, ttl), key, now) == Expected(run, n, key, ttl)
  {
    var key := run[n].op.key;
    SweptAndUnswept(run, n, ttl, key);
    UnsweptHoldsLastSet(run, n, key, ttl);
    LastSetIsSet(run, n, key);
    assert n > 0 ==> run[n - 1].now <= run[n].now;
  }

  /** After a sweep every entry left is unexpired at the time of the sweep. */
  lemma SweepLeavesFresh<V>(run: seq<Timed<V>>, n: nat, ttl: int, key: string)
    requires 0 < n <= |run| && run[n - 1].op.Sweep? && key in After(run, n, ttl)
    ensures LastSet(run, n, key).Some? && run[n - 1].now <= LastSet(run, n, key).value.now + ttl
  {
    SweptEntryWasSet(run, n, ttl, key);
  }

  lemma {:induction false} SweptEntryWasSet<V>(run: seq<Timed<V>>, n: nat, ttl: int, key: string)
    requires n <= |run| && key in After(run, n, ttl)
    ensures LastSet(run, n, key).Some?
    ensures After(run, n, ttl)[key].expiresAt == LastSet(run, n, key).value.now + ttl
  {
    var t := run[n - 1];
    if t.op.Set? && t.op.key == key {
    } else {
      SweptEntryWasSet(run, n - 1, ttl, key);
    }
  }
}
