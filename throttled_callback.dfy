/**
 * The throttled callback: a wrapper around a callback that remembers the time and result of
 * its last real invocation and, for calls made less than `delay` after it, returns that result
 * without invoking the callback again.
 *
 * The clock is an explicit `now` argument; the callback is a function from its arguments to
 * its result.
 */
module ThrottledCallback {
  import opened Wrappers

  /** The delay used when the caller gives none. */
  const DefaultDelay: int := 1000

  /** The delay in effect for an optional `delay` argument. */
  function EffectiveDelay(delay: Option<int>): (d: int)
    ensures delay.None? ==> d == DefaultDelay
    ensures delay.Some? ==> d == delay.value
  {
    delay.GetOr(DefaultDelay)
  }

  /** The contents of the cache: when the callback last ran and what it returned. */
  datatype Cached<R> = Cached(time: int, value: R)

  /** Whether a call at `now` is answered from the cache: there is one and it is younger than `delay`. */
  predicate Suppressed<R>(cache: Option<Cached<R>>, now: int, delay: int) {
    cache.Some? && cache.value.time > now - delay
  }

  /** What one call leaves behind: the new cache, the value returned and whether the callback ran. */
  datatype Outcome<R> = Outcome(cache: Cached<R>, result: R, invoked: bool)

  /** One call of the throttled function with `args` at time `now`. */
  function Step<A, R>(cache: Option<Cached<R>>, callback: A -> R, delay: int, args: A, now: int): (o: Outcome<R>)
    ensures o.result == o.cache.value
    ensures cache.None? ==> o.invoked
    ensures o.invoked <==> cache.None? || now >= cache.value.time + delay
    ensures !o.invoked ==> cache == Some(o.cache)
    ensures o.invoked ==> o.cache == Cached(now, callback(args))
  {
    if Suppressed(cache, now, delay) then Outcome(cache.value, cache.value.value, false)
    else
      var value := callback(args);
      Outcome(Cached(now, value), value, true)
  }

  /** The times at which the callback really runs over a sequence of `(args, now)` calls. */
  function InvocationTimes<A, R>(cache: Option<Cached<R>>, callback: A -> R, delay: int,
                                 calls: seq<(A, int)>): seq<int>
    decreases |calls|
  {
    if calls == [] then []
    else
      var o := Step(cache, callback, delay, calls[0].0, calls[0].1);
      (if o.invoked then [calls[0].1] else []) + InvocationTimes(Some(o.cache), callback, delay, calls[1..])
  }

  /** Each time in `ts` is at least `delay` after the one before it. */
  predicate SpacedBy(ts: seq<int>, delay: int) {
    forall i :: 0 <= i < |ts| - 1 ==> ts[i] + delay <= ts[i + 1]
  }

  lemma ConsSpaced(t: int, rest: seq<int>, delay: int)
    requires SpacedBy(rest, delay)
    requires |rest| > 0 ==> t + delay <= rest[0]
    ensures SpacedBy([t] + rest, delay)
  {
    var ts := [t] + rest;
    forall i | 0 <= i < |ts| - 1
      ensures ts[i] + delay <= ts[i + 1]
    {
      if i > 0 {
        assert ts[i] == rest[i - 1] && ts[i + 1] == rest[i];
      }
    }
  }

  /**
   * Whatever the order of the call times, two consecutive real invocations are at least `delay`
   * apart, and the first one is at least `delay` after the time already cached.
   */
  lemma {:induction false} InvocationsSpaced<A, R>(cache: Option<Cached<R>>, callback: A -> R, delay: int,
                                                    calls: seq<(A, int)>)
    ensures var ts := InvocationTimes(cache, callback, delay, calls);
            && (cache.Some? && |ts| > 0 ==> ts[0] >= cache.value.time + delay)
            && SpacedBy(ts, delay)
    decreases |calls|
  {
    if calls != [] {
      var now := calls[0].1;
      var o := Step(cache, callback, delay, calls[0].0, now);
      InvocationsSpaced(Some(o.cache), callback, delay, calls[1..]);
      var rest := InvocationTimes(Some(o.cache), callback, delay, calls[1..]);
      var ts := InvocationTimes(cache, callback, delay, calls);
      assert ts == (if o.invoked then [now] else []) + rest;
      if o.invoked {
        assert o.cache.time == now;
        ConsSpaced(now, rest, delay);
      } else {
        assert ts == rest && Some(o.cache) == cache;
      }
    }
  }

  /** Calls made before the cached time plus `delay` never run the callback and all return the cached value. */
  lemma {:induction false} QuietWindow<A, R>(c: Cached<R>, callback: A -> R, delay: int, calls: seq<(A, int)>)
    requires forall i :: 0 <= i < |calls| ==> calls[i].1 < c.time + delay
    ensures InvocationTimes(Some(c), callback, delay, calls) == []
    ensures forall i :: 0 <= i < |calls| ==> Step(Some(c), callback, delay, calls[i].0, calls[i].1).result == c.value
  {
    if calls != [] {
      assert Step(Some(c), callback, delay, calls[0].0, calls[0].1).cache == c;
      QuietWindow(c, callback, delay, calls[1..]);
    }
  }

  /** The hook's `memoized` function together with the ref that holds its cache. */
  class Throttled<A, R> {
    const callback: A -> R
    const delay: int
    /** `cachedRef.current`: `None` until the first call. */
    var cache: Option<Cached<R>>
    /** How many times the callback has really run. */
    ghost var invocations: nat

    constructor (callback: A -> R, delay: Option<int>)
      ensures this.callback == callback && this.delay == EffectiveDelay(delay)
      ensures cache == None && invocations == 0
    {
      this.callback := callback;
      this.delay := EffectiveDelay(delay);
      cache := None;
      invocations := 0;
    }

    /** One call of the throttled function at time `now`. */
    method Call(args: A, now: int) returns (r: R)
      modifies this
      ensures var o := Step(old(cache), callback, delay, args, now);
              && r == o.result
              && cache == Some(o.cache)
              && invocations == old(invocations) + (if o.invoked then 1 else 0)
      ensures Suppressed(old(cache), now, delay) ==> cache == old(cache) && r == old(cache).value.value
      ensures !Suppressed(old(cache), now, delay) ==> cache == Some(Cached(now, callback(args)))
      ensures cache.Some? && cache.value.value == r
    {
      var cached := cache;
      if cached.Some? && cached.value.time > now - delay {
        return cached.value.value;
      }
      cache := Some(Cached(now, callback(args)));
      invocations := invocations + 1;
      r := cache.value.value;
    }
  }
}
