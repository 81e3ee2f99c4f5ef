/**
 * The adaptive rate limiter: a pool of permits and a minimum spacing between the moments
 * requests are let through. Time is a monotonic clock in nanoseconds passed in by the caller; a
 * sleep is modelled by its effect, a later clock reading.
 */
module RateLimiter {
  import opened Wrappers

  const Millisecond: nat := 1_000_000
  const Second: nat := 1_000_000_000

  /**
   * `min_delay` in milliseconds: 1000 / rps by integer division, and 100 when rps is 0. It is the
   * largest whole number of milliseconds that fits `rps` times into a second, so it is 0 from
   * 1001 requests per second up.
   */
  function MinDelayMs(rps: nat): (ms: nat)
    ensures rps > 0 ==> ms * rps <= 1000 < (ms + 1) * rps
    ensures rps == 0 ==> ms == 100
  {
    if rps > 0 then 1000 / rps else 100
  }

  /** `requests_per_second.max(1)`: the pool always has a permit. */
  function Permits(rps: nat): (p: nat)
    ensures p >= 1 && p >= rps
  {
    if rps > 1 then rps else 1
  }

  /** `Instant::elapsed`: time since `t`, saturating at zero. */
  function Age(now: nat, t: nat): nat {
    if now >= t then now - t else 0
  }

  /** Consecutive moments are at least `gap` apart. */
  predicate Spaced(times: seq<nat>, gap: nat) {
    forall i | 0 < i < |times| :: times[i - 1] + gap <= times[i]
  }

  lemma {:induction false} SpacedSpan(times: seq<nat>, gap: nat, i: nat)
    requires Spaced(times, gap) && i < |times|
    ensures times[0] + i * gap <= times[i]
  {
    if i > 0 {
      SpacedSpan(times, gap, i - 1);
    }
  }

  class RateLimiter {
    /** Minimum spacing between two let-through moments, in nanoseconds. */
    const minDelay: nat
    const capacity: nat
    const adaptive: bool
    var available: nat
    var lastRequest: nat
    /** The construction time followed by every moment a request was let through. */
    ghost var history: seq<nat>

    ghost predicate Valid()
      reads this
    {
      available <= capacity
      && |history| > 0 && history[|history| - 1] == lastRequest
      && Spaced(history, minDelay)
    }

    /** `RateLimiter::new`, at clock time `now`. */
    constructor (rps: nat, adaptive: bool, now: nat)
      ensures Valid()
      ensures minDelay == MinDelayMs(rps) * Millisecond
      ensures capacity == Permits(rps) && available == capacity
      ensures this.adaptive == adaptive && lastRequest == now && history == [now]
    {
      minDelay := MinDelayMs(rps) * Millisecond;
      capacity := Permits(rps);
      available := Permits(rps);
      this.adaptive := adaptive;
      lastRequest := now;
      history := [now];
    }

    /**
     * `acquire`, called at clock time `now`. With no permit free the caller would block until a
     * guard is dropped: the model reports None. Otherwise the permit is taken and, when the last
     * let-through moment is less than `minDelay` ago, the caller sleeps for the rest;
     * `extra` is whatever the sleep and the lock add on top. The moment returned becomes
     * `lastRequest`, and it is at least `minDelay` after the previous one.
     */
    method Acquire(now: nat, extra: nat) returns (start: Option<nat>)
      requires Valid() && now >= lastRequest
      modifies this
      ensures Valid()
      ensures old(available) == 0 ==>
        (start.None? && available == 0 && lastRequest == old(lastRequest) && history == old(history))
      ensures old(available) > 0 ==>
        (start.Some? && available == old(available) - 1
         && start.value >= now && start.value >= old(lastRequest) + minDelay
         && start.value == (if now - old(lastRequest) < minDelay then old(lastRequest) + minDelay else now) + extra
         && lastRequest == start.value && history == old(history) + [start.value])
    {
      if available == 0 {
        return None;
      }
      available := available - 1;
      var elapsed := Age(now, lastRequest);
      var moment := now;
      if elapsed < minDelay {
        moment := now + (minDelay - elapsed);
      }
      moment := moment + extra;
      lastRequest := moment;
      history := history + [moment];
      return Some(moment);
    }

    /** Dropping the guard returns its permit. */
    method Release()
      requires Valid() && available < capacity
      modifies this
      ensures Valid()
      ensures available == old(available) + 1 && lastRequest == old(lastRequest) && history == old(history)
    {
      available := available + 1;
    }

    /**
     * `adapt`: how long the caller sleeps after a response; no field changes. Nothing when not
     * adaptive; two seconds after status 429 or any status from 500; half a second after a
     * response that took more than five seconds; nothing otherwise.
     */
    function Backoff(responseTime: nat, status: nat): (wait: nat)
      reads this
      ensures !adaptive ==> wait == 0
      ensures adaptive && (status == 429 || status >= 500) ==> wait == 2 * Second
      ensures adaptive && !(status == 429 || status >= 500) ==>
        wait == (if responseTime > 5 * Second then 500 * Millisecond else 0)
    {
      if !adaptive then 0
      else if status == 429 || status >= 500 then 2 * Second
      else if responseTime > 5 * Second then 500 * Millisecond
      else 0
    }
  }

  /** `RateLimiterPresets`: requests per second and adaptivity. */
  datatype Preset = Preset(rps: nat, adaptive: bool)

  function Fast(): Preset { Preset(100, false) }
  function Balanced(): Preset { Preset(20, true) }
  function Stealth(): Preset { Preset(2, true) }
  function Custom(rps: nat): Preset { Preset(rps, true) }

  /** The presets space requests 10 ms, 50 ms and 500 ms apart. */
  lemma PresetDelays()
    ensures MinDelayMs(Fast().rps) == 10 && !Fast().adaptive
    ensures MinDelayMs(Balanced().rps) == 50 && Balanced().adaptive
    ensures MinDelayMs(Stealth().rps) == 500 && Stealth().adaptive
    ensures forall r: nat :: Custom(r).adaptive
  {
  }

  /**
   * The source's timing test: at 10 requests per second, five acquisitions (each guard dropped
   * before the next) take at least 400 ms from a start taken after construction. `gaps[i]` is the
   * time the caller spends before the i-th acquisition (and `gaps[5]` before reading the clock
   * at the end); `extras[i]` is the oversleep of the i-th.
   */
  method FiveAcquisitions(created: nat, testStart: nat, gaps: seq<nat>, extras: seq<nat>)
    returns (elapsed: nat)
    requires created <= testStart
    requires |gaps| == 6 && |extras| == 5
    ensures elapsed >= 400 * Millisecond
  {
    var limiter := new RateLimiter(10, false, created);
    assert limiter.minDelay == 100 * Millisecond;
    var clock := testStart + gaps[0];
    var firstStart := 0;
    var i := 0;
    while i < 5
      invariant 0 <= i <= 5
      invariant limiter.Valid() && limiter.available == limiter.capacity == 10
      invariant limiter.minDelay == 100 * Millisecond
      invariant clock >= limiter.lastRequest
      invariant i == 0 ==> clock >= testStart && limiter.history == [created]
      invariant i > 0 ==> |limiter.history| == i + 1 && firstStart == limiter.history[1] >= testStart
      invariant i > 0 ==> limiter.lastRequest == limiter.history[i]
    {
      var start := limiter.Acquire(clock, extras[i]);
      if i == 0 {
        firstStart := start.value;
      }
      limiter.Release();
      clock := start.value + gaps[i + 1];
      i := i + 1;
    }
    var h := limiter.history;
    SpacedSpan(h[1..], limiter.minDelay, 4);
    elapsed := clock - testStart;
  }
}
