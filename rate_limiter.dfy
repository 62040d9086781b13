/**
 * The fixed-window rate limiter of `server/helpers/rate_limiter.py`. The
 * module-level store maps a key to the request count of its current window
 * and the time that window started. The clock is a parameter (`now`), in
 * seconds as `time.time()` gives them.
 */
module RateLimiter {
  import opened Wrappers

  /** A stored `(count, window_start)` pair. */
  datatype Window = Window(count: int, start: real)

  type Store = map<string, Window>

  /** The outcome of one `rate_limit` call: whether it is allowed and the store after it. */
  datatype Decision = Decision(allowed: bool, store: Store)

  /** The three response headers, before string formatting. */
  datatype Headers = Headers(limit: int, remaining: int, resetAt: real)

  /** The window a call at `now` is counted in: a missing key starts at `(0, now)`, an expired window restarts. */
  function Current(store: Store, key: string, windowSeconds: int, now: real): (w: Window)
    ensures key !in store ==> w == Window(0, now)
    ensures key in store && now - store[key].start > windowSeconds as real ==> w == Window(0, now)
    ensures key in store && now - store[key].start <= windowSeconds as real ==> w == store[key]
  {
    var w := if key in store then store[key] else Window(0, now);
    if now - w.start > windowSeconds as real then Window(0, now) else w
  }

  /** `rate_limit(key, max_requests, window_seconds)` at time `now`. */
  function RateLimit(store: Store, key: string, maxRequests: int, windowSeconds: int, now: real): (d: Decision)
    ensures d.allowed <==> Current(store, key, windowSeconds, now).count < maxRequests
    ensures !d.allowed ==> d.store == store
    ensures d.allowed ==> d.store.Keys == store.Keys + {key}
    ensures d.allowed ==> forall k :: k in store && k != key ==> d.store[k] == store[k]
    ensures d.allowed ==>
      d.store[key] == Window(Current(store, key, windowSeconds, now).count + 1, Current(store, key, windowSeconds, now).start)
  {
    var w := Current(store, key, windowSeconds, now);
    if w.count >= maxRequests then Decision(false, store)
    else Decision(true, store[key := Window(w.count + 1, w.start)])
  }

  /** Every stored count lies in `[1, maxRequests]`. */
  predicate Bounded(store: Store, maxRequests: int) {
    forall k :: k in store ==> 1 <= store[k].count <= maxRequests
  }

  /** Used with one limit throughout, the limiter keeps every stored count within `[1, maxRequests]`. */
  lemma {:induction false} RateLimitBounded(store: Store, key: string, maxRequests: int, windowSeconds: int, now: real)
    requires Bounded(store, maxRequests)
    ensures Bounded(RateLimit(store, key, maxRequests, windowSeconds, now).store, maxRequests)
  {
    var d := RateLimit(store, key, maxRequests, windowSeconds, now);
    var w := Current(store, key, windowSeconds, now);
    if d.allowed {
      assert 0 <= w.count;
      forall k | k in d.store
        ensures 1 <= d.store[k].count <= maxRequests
      {
        if k != key {
          assert d.store[k] == store[k];
        }
      }
    }
  }

  /**
   * A limit of zero or less refuses every call on a store whose counts are
   * all at least one, and leaves the store as it was. Every store that
   * `RateLimit` builds from the empty one has such counts (`RateLimitBounded`).
   */
  lemma {:induction false} NonPositiveLimitRefuses(store: Store, key: string, maxRequests: int, windowSeconds: int, now: real)
    requires maxRequests <= 0
    requires forall k :: k in store ==> store[k].count >= 1
    ensures RateLimit(store, key, maxRequests, windowSeconds, now) == Decision(false, store)
  {
    var w := Current(store, key, windowSeconds, now);
    if key in store && now - store[key].start <= windowSeconds as real {
      assert w == store[key];
    }
  }

  /** The number of calls allowed among a run of calls for one key at the given times. */
  function AllowedCalls(store: Store, key: string, maxRequests: int, windowSeconds: int, times: seq<real>): nat
    decreases |times|
  {
    if times == [] then 0
    else
      var d := RateLimit(store, key, maxRequests, windowSeconds, times[0]);
      (if d.allowed then 1 else 0) + AllowedCalls(d.store, key, maxRequests, windowSeconds, times[1..])
  }

  /**
   * Within one window no more than `maxRequests` calls are allowed: when the
   * key's window started at `start` with `count` calls already counted, and
   * every later call falls within `windowSeconds` of that start, at most
   * `maxRequests - count` of them pass.
   */
  lemma {:induction false} WindowAllowsAtMost(store: Store, key: string, maxRequests: int, windowSeconds: int, times: seq<real>)
    requires key in store && 0 <= store[key].count <= maxRequests
    requires forall i :: 0 <= i < |times| ==> times[i] - store[key].start <= windowSeconds as real
    ensures AllowedCalls(store, key, maxRequests, windowSeconds, times) <= maxRequests - store[key].count
    decreases |times|
  {
    if times != [] {
      var d := RateLimit(store, key, maxRequests, windowSeconds, times[0]);
      assert Current(store, key, windowSeconds, times[0]) == store[key];
      assert forall i :: 0 <= i < |times[1..]| ==> times[1..][i] == times[i + 1];
      if d.allowed {
        assert d.store[key] == Window(store[key].count + 1, store[key].start);
        WindowAllowsAtMost(d.store, key, maxRequests, windowSeconds, times[1..]);
      } else {
        assert store[key].count == maxRequests;
        WindowAllowsAtMost(d.store, key, maxRequests, windowSeconds, times[1..]);
      }
    }
  }

  /** `get_rate_limit_headers`: the limit, the remaining requests and the time the stored window ends. */
  function RateLimitHeaders(store: Store, key: string, maxRequests: int, windowSeconds: int, now: real): (h: Headers)
    ensures h.limit == maxRequests
    ensures key in store ==> h.remaining == if maxRequests - store[key].count > 0 then maxRequests - store[key].count else 0
    ensures key !in store ==> h.remaining == if maxRequests > 0 then maxRequests else 0
    ensures h.remaining >= 0
    ensures key in store ==> h.resetAt == store[key].start + windowSeconds as real
    ensures key !in store ==> h.resetAt == now + windowSeconds as real
  {
    var w := if key in store then store[key] else Window(0, now);
    Headers(maxRequests, if maxRequests - w.count > 0 then maxRequests - w.count else 0, w.start + windowSeconds as real)
  }

  /** The limit `check_rate_limit` applies: `rate_limit`'s defaults of five requests a minute. */
  const DefaultMaxRequests := 5
  const DefaultWindowSeconds := 60

  /** The key `check_rate_limit` counts a request under: the prefix, a colon and the client's address. */
  function RequestKey(keyPrefix: string, clientIp: string): string {
    keyPrefix + ":" + clientIp
  }

  /**
   * `check_rate_limit(request, key_prefix)` at time `now`: the store after the
   * call, and the headers of the 429 error it raises when the call is refused.
   */
  function CheckRateLimit(store: Store, keyPrefix: string, clientIp: string, now: real): (r: (Store, Option<Headers>))
    ensures r.1.None? <==> RateLimit(store, RequestKey(keyPrefix, clientIp), DefaultMaxRequests, DefaultWindowSeconds, now).allowed
  {
    var key := RequestKey(keyPrefix, clientIp);
    var d := RateLimit(store, key, DefaultMaxRequests, DefaultWindowSeconds, now);
    if d.allowed then (d.store, None)
    else (d.store, Some(RateLimitHeaders(d.store, key, DefaultMaxRequests, DefaultWindowSeconds, now)))
  }

  /**
   * A refused request leaves the store alone and is told that nothing remains
   * of its window, which is the stored one and ends no earlier than `now`.
   */
  lemma {:induction false} RefusalHeaders(store: Store, keyPrefix: string, clientIp: string, now: real)
    requires CheckRateLimit(store, keyPrefix, clientIp, now).1.Some?
    ensures var key := RequestKey(keyPrefix, clientIp);
      var r := CheckRateLimit(store, keyPrefix, clientIp, now);
      && r.0 == store && key in store && store[key].count >= DefaultMaxRequests
      && r.1.value == Headers(DefaultMaxRequests, 0, store[key].start + DefaultWindowSeconds as real)
      && r.1.value.resetAt >= now
  {
    var key := RequestKey(keyPrefix, clientIp);
    var w := Current(store, key, DefaultWindowSeconds, now);
    assert w.count >= DefaultMaxRequests;
    assert key in store && now - store[key].start <= DefaultWindowSeconds as real;
  }

  /** The module-level `rate_limit_store`, which `rate_limit` reads and overwrites. */
  class RateLimitStore {
    var store: Store

    constructor()
      ensures store == map[]
    {
      store := map[];
    }

    /** `rate_limit`: counts the call in its window unless the window is full. */
    method Check(key: string, maxRequests: int, windowSeconds: int, now: real) returns (allowed: bool)
      modifies this
      ensures allowed == RateLimit(old(store), key, maxRequests, windowSeconds, now).allowed
      ensures store == RateLimit(old(store), key, maxRequests, windowSeconds, now).store
    {
      var count, windowStart := 0, now;
      if key in store {
        count, windowStart := store[key].count, store[key].start;
      }
      if now - windowStart > windowSeconds as real {
        count, windowStart := 0, now;
      }
      if count >= maxRequests {
        return false;
      }
      count := count + 1;
      store := store[key := Window(count, windowStart)];
      return true;
    }

    /** `check_rate_limit`: the call counted under the request's key, and the headers of the error raised when it is refused. */
    method CheckRequest(keyPrefix: string, clientIp: string, now: real) returns (refusal: Option<Headers>)
      modifies this
      ensures (store, refusal) == CheckRateLimit(old(store), keyPrefix, clientIp, now)
    {
      var key := keyPrefix + ":" + clientIp;
      var allowed := Check(key, DefaultMaxRequests, DefaultWindowSeconds, now);
      if allowed {
        refusal := None;
      } else {
        refusal := Some(RateLimitHeaders(store, key, DefaultMaxRequests, DefaultWindowSeconds, now));
      }
    }
  }
}
