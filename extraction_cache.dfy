/**
 * The session cache of `server/services/extraction_cache_service.py`: extracted
 * items and sub-tables stored under a session id with an expiry time. The
 * clock is a parameter (`now`, seconds as `time.time()` gives them), a new
 * session id is supplied by the caller in place of `uuid.uuid4()`, and the
 * lock is left out because every operation is modelled as one sequential step.
 */
module ExtractionCache {
  import opened Wrappers
  import opened TenderSchema

  /** One cached session; `P` stands for the `extraction_params` dict. */
  datatype Entry<P> = Entry(
    pdfItems: seq<TenderItem>,
    excelItems: seq<TenderItem>,
    pdfSubtables: seq<SubtableItem>,
    excelSubtables: seq<SubtableItem>,
    params: P,
    createdAt: real,
    expiresAt: real,
    accessCount: nat,
    lastAccessed: real)

  /** The five fields `get_extraction_results` hands back. */
  datatype Payload<P> = Payload(
    pdfItems: seq<TenderItem>,
    excelItems: seq<TenderItem>,
    pdfSubtables: seq<SubtableItem>,
    excelSubtables: seq<SubtableItem>,
    params: P)

  datatype Stats = Stats(
    activeSessions: nat,
    expiredSessions: nat,
    totalSessions: nat,
    totalItemsCached: nat,
    totalSubtablesCached: nat)

  type Cache<P> = map<string, Entry<P>>

  /** An entry is expired strictly after its expiry time; at `expires_at` itself it is still valid. */
  predicate Expired<P>(e: Entry<P>, now: real) {
    now > e.expiresAt
  }

  function PayloadOf<P>(e: Entry<P>): Payload<P> {
    Payload(e.pdfItems, e.excelItems, e.pdfSubtables, e.excelSubtables, e.params)
  }

  /** The entry `store_extraction_results` writes at `now` with a time-to-live of `ttl` seconds. */
  function NewEntry<P>(pdfItems: seq<TenderItem>, excelItems: seq<TenderItem>, pdfSubtables: seq<SubtableItem>,
                       excelSubtables: seq<SubtableItem>, params: P, ttl: int, now: real): (e: Entry<P>)
    ensures PayloadOf(e) == Payload(pdfItems, excelItems, pdfSubtables, excelSubtables, params)
    ensures e.createdAt == now && e.lastAccessed == now && e.accessCount == 0
    ensures e.expiresAt - now == ttl as real
  {
    Entry(pdfItems, excelItems, pdfSubtables, excelSubtables, params, now, now + ttl as real, 0, now)
  }

  /** The result of `get_extraction_results` and the cache after it. */
  datatype Lookup<P> = Lookup(result: Option<Payload<P>>, cache: Cache<P>)

  /** `get_extraction_results(id)` at time `now`. */
  function Read<P>(cache: Cache<P>, id: string, now: real): (r: Lookup<P>)
    ensures id !in cache ==> r == Lookup(None, cache)
    ensures id in cache && Expired(cache[id], now) ==> r.result == None && r.cache == cache - {id}
    ensures id in cache && !Expired(cache[id], now) ==>
      && r.result == Some(PayloadOf(cache[id]))
      && r.cache.Keys == cache.Keys
      && r.cache[id] == cache[id].(accessCount := cache[id].accessCount + 1, lastAccessed := now)
      && forall k :: k in cache && k != id ==> r.cache[k] == cache[k]
  {
    if id !in cache then Lookup(None, cache)
    else if Expired(cache[id], now) then Lookup(None, cache - {id})
    else
      var e := cache[id];
      Lookup(Some(PayloadOf(e)), cache[id := e.(accessCount := e.accessCount + 1, lastAccessed := now)])
  }

  /**
   * A stored session can be read back, with exactly what was stored, until
   * `ttl` seconds have passed, and not after: the entry expires exactly
   * when its time-to-live runs out.
   */
  lemma {:induction false} ReadableExactlyUntilTtl<P>(cache: Cache<P>, id: string, pdfItems: seq<TenderItem>, excelItems: seq<TenderItem>,
                                 pdfSubtables: seq<SubtableItem>, excelSubtables: seq<SubtableItem>, params: P,
                                 ttl: int, stored: real, now: real)
    ensures Read(cache[id := NewEntry(pdfItems, excelItems, pdfSubtables, excelSubtables, params, ttl, stored)], id, now).result
         == if now - stored <= ttl as real then Some(Payload(pdfItems, excelItems, pdfSubtables, excelSubtables, params)) else None
  {
    var e := NewEntry(pdfItems, excelItems, pdfSubtables, excelSubtables, params, ttl, stored);
    assert Expired(e, now) <==> now - stored > ttl as real;
  }

  /** A read that finds its entry counts one more access and leaves the expiry time as it was. */
  lemma {:induction false} ReadCountsAccess<P>(cache: Cache<P>, id: string, now: real)
    requires id in cache && !Expired(cache[id], now)
    ensures id in Read(cache, id, now).cache
    ensures Read(cache, id, now).cache[id].accessCount == cache[id].accessCount + 1
    ensures Read(cache, id, now).cache[id].expiresAt == cache[id].expiresAt
    ensures Read(cache, id, now).cache[id].lastAccessed == now
  {
  }

  /** `extend_session`: the expiry becomes the later of the old one and `now` plus the extension. */
  function Extended<P>(e: Entry<P>, additionalMinutes: int, now: real): (r: Entry<P>)
    ensures r.expiresAt >= e.expiresAt
    ensures r.expiresAt >= now + (additionalMinutes * 60) as real
    ensures r.expiresAt == e.expiresAt || r.expiresAt == now + (additionalMinutes * 60) as real
    ensures r == e.(expiresAt := r.expiresAt)
  {
    var later := now + (additionalMinutes * 60) as real;
    e.(expiresAt := if e.expiresAt >= later then e.expiresAt else later)
  }

  /** The ids whose entries are still valid at `now`. */
  function ActiveIds<P>(cache: Cache<P>, now: real): (s: set<string>)
    ensures s <= cache.Keys
    ensures forall id :: id in cache ==> (id in s <==> !Expired(cache[id], now))
  {
    set id | id in cache && !Expired(cache[id], now)
  }

  /** The ids whose entries have expired at `now`. */
  function ExpiredIds<P>(cache: Cache<P>, now: real): (s: set<string>)
    ensures s <= cache.Keys
    ensures forall id :: id in cache ==> (id in s <==> Expired(cache[id], now))
  {
    set id | id in cache && Expired(cache[id], now)
  }

  /** Every session is either active or expired, never both: `active + expired == total_sessions`. */
  lemma {:induction false} ActivePlusExpired<P>(cache: Cache<P>, now: real)
    ensures |ActiveIds(cache, now)| + |ExpiredIds(cache, now)| == |cache|
  {
    var a, x := ActiveIds(cache, now), ExpiredIds(cache, now);
    assert a + x == cache.Keys;
    assert a * x == {};
  }

  /** The cache after `cleanup_expired_sessions` at `now`: exactly the entries that have not expired. */
  function WithoutExpired<P>(cache: Cache<P>, now: real): (r: Cache<P>)
    ensures r.Keys == ActiveIds(cache, now)
    ensures forall id :: id in r ==> r[id] == cache[id]
  {
    map id | id in ActiveIds(cache, now) :: cache[id]
  }

  /** After cleanup nothing is expired, and removed plus remaining sessions are all the sessions there were. */
  lemma {:induction false} CleanupLeavesNoExpired<P>(cache: Cache<P>, now: real)
    ensures ExpiredIds(WithoutExpired(cache, now), now) == {}
    ensures |ExpiredIds(cache, now)| + |WithoutExpired(cache, now)| == |cache|
  {
    ActivePlusExpired(cache, now);
    assert WithoutExpired(cache, now).Keys == ActiveIds(cache, now);
  }

  /** The size an entry contributes to the item count (`subtables` false) or the sub-table count. */
  function Size<P>(e: Entry<P>, subtables: bool): nat {
    if subtables then |e.pdfSubtables| + |e.excelSubtables| else |e.pdfItems| + |e.excelItems|
  }

  /** The sum of `Size` over the entries with the given ids. */
  ghost function SumOver<P>(cache: Cache<P>, ids: set<string>, subtables: bool): nat
    requires ids <= cache.Keys
    decreases ids
  {
    if ids == {} then 0
    else
      var k :| k in ids;
      Size(cache[k], subtables) + SumOver(cache, ids - {k}, subtables)
  }

  /** The sum does not depend on which id is taken out first. */
  lemma {:induction false} SumOverRemove<P>(cache: Cache<P>, ids: set<string>, k: string, subtables: bool)
    requires ids <= cache.Keys && k in ids
    ensures SumOver(cache, ids, subtables) == Size(cache[k], subtables) + SumOver(cache, ids - {k}, subtables)
    decreases ids
  {
    var j :| j in ids && SumOver(cache, ids, subtables) == Size(cache[j], subtables) + SumOver(cache, ids - {j}, subtables);
    if j != k {
      SumOverRemove(cache, ids - {j}, k, subtables);
      SumOverRemove(cache, ids - {k}, j, subtables);
      assert ids - {j} - {k} == ids - {k} - {j};
    }
  }

  /** Counting a live entry moves it to the active count and adds its sizes. */
  lemma {:induction false} StatsStepActive<P>(cache: Cache<P>, now: real, pending: set<string>, id: string)
    requires pending <= cache.Keys && id in pending && !Expired(cache[id], now)
    ensures var a, x, rest := ActiveIds(cache, now), ExpiredIds(cache, now), pending - {id};
      && |a - rest| == |a - pending| + 1
      && |x - rest| == |x - pending|
      && SumOver(cache, a * pending, false) == Size(cache[id], false) + SumOver(cache, a * rest, false)
      && SumOver(cache, a * pending, true) == Size(cache[id], true) + SumOver(cache, a * rest, true)
  {
    var a, x, rest := ActiveIds(cache, now), ExpiredIds(cache, now), pending - {id};
    SumOverRemove(cache, a * pending, id, false);
    SumOverRemove(cache, a * pending, id, true);
    assert a * pending - {id} == a * rest;
    assert a - rest == (a - pending) + {id};
    assert x - rest == x - pending;
  }

  /** Counting an expired entry moves it to the expired count only. */
  lemma {:induction false} StatsStepExpired<P>(cache: Cache<P>, now: real, pending: set<string>, id: string)
    requires pending <= cache.Keys && id in pending && Expired(cache[id], now)
    ensures var a, x, rest := ActiveIds(cache, now), ExpiredIds(cache, now), pending - {id};
      && |a - rest| == |a - pending|
      && |x - rest| == |x - pending| + 1
      && a * pending == a * rest
  {
    var a, x, rest := ActiveIds(cache, now), ExpiredIds(cache, now), pending - {id};
    assert a * pending == a * rest;
    assert a - rest == a - pending;
    assert x - rest == (x - pending) + {id};
  }

  /** Before the statistics loop nothing is counted and every id is pending. */
  lemma {:induction false} StatsStart<P>(cache: Cache<P>, now: real)
    ensures var a, x := ActiveIds(cache, now), ExpiredIds(cache, now);
      && 0 == |a - cache.Keys| && 0 == |x - cache.Keys|
      && 0 + SumOver(cache, a * cache.Keys, false) == SumOver(cache, a, false)
      && 0 + SumOver(cache, a * cache.Keys, true) == SumOver(cache, a, true)
  {
    var a, x := ActiveIds(cache, now), ExpiredIds(cache, now);
    assert a * cache.Keys == a;
    assert a - cache.Keys == {};
    assert x - cache.Keys == {};
  }

  /** Once no id is pending the counters hold the statistics of the whole cache. */
  lemma {:induction false} StatsDone<P>(cache: Cache<P>, now: real, pending: set<string>,
                                        active: nat, expired: nat, items: nat, subtables: nat)
    requires pending == {}
    requires var a, x := ActiveIds(cache, now), ExpiredIds(cache, now);
      && active == |a - pending| && expired == |x - pending|
      && items + SumOver(cache, a * pending, false) == SumOver(cache, a, false)
      && subtables + SumOver(cache, a * pending, true) == SumOver(cache, a, true)
    ensures active == |ActiveIds(cache, now)| && expired == |ExpiredIds(cache, now)|
    ensures active + expired == |cache|
    ensures items == SumOver(cache, ActiveIds(cache, now), false)
    ensures subtables == SumOver(cache, ActiveIds(cache, now), true)
  {
    var a, x := ActiveIds(cache, now), ExpiredIds(cache, now);
    assert a * pending == {};
    assert a - pending == a;
    assert x - pending == x;
    ActivePlusExpired(cache, now);
  }

  /** One iteration of the statistics loop: counts `id` on its side and keeps the running totals. */
  method StatsStep<P>(cache: Cache<P>, now: real, pending: set<string>, id: string,
                      active: nat, expired: nat, items: nat, subtables: nat)
    returns (active': nat, expired': nat, items': nat, subtables': nat)
    requires pending <= cache.Keys && id in pending
    requires var a, x := ActiveIds(cache, now), ExpiredIds(cache, now);
      && active == |a - pending| && expired == |x - pending|
      && items + SumOver(cache, a * pending, false) == SumOver(cache, a, false)
      && subtables + SumOver(cache, a * pending, true) == SumOver(cache, a, true)
    ensures var a, x, rest := ActiveIds(cache, now), ExpiredIds(cache, now), pending - {id};
      && active' == |a - rest| && expired' == |x - rest|
      && items' + SumOver(cache, a * rest, false) == SumOver(cache, a, false)
      && subtables' + SumOver(cache, a * rest, true) == SumOver(cache, a, true)
  {
    if now <= cache[id].expiresAt {
      StatsStepActive(cache, now, pending, id);
      active', expired' := active + 1, expired;
      items' := items + Size(cache[id], false);
      subtables' := subtables + Size(cache[id], true);
    } else {
      StatsStepExpired(cache, now, pending, id);
      active', expired', items', subtables' := active, expired + 1, items, subtables;
    }
  }

  /** `ExtractionCacheService`: the `_cache` dict and the default time-to-live in seconds. */
  class ExtractionCacheService<P> {
    var cache: Cache<P>
    var defaultTtl: int

    /** `__init__(default_ttl_minutes)`: an empty cache. */
    constructor(defaultTtlMinutes: int)
      ensures cache == map[] && defaultTtl == defaultTtlMinutes * 60
    {
      cache := map[];
      defaultTtl := defaultTtlMinutes * 60;
    }

    /** `store_extraction_results`: writes a fresh entry under the given id, or `generated` when none is given. */
    method Store(pdfItems: seq<TenderItem>, excelItems: seq<TenderItem>, pdfSubtables: seq<SubtableItem>,
                 excelSubtables: seq<SubtableItem>, params: P, sessionId: Option<string>, generated: string, now: real)
      returns (id: string)
      modifies this
      ensures id == sessionId.GetOr(generated)
      ensures cache == old(cache)[id := NewEntry(pdfItems, excelItems, pdfSubtables, excelSubtables, params, defaultTtl, now)]
      ensures defaultTtl == old(defaultTtl)
    {
      id := if sessionId.Some? then sessionId.value else generated;
      cache := cache[id := NewEntry(pdfItems, excelItems, pdfSubtables, excelSubtables, params, defaultTtl, now)];
    }

    /** `get_extraction_results`: drops an expired entry, otherwise counts the access. */
    method GetResults(id: string, now: real) returns (result: Option<Payload<P>>)
      modifies this
      ensures result == Read(old(cache), id, now).result
      ensures cache == Read(old(cache), id, now).cache
      ensures defaultTtl == old(defaultTtl)
    {
      if id !in cache {
        return None;
      }
      var e := cache[id];
      if now > e.expiresAt {
        cache := cache - {id};
        return None;
      }
      e := e.(accessCount := e.accessCount + 1, lastAccessed := now);
      cache := cache[id := e];
      result := Some(PayloadOf(e));
    }

    /** `extend_session`: false for an unknown id; otherwise the expiry never moves earlier. */
    method ExtendSession(id: string, additionalMinutes: int, now: real) returns (found: bool)
      modifies this
      ensures found == (id in old(cache))
      ensures found ==> cache == old(cache)[id := Extended(old(cache)[id], additionalMinutes, now)]
      ensures !found ==> cache == old(cache)
      ensures defaultTtl == old(defaultTtl)
    {
      if id !in cache {
        return false;
      }
      var e := cache[id];
      var later := now + (additionalMinutes * 60) as real;
      cache := cache[id := e.(expiresAt := if e.expiresAt >= later then e.expiresAt else later)];
      return true;
    }

    /** `cleanup_session`: removes only the given id and says whether it was there. */
    method CleanupSession(id: string) returns (found: bool)
      modifies this
      ensures found == (id in old(cache))
      ensures cache == old(cache) - {id}
      ensures defaultTtl == old(defaultTtl)
    {
      found := id in cache;
      if found {
        cache := cache - {id};
      }
    }

    /** `cleanup_expired_sessions`: collects the expired ids, deletes them and returns how many there were. */
    method CleanupExpired(now: real) returns (removed: nat)
      modifies this
      ensures cache == WithoutExpired(old(cache), now)
      ensures removed == |ExpiredIds(old(cache), now)|
      ensures defaultTtl == old(defaultTtl)
    {
      var expired: set<string> := {};
      var pending := cache.Keys;
      while pending != {}
        invariant pending <= cache.Keys
        invariant expired == set id | id in cache.Keys - pending && Expired(cache[id], now)
        decreases pending
      {
        var id :| id in pending;
        if now > cache[id].expiresAt {
          expired := expired + {id};
        }
        pending := pending - {id};
      }
      assert expired == ExpiredIds(cache, now);
      removed := |expired|;
      cache := map id | id in cache && id !in expired :: cache[id];
    }

    /** `get_cache_stats`: counts active and expired sessions and sums the sizes of the active ones. */
    method GetStats(now: real) returns (s: Stats)
      ensures s.activeSessions == |ActiveIds(cache, now)|
      ensures s.expiredSessions == |ExpiredIds(cache, now)|
      ensures s.totalSessions == |cache|
      ensures s.totalItemsCached == SumOver(cache, ActiveIds(cache, now), false)
      ensures s.totalSubtablesCached == SumOver(cache, ActiveIds(cache, now), true)
    {
      var active: nat, expired: nat, items: nat, subtables: nat := 0, 0, 0, 0;
      var pending := cache.Keys;
      StatsStart(cache, now);
      while pending != {}
        invariant pending <= cache.Keys
        invariant active == |ActiveIds(cache, now) - pending|
        invariant expired == |ExpiredIds(cache, now) - pending|
        invariant items + SumOver(cache, ActiveIds(cache, now) * pending, false) == SumOver(cache, ActiveIds(cache, now), false)
        invariant subtables + SumOver(cache, ActiveIds(cache, now) * pending, true) == SumOver(cache, ActiveIds(cache, now), true)
        decreases pending
      {
        var id :| id in pending;
        active, expired, items, subtables := StatsStep(cache, now, pending, id, active, expired, items, subtables);
        pending := pending - {id};
      }
      StatsDone(cache, now, pending, active, expired, items, subtables);
      s := Stats(active, expired, |cache|, items, subtables);
    }
  }
}
