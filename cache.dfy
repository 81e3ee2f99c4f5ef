/**
 * The request cache: results keyed by a request fingerprint and kept for a time-to-live. Time is a
 * monotonic clock in nanoseconds, passed in as `now`; the age of an entry is `now` minus its
 * insertion time, never negative.
 */
module Cache {
  import opened Wrappers
  import opened Text

  newtype u64 = x: int | 0 <= x < 0x1_0000_0000_0000_0000

  /** The standard library's default string hasher, left abstract. */
  type Hasher = string -> u64

  datatype RequestFingerprint = RequestFingerprint(url: string, httpMethod: string, paramsHash: u64)

  /** `RequestFingerprint::new`: keeps url and method, hashes the parameters. */
  function NewFingerprint(hash: Hasher, url: string, httpMethod: string, params: string): (fp: RequestFingerprint)
    ensures fp.url == url && fp.httpMethod == httpMethod && fp.paramsHash == hash(params)
  {
    RequestFingerprint(url, httpMethod, hash(params))
  }

  /** `key`: method, url and decimal hash joined by ':'. */
  function Key(fp: RequestFingerprint): string {
    fp.httpMethod + ":" + fp.url + ":" + Decimal(fp.paramsHash as nat)
  }

  /** `x + ":" + d` determines `x` and `d` when `d` holds no ':'. */
  lemma SplitAtLastColon(x1: string, d1: string, x2: string, d2: string)
    requires ':' !in d1 && ':' !in d2
    requires x1 + ":" + d1 == x2 + ":" + d2
    ensures x1 == x2 && d1 == d2
  {
    var s := x1 + ":" + d1;
    assert s[|x1|] == ':' && s[|x2|] == ':';
    assert forall i | |x1| < i < |s| :: s[i] == d1[i - |x1| - 1];
    assert forall i | |x2| < i < |s| :: s[i] == d2[i - |x2| - 1];
    assert |x1| == |x2|;
    assert x1 == s[..|x1|];
    assert d1 == s[|x1| + 1..];
  }

  /** `m + ":" + r` determines `m` and `r` when `m` holds no ':'. */
  lemma SplitAtFirstColon(m1: string, r1: string, m2: string, r2: string)
    requires ':' !in m1 && ':' !in m2
    requires m1 + ":" + r1 == m2 + ":" + r2
    ensures m1 == m2 && r1 == r2
  {
    var s := m1 + ":" + r1;
    assert s == m1 + (":" + r1) && s == m2 + (":" + r2);
    IndexOfAfter(m1, ":" + r1, ':');
    IndexOfAfter(m2, ":" + r2, ':');
    assert m1 == s[..|m1|] && m2 == s[..|m2|];
    assert r1 == s[|m1| + 1..];
  }

  /** A decimal number holds no ':'. */
  lemma DecimalNoColon(n: nat)
    ensures ':' !in Decimal(n)
  {
    assert forall k | 0 <= k < |Decimal(n)| :: Decimal(n)[k] != ':';
  }

  /**
   * The key identifies the fingerprint whenever the method has no ':' (every HTTP method name):
   * equal keys mean equal url, method and hash.
   */
  lemma KeyInjective(a: RequestFingerprint, b: RequestFingerprint)
    requires ':' !in a.httpMethod && ':' !in b.httpMethod
    requires Key(a) == Key(b)
    ensures a == b
  {
    var da := Decimal(a.paramsHash as nat);
    var db := Decimal(b.paramsHash as nat);
    DecimalNoColon(a.paramsHash as nat);
    DecimalNoColon(b.paramsHash as nat);
    SplitAtLastColon(a.httpMethod + ":" + a.url, da, b.httpMethod + ":" + b.url, db);
    SplitAtFirstColon(a.httpMethod, a.url, b.httpMethod, b.url);
    if a.paramsHash != b.paramsHash {
      DecimalInjective(a.paramsHash as nat, b.paramsHash as nat);
    }
  }

  /**
   * Two GET requests to one url get the same key exactly when the hasher gives their parameters the
   * same hash: "id=1" and "id=2" in the source's test, which hash apart, get different keys.
   */
  lemma FingerprintKeys(hash: Hasher, url: string, p1: string, p2: string)
    ensures Key(NewFingerprint(hash, url, "GET", p1)) == Key(NewFingerprint(hash, url, "GET", p2))
      <==> hash(p1) == hash(p2)
  {
    if Key(NewFingerprint(hash, url, "GET", p1)) == Key(NewFingerprint(hash, url, "GET", p2)) {
      KeyInjective(NewFingerprint(hash, url, "GET", p1), NewFingerprint(hash, url, "GET", p2));
    }
  }

  datatype CachedResult = CachedResult(timestamp: nat, result: string)

  datatype CacheStats = CacheStats(totalEntries: nat, expiredEntries: nat, activeEntries: nat)

  /** `Instant::elapsed`, which saturates at zero. */
  function Age(now: nat, t: nat): nat {
    if now >= t then now - t else 0
  }

  /** An entry younger than the TTL is live. */
  predicate Live(e: CachedResult, now: nat, ttl: nat) {
    Age(now, e.timestamp) < ttl
  }

  function LiveKeys(m: map<string, CachedResult>, now: nat, ttl: nat): set<string> {
    set k | k in m && Live(m[k], now, ttl)
  }

  function ExpiredKeys(m: map<string, CachedResult>, now: nat, ttl: nat): set<string> {
    set k | k in m && !Live(m[k], now, ttl)
  }

  /** `retain(elapsed < ttl)`: exactly the live entries, unchanged. */
  function Retain(m: map<string, CachedResult>, now: nat, ttl: nat): (r: map<string, CachedResult>)
    ensures r.Keys == LiveKeys(m, now, ttl)
    ensures forall k | k in r :: r[k] == m[k]
  {
    map k | k in m && Live(m[k], now, ttl) :: m[k]
  }

  /** Every key is either live or expired, never both. */
  lemma {:induction false} KeysPartition(m: map<string, CachedResult>, now: nat, ttl: nat)
    ensures LiveKeys(m, now, ttl) * ExpiredKeys(m, now, ttl) == {}
    ensures |m| == |LiveKeys(m, now, ttl)| + |ExpiredKeys(m, now, ttl)|
  {
    var live := LiveKeys(m, now, ttl);
    var dead := ExpiredKeys(m, now, ttl);
    assert m.Keys == live + dead;
    assert live * dead == {};
  }

  /** `stats`: total, expired and live entry counts; expired and live add up to the total. */
  function StatsOf(m: map<string, CachedResult>, now: nat, ttl: nat): (s: CacheStats)
    ensures s.totalEntries == |m| == s.expiredEntries + s.activeEntries
    ensures s.activeEntries == |LiveKeys(m, now, ttl)|
  {
    KeysPartition(m, now, ttl);
    var total := |m|;
    var expired := |ExpiredKeys(m, now, ttl)|;
    CacheStats(total, expired, total - expired)
  }

  /** Cleaning up leaves nothing expired and keeps the number of live entries. */
  lemma RetainStats(m: map<string, CachedResult>, now: nat, ttl: nat)
    ensures StatsOf(Retain(m, now, ttl), now, ttl).expiredEntries == 0
    ensures StatsOf(Retain(m, now, ttl), now, ttl).activeEntries == StatsOf(m, now, ttl).activeEntries
  {
    var r := Retain(m, now, ttl);
    assert ExpiredKeys(r, now, ttl) == {};
    assert LiveKeys(r, now, ttl) == LiveKeys(m, now, ttl);
  }

  class ScanCache {
    var entries: map<string, CachedResult>
    /** Time-to-live in nanoseconds. */
    const ttl: nat

    /** `ScanCache::new`. */
    constructor (ttlSeconds: nat)
      ensures entries == map[] && ttl == ttlSeconds * 1_000_000_000
    {
      entries := map[];
      ttl := ttlSeconds * 1_000_000_000;
    }

    /** `impl Default`: an hour. */
    constructor Default()
      ensures entries == map[] && ttl == 3600 * 1_000_000_000
    {
      entries := map[];
      ttl := 3600 * 1_000_000_000;
    }

    /** `contains`: a live entry exists for the key; nothing is removed. */
    function Contains(fp: RequestFingerprint, now: nat): bool
      reads this
    {
      Key(fp) in entries && Live(entries[Key(fp)], now, ttl)
    }

    function Stats(now: nat): CacheStats
      reads this
    {
      StatsOf(entries, now, ttl)
    }

    /**
     * `get`: the stored result of a live entry; an expired entry is removed and reported as
     * absent; the map is otherwise untouched.
     */
    method Get(fp: RequestFingerprint, now: nat) returns (r: Option<string>)
      modifies this
      ensures r.Some? <==> old(Contains(fp, now))
      ensures r.Some? ==> r.value == old(entries)[Key(fp)].result
      ensures old(Contains(fp, now)) || Key(fp) !in old(entries) ==> entries == old(entries)
      ensures !old(Contains(fp, now)) ==> entries == old(entries) - {Key(fp)}
    {
      var key := Key(fp);
      if key in entries {
        var entry := entries[key];
        if Age(now, entry.timestamp) < ttl {
          return Some(entry.result);
        } else {
          entries := entries - {key};
        }
      }
      return None;
    }

    /** `insert`: the key now maps to the result stamped `now`, replacing any older entry. */
    method Insert(fp: RequestFingerprint, result: string, now: nat)
      modifies this
      ensures entries == old(entries)[Key(fp) := CachedResult(now, result)]
      ensures ttl > 0 ==> Contains(fp, now)
    {
      entries := entries[Key(fp) := CachedResult(now, result)];
    }

    /** `cleanup`: drops exactly the expired entries. */
    method Cleanup(now: nat)
      modifies this
      ensures entries == Retain(old(entries), now, ttl)
      ensures Stats(now).expiredEntries == 0
      ensures Stats(now).activeEntries == old(Stats(now)).activeEntries
    {
      RetainStats(entries, now, ttl);
      entries := Retain(entries, now, ttl);
    }

    /** `clear`. */
    method Clear()
      modifies this
      ensures entries == map[]
    {
      entries := map[];
    }
  }

  /**
   * The scenario of the source's cache test: a 60-second cache does not contain a fingerprint,
   * then does after inserting it, and returns the stored result.
   */
  method InsertThenGet(fp: RequestFingerprint, now: nat) returns (before: bool, after: bool, got: Option<string>)
    ensures !before && after && got == Some("test_result")
  {
    var cache := new ScanCache(60);
    before := cache.Contains(fp, now);
    cache.Insert(fp, "test_result", now);
    after := cache.Contains(fp, now);
    got := cache.Get(fp, now);
  }
}
