/**
 * The result cache of `src/utils/cacheUtils.ts`: search results stored in the
 * key-value store under `github-search-<query>` with the time they were
 * stored, valid for 24 hours; and the static fallback catalogue served when
 * the provider's quota is used up.
 */
module Cache {
  import opened Wrappers
  import opened Strings
  import opened Types
  import opened Codec
  import opened Storage
  import RateLimit

  /** 24 hours, in milliseconds. */
  const CacheExpiration := 24 * 60 * 60 * 1000

  const CachePrefix := "github-search-"

  function CacheKey(query: string): string {
    CachePrefix + query
  }

  /** Different queries are stored under different keys. */
  lemma CacheKeyInjective(a: string, b: string)
    ensures CacheKey(a) == CacheKey(b) ==> a == b
  {
    if CacheKey(a) == CacheKey(b) {
      assert a == CacheKey(a)[|CachePrefix|..];
      assert b == CacheKey(b)[|CachePrefix|..];
    }
  }

  /** A cache key never collides with the rate-limit tracker's keys. */
  lemma CacheKeysAvoidTrackerKeys(query: string)
    ensures CacheKey(query) != RateLimit.RateLimitKey
    ensures CacheKey(query) != RateLimit.RateLimitExceededKey
    ensures !IsPrefix(CachePrefix, RateLimit.RateLimitKey)
    ensures !IsPrefix(CachePrefix, RateLimit.RateLimitExceededKey)
  {
    assert CacheKey(query)[6] == '-';
    assert RateLimit.RateLimitKey[6] == '_';
    assert RateLimit.RateLimitExceededKey[6] == '_';
  }

  /** What `getCachedResults` returns, and whether it evicted an expired entry. */
  datatype Lookup = Lookup(results: Option<seq<ResultItem>>, evicted: bool)

  /**
   * `getCachedResults(query)` at time `nowMs`. A missing or empty entry, one
   * that does not parse, and one older than 24 hours (strictly) give no
   * results; the expired one is also evicted.
   */
  function LookupCached(entries: map<string, string>, available: bool, query: string, nowMs: int): (r: Lookup)
    ensures r.evicted ==> r.results.None?
    ensures r.results.Some? || r.evicted <==>
      available && CacheKey(query) in entries && entries[CacheKey(query)] != ""
      && ParseCacheItem(entries[CacheKey(query)]).Some?
    ensures r.results.Some? ==>
      var item := ParseCacheItem(entries[CacheKey(query)]).value;
      r.results.value == item.results && nowMs - item.timestamp <= CacheExpiration
    ensures r.evicted ==>
      nowMs - ParseCacheItem(entries[CacheKey(query)]).value.timestamp > CacheExpiration
  {
    var key := CacheKey(query);
    if !available || key !in entries || entries[key] == "" then Lookup(None, false)
    else
      match ParseCacheItem(entries[key])
      case None => Lookup(None, false)
      case Some(item) =>
        if nowMs - item.timestamp > CacheExpiration then Lookup(None, true)
        else Lookup(Some(item.results), false)
  }

  /** The store after `cacheResults(query, results)` succeeded at time `nowMs`. */
  function Stored(entries: map<string, string>, query: string, results: seq<ResultItem>, nowMs: int): map<string, string> {
    entries[CacheKey(query) := SerializeCacheItem(CacheItem(nowMs, results))]
  }

  /**
   * Results stored at `t` are returned unchanged by a lookup at any time up to
   * and including `t` + 24 hours.
   */
  lemma CachedResultsRoundTrip(entries: map<string, string>, query: string, results: seq<ResultItem>, t: int, nowMs: int)
    requires nowMs - t <= CacheExpiration
    ensures LookupCached(Stored(entries, query, results, t), true, query, nowMs) == Lookup(Some(results), false)
  {
    ParseSerializedCacheItem(CacheItem(t, results));
    assert SerializeCacheItem(CacheItem(t, results))[0] in {'+', '-'};
  }

  /** Results stored at `t` are evicted by a lookup after `t` + 24 hours. */
  lemma CachedResultsExpire(entries: map<string, string>, query: string, results: seq<ResultItem>, t: int, nowMs: int)
    requires nowMs - t > CacheExpiration
    ensures LookupCached(Stored(entries, query, results, t), true, query, nowMs) == Lookup(None, true)
  {
    ParseSerializedCacheItem(CacheItem(t, results));
    assert SerializeCacheItem(CacheItem(t, results))[0] in {'+', '-'};
  }

  /** Storing results for one query leaves the lookup of every other query as it was. */
  lemma StoreLeavesOtherQueries(entries: map<string, string>, query: string, other: string,
                                results: seq<ResultItem>, t: int, available: bool, nowMs: int)
    requires other != query
    ensures LookupCached(Stored(entries, query, results, t), available, other, nowMs)
         == LookupCached(entries, available, other, nowMs)
  {
    CacheKeyInjective(query, other);
  }

  /** `cacheResults(query, results)` at time `nowMs`; a store that throws is ignored. */
  method CacheResults(store: Store, query: string, results: seq<ResultItem>, nowMs: int)
    modifies store
    ensures store.available == old(store.available)
    ensures store.entries == if store.available then Stored(old(store.entries), query, results, nowMs) else old(store.entries)
  {
    var _ := store.SetItem(CacheKey(query), SerializeCacheItem(CacheItem(nowMs, results)));
  }

  /** `getCachedResults(query)` at time `nowMs`. */
  method GetCachedResults(store: Store, query: string, nowMs: int) returns (results: Option<seq<ResultItem>>)
    modifies store
    ensures results == LookupCached(old(store.entries), old(store.available), query, nowMs).results
    ensures store.available == old(store.available)
    ensures store.entries ==
      if LookupCached(old(store.entries), old(store.available), query, nowMs).evicted
      then old(store.entries) - {CacheKey(query)} else old(store.entries)
  {
    var key := CacheKey(query);
    var cachedData := store.GetItem(key);
    if cachedData.None? || cachedData.value == "" {
      return None;
    }
    var cacheItem := ParseCacheItem(cachedData.value);
    if cacheItem.None? {
      return None;
    }
    if nowMs - cacheItem.value.timestamp > CacheExpiration {
      store.RemoveItem(key);
      return None;
    }
    return Some(cacheItem.value.results);
  }

  /** The store with every cache entry removed and every other entry kept. */
  function WithoutCacheEntries(entries: map<string, string>): (r: map<string, string>)
    ensures forall k :: k in r <==> k in entries && !IsPrefix(CachePrefix, k)
    ensures forall k :: k in r ==> r[k] == entries[k]
  {
    map k | k in entries && !IsPrefix(CachePrefix, k) :: entries[k]
  }

  /** After clearing, no query has cached results, and the tracker's keys are kept. */
  lemma ClearedCacheIsEmpty(entries: map<string, string>, available: bool, query: string, nowMs: int)
    ensures LookupCached(WithoutCacheEntries(entries), available, query, nowMs) == Lookup(None, false)
    ensures RateLimit.RateLimitKey in entries ==>
      RateLimit.RateLimitKey in WithoutCacheEntries(entries)
      && WithoutCacheEntries(entries)[RateLimit.RateLimitKey] == entries[RateLimit.RateLimitKey]
    ensures RateLimit.RateLimitExceededKey in entries ==>
      RateLimit.RateLimitExceededKey in WithoutCacheEntries(entries)
      && WithoutCacheEntries(entries)[RateLimit.RateLimitExceededKey] == entries[RateLimit.RateLimitExceededKey]
  {
    assert IsPrefix(CachePrefix, CacheKey(query)) by {
      assert CacheKey(query)[..|CachePrefix|] == CachePrefix;
    }
    CacheKeysAvoidTrackerKeys(query);
  }

  /**
   * `clearCache()`: collect every key that starts with `github-search-`, then
   * remove them; nothing changes when the store throws.
   */
  method ClearCache(store: Store)
    modifies store
    ensures store.available == old(store.available)
    ensures store.entries == if store.available then WithoutCacheEntries(old(store.entries)) else old(store.entries)
  {
    if !store.available {
      return;
    }
    var keysToRemove: set<string> := {};
    var unvisited := store.entries.Keys;
    while unvisited != {}
      invariant unvisited <= store.entries.Keys
      invariant forall k :: k in keysToRemove <==> k in store.entries && k !in unvisited && IsPrefix(CachePrefix, k)
      decreases unvisited
    {
      var key :| key in unvisited;
      if IsPrefix(CachePrefix, key) {
        keysToRemove := keysToRemove + {key};
      }
      unvisited := unvisited - {key};
    }
    ghost var before := store.entries;
    var pending := keysToRemove;
    while pending != {}
      invariant pending <= keysToRemove
      invariant store.available
      invariant store.entries == map k | k in before && k !in keysToRemove - pending :: before[k]
      decreases pending
    {
      var key :| key in pending;
      store.RemoveItem(key);
      pending := pending - {key};
    }
  }

  // ---------------------------------------------------------------------
  // Fallback catalogue
  // ---------------------------------------------------------------------

  /** One entry of `FALLBACK_RESULTS`. */
  datatype FallbackEntry = FallbackEntry(key: string, items: seq<ResultItem>)

  const ReactFallback: seq<ResultItem> := [
    ResultItem("repo-10270250", "react", Repository, "https://github.com/facebook/react",
      "https://avatars.githubusercontent.com/u/69631?v=4",
      Some("A declarative, efficient, and flexible JavaScript library for building user interfaces.")),
    ResultItem("repo-70107786", "react-native", Repository, "https://github.com/facebook/react-native",
      "https://avatars.githubusercontent.com/u/69631?v=4",
      Some("A framework for building native applications using React.")),
    ResultItem("user-1566403", "react", User, "https://github.com/react",
      "https://avatars.githubusercontent.com/u/1566403?v=4", None)
  ]

  const JavaScriptFallback: seq<ResultItem> := [
    ResultItem("repo-1062897", "javascript", Repository, "https://github.com/airbnb/javascript",
      "https://avatars.githubusercontent.com/u/698437?v=4", Some("JavaScript Style Guide")),
    ResultItem("user-1700322", "javascript", User, "https://github.com/javascript",
      "https://avatars.githubusercontent.com/u/1700322?v=4", None)
  ]

  /** `FALLBACK_RESULTS`, in the order `Object.keys` lists it. */
  const FallbackCatalog: seq<FallbackEntry> := [
    FallbackEntry("react", ReactFallback),
    FallbackEntry("javascript", JavaScriptFallback)
  ]

  /** The entry stored under exactly `query`, if any. */
  function ExactFallback(catalog: seq<FallbackEntry>, query: string): (r: Option<seq<ResultItem>>)
    ensures r.None? <==> forall i :: 0 <= i < |catalog| ==> catalog[i].key != query
    ensures r.Some? ==> exists i :: 0 <= i < |catalog| && catalog[i].key == query && catalog[i].items == r.value
    decreases |catalog|
  {
    if catalog == [] then None
    else if catalog[0].key == query then Some(catalog[0].items)
    else
      var r := ExactFallback(catalog[1..], query);
      assert forall i :: 1 <= i < |catalog| ==> catalog[i] == catalog[1..][i - 1];
      r
  }

  /** One of `query` and `key` includes the other. */
  predicate PartiallyMatches(query: string, key: string) {
    Contains(query, key) || Contains(key, query)
  }

  /** The first entry, in catalogue order, whose key partially matches `query`. */
  function PartialFallback(catalog: seq<FallbackEntry>, query: string): (r: Option<seq<ResultItem>>)
    ensures r.None? <==> forall i :: 0 <= i < |catalog| ==> !PartiallyMatches(query, catalog[i].key)
    ensures r.Some? ==> exists i :: (0 <= i < |catalog| && PartiallyMatches(query, catalog[i].key)
      && catalog[i].items == r.value
      && forall j :: 0 <= j < i ==> !PartiallyMatches(query, catalog[j].key))
    decreases |catalog|
  {
    if catalog == [] then None
    else if PartiallyMatches(query, catalog[0].key) then Some(catalog[0].items)
    else
      var r := PartialFallback(catalog[1..], query);
      assert forall i :: 1 <= i < |catalog| ==> catalog[i] == catalog[1..][i - 1];
      if r.Some? then
        var i :| 0 <= i < |catalog| - 1 && PartiallyMatches(query, catalog[1..][i].key)
          && catalog[1..][i].items == r.value
          && forall j :: 0 <= j < i ==> !PartiallyMatches(query, catalog[1..][j].key);
        assert forall j :: 0 <= j < i + 1 ==> !PartiallyMatches(query, catalog[j].key) by {
          forall j | 0 <= j < i + 1 ensures !PartiallyMatches(query, catalog[j].key) {
            if j > 0 { assert catalog[j] == catalog[1..][j - 1]; }
          }
        }
        assert catalog[i + 1] == catalog[1..][i];
        r
      else r
  }

  /** `getFallbackResults(query)` over a catalogue: exact key first, then the first partial match, else none. */
  function FallbackFrom(catalog: seq<FallbackEntry>, query: string): (r: seq<ResultItem>)
    ensures ExactFallback(catalog, query).Some? ==> r == ExactFallback(catalog, query).value
    ensures ExactFallback(catalog, query).None? && PartialFallback(catalog, query).Some? ==>
      r == PartialFallback(catalog, query).value
    ensures r == [] <==>
      (ExactFallback(catalog, query).Some? && ExactFallback(catalog, query).value == [])
      || (ExactFallback(catalog, query).None? && PartialFallback(catalog, query).None?)
      || (ExactFallback(catalog, query).None? && PartialFallback(catalog, query).value == [])
  {
    match ExactFallback(catalog, query)
    case Some(items) => items
    case None => PartialFallback(catalog, query).GetOr([])
  }

  /** `getFallbackResults(query)`. */
  function GetFallbackResults(query: string): seq<ResultItem> {
    FallbackFrom(FallbackCatalog, query)
  }

  /** An exact key gets its own entry; a key is found whenever it occurs inside the query. */
  lemma FallbackByKey(query: string)
    ensures query == "react" ==> GetFallbackResults(query) == ReactFallback
    ensures query == "javascript" ==> GetFallbackResults(query) == JavaScriptFallback
    ensures query != "javascript" && Contains(query, "react") ==> GetFallbackResults(query) == ReactFallback
  {
    assert FallbackCatalog[0].key == "react";
    assert FallbackCatalog[1].key == "javascript";
  }

  /** The empty query matches the first key of the catalogue, since every key includes it. */
  lemma EmptyQueryFallback()
    ensures GetFallbackResults("") == ReactFallback
  {
    ContainsEmpty("react");
    assert PartiallyMatches("", FallbackCatalog[0].key);
  }

  /** Every non-empty fallback answer is one of the catalogue's lists. */
  lemma FallbackComesFromCatalog(query: string)
    ensures GetFallbackResults(query) == [] || GetFallbackResults(query) == ReactFallback
         || GetFallbackResults(query) == JavaScriptFallback
  {
  }
}
