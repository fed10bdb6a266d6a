/**
 * The in-memory dataset cache: entries keyed by `datasetId:locale`, kept for an hour,
 * evicted lazily on read. The clock is a parameter (`now`, in milliseconds).
 */
module DataCache {
  import opened Wrappers
  import opened Strings
  import opened Seqs
  import opened Records

  /** One hour, in milliseconds. */
  const CACHE_DURATION: int := 60 * 60 * 1000

  /** What the cache stores under a key: the data, when it was stored, and its locale. */
  datatype CacheEntry = CacheEntry(data: seq<Row>, timestamp: int, locale: string)

  /** One line of getCacheStats: the key, the entry's age and its locale. */
  datatype StatEntry = StatEntry(key: string, age: int, locale: string)

  /** getCacheStats: the number of entries and one line per entry, in insertion order. */
  datatype CacheStats = CacheStats(size: nat, entries: seq<StatEntry>)

  /** getCacheKey: `${datasetId}:${locale}`. */
  function CacheKey(datasetId: string, locale: string): (key: string)
    ensures |key| == |datasetId| + 1 + |locale|
    ensures StartsWith(key, datasetId + ":")
  {
    datasetId + ":" + locale
  }

  /** The prefix clearCache matches when no locale is given. */
  function DatasetPrefix(datasetId: string): string
  {
    datasetId + ":"
  }

  /** An entry older than the cache duration at time now. */
  predicate Expired(store: map<string, CacheEntry>, key: string, now: int)
  {
    key in store && now - store[key].timestamp > CACHE_DURATION
  }

  /** What getCachedData answers at time now: the stored data unless it is missing or expired. */
  function Lookup(store: map<string, CacheEntry>, key: string, now: int): (r: Option<seq<Row>>)
    ensures r.Some? <==> key in store && !Expired(store, key, now)
    ensures r.Some? ==> r.value == store[key].data
  {
    if key in store && now - store[key].timestamp <= CACHE_DURATION then Some(store[key].data) else None
  }

  /** The entries clearCache keeps when it clears every locale of a dataset. */
  function WithoutPrefix(store: map<string, CacheEntry>, prefix: string): (r: map<string, CacheEntry>)
    ensures forall k :: k in r <==> k in store && !StartsWith(k, prefix)
    ensures forall k :: k in r ==> r[k] == store[k]
  {
    map k | k in store && !StartsWith(k, prefix) :: store[k]
  }

  /** The store with every key of keys removed. */
  function WithoutKeys(store: map<string, CacheEntry>, keys: seq<string>): (r: map<string, CacheEntry>)
    ensures forall k :: k in r <==> k in store && k !in keys
    ensures forall k :: k in r ==> r[k] == store[k]
  {
    map k | k in store && k !in keys :: store[k]
  }

  lemma WithoutNoKeys(store: map<string, CacheEntry>)
    ensures WithoutKeys(store, []) == store
  {
  }

  /** Removing one more key of the list is removing it from what is left. */
  lemma WithoutOneMore(store: map<string, CacheEntry>, keys: seq<string>, j: nat)
    requires j < |keys|
    ensures WithoutKeys(store, keys[..j + 1]) == WithoutKeys(store, keys[..j]) - {keys[j]}
  {
    assert keys[..j + 1] == keys[..j] + [keys[j]];
  }

  /** When order lists exactly the keys of the store, removing the listed prefixed keys is removing the prefix. */
  lemma WithoutPrefixedKeys(store: map<string, CacheEntry>, order: seq<string>, prefix: string)
    requires forall k :: k in store <==> k in order
    ensures WithoutKeys(store, Filter(order, (k: string) => StartsWith(k, prefix))) == WithoutPrefix(store, prefix)
  {
  }

  /** getCacheStats' entry list over a store and its insertion order. */
  function StatEntries(store: map<string, CacheEntry>, order: seq<string>, now: int): (r: seq<StatEntry>)
    requires forall k :: k in order ==> k in store
    ensures |r| == |order|
    ensures forall i :: 0 <= i < |order| ==>
      r[i] == StatEntry(order[i], now - store[order[i]].timestamp, store[order[i]].locale)
  {
    if order == [] then []
    else [StatEntry(order[0], now - store[order[0]].timestamp, store[order[0]].locale)] + StatEntries(store, order[1..], now)
  }

  /** The module-level `Map`: its entries, and its keys in insertion order. */
  class Cache {
    var store: map<string, CacheEntry>
    var order: seq<string>

    /** The order lists each stored key exactly once. */
    ghost predicate Valid()
      reads this
    {
      NoDuplicates(order) && forall k :: k in store <==> k in order
    }

    constructor()
      ensures Valid() && store == map[] && order == []
    {
      store := map[];
      order := [];
    }

    /** getCachedData: the fresh entry's data; an expired entry is deleted and reads as missing. */
    method GetCachedData(datasetId: string, locale: string, now: int) returns (r: Option<seq<Row>>)
      requires Valid()
      modifies this
      ensures Valid()
      ensures r == Lookup(old(store), CacheKey(datasetId, locale), now)
      ensures Expired(old(store), CacheKey(datasetId, locale), now) ==>
        store == old(store) - {CacheKey(datasetId, locale)}
        && order == Filter(old(order), (k: string) => k != CacheKey(datasetId, locale))
      ensures !Expired(old(store), CacheKey(datasetId, locale), now) ==> store == old(store) && order == old(order)
    {
      var key := CacheKey(datasetId, locale);
      if key !in store {
        return None;
      }
      var entry := store[key];
      var age := now - entry.timestamp;
      if age > CACHE_DURATION {
        Delete(key);
        return None;
      }
      return Some(entry.data);
    }

    /** `cache.delete(key)`: the entry goes, the other keys keep their order. */
    method Delete(key: string)
      requires Valid()
      modifies this
      ensures Valid()
      ensures store == old(store) - {key}
      ensures order == Filter(old(order), (k: string) => k != key)
    {
      FilterNoDuplicates(order, (k: string) => k != key);
      store := store - {key};
      order := Filter(order, (k: string) => k != key);
    }

    /** setCachedData: stores the data stamped with now; a new key goes last, an existing one keeps its place. */
    method SetCachedData(datasetId: string, locale: string, data: seq<Row>, now: int)
      requires Valid()
      modifies this
      ensures Valid()
      ensures store == old(store)[CacheKey(datasetId, locale) := CacheEntry(data, now, locale)]
      ensures order == if CacheKey(datasetId, locale) in old(store) then old(order) else old(order) + [CacheKey(datasetId, locale)]
    {
      var key := CacheKey(datasetId, locale);
      if key !in store {
        order := order + [key];
      }
      store := store[key := CacheEntry(data, now, locale)];
    }

    /**
     * clearCache: with a non-empty locale, deletes that one key; otherwise deletes every
     * key that starts with `datasetId:`, collecting them first and deleting them after.
     */
    method ClearCache(datasetId: string, locale: Option<string>)
      requires Valid()
      modifies this
      ensures Valid()
      ensures locale.Some? && locale.value != "" ==>
        store == old(store) - {CacheKey(datasetId, locale.value)}
        && order == Filter(old(order), (k: string) => k != CacheKey(datasetId, locale.value))
      ensures !(locale.Some? && locale.value != "") ==>
        store == WithoutPrefix(old(store), DatasetPrefix(datasetId))
        && order == Filter(old(order), (k: string) => !StartsWith(k, DatasetPrefix(datasetId)))
    {
      if locale.Some? && locale.value != "" {
        Delete(CacheKey(datasetId, locale.value));
      } else {
        var prefix := DatasetPrefix(datasetId);
        var keysToDelete := CollectPrefixed(prefix);
        WithoutPrefixedKeys(store, order, prefix);
        DeleteAll(keysToDelete);
        FilterSame(old(order), (k: string) => k !in keysToDelete, (k: string) => !StartsWith(k, prefix));
      }
    }

    /** The first loop of clearCache: the keys that start with prefix, in insertion order. */
    method CollectPrefixed(prefix: string) returns (keys: seq<string>)
      ensures keys == Filter(order, (k: string) => StartsWith(k, prefix))
    {
      keys := [];
      var i := 0;
      while i < |order|
        invariant 0 <= i <= |order|
        invariant keys == Filter(order[..i], (k: string) => StartsWith(k, prefix))
      {
        FilterSnoc(order[..i], order[i], (k: string) => StartsWith(k, prefix));
        assert order[..i + 1] == order[..i] + [order[i]];
        if StartsWith(order[i], prefix) {
          keys := keys + [order[i]];
        }
        i := i + 1;
      }
      assert order[..i] == order;
    }

    /** The second loop of clearCache: deletes the given keys one by one. */
    method DeleteAll(keys: seq<string>)
      requires Valid()
      modifies this
      ensures Valid()
      ensures store == WithoutKeys(old(store), keys)
      ensures order == Filter(old(order), (k: string) => k !in keys)
    {
      var j := 0;
      FilterAll(order, (k: string) => k !in keys[..j]);
      WithoutNoKeys(store);
      while j < |keys|
        invariant 0 <= j <= |keys|
        invariant Valid()
        invariant store == WithoutKeys(old(store), keys[..j])
        invariant order == Filter(old(order), (k: string) => k !in keys[..j])
      {
        var key := keys[j];
        FilterFilter(old(order), (k: string) => k !in keys[..j], (k: string) => k != key,
          (k: string) => k !in keys[..j + 1]);
        WithoutOneMore(old(store), keys, j);
        Delete(key);
        j := j + 1;
      }
      assert keys[..j] == keys;
    }

    /** clearAllCache. */
    method ClearAllCache()
      modifies this
      ensures Valid() && store == map[] && order == []
    {
      store := map[];
      order := [];
    }

    /** getCacheStats at time now: expired entries not yet evicted are counted too. */
    method GetCacheStats(now: int) returns (stats: CacheStats)
      requires Valid()
      ensures stats.size == |store| == |order|
      ensures stats.entries == StatEntries(store, order, now)
    {
      NoDuplicatesCardinality(order);
      assert store.Keys == set k | k in order;
      stats := CacheStats(|store|, StatEntries(store, order, now));
    }
  }

  /** Data just stored is served until it is older than the cache duration. */
  lemma SetThenGet(store: map<string, CacheEntry>, key: string, data: seq<Row>, locale: string, stamped: int, now: int)
    ensures now - stamped <= CACHE_DURATION ==>
      Lookup(store[key := CacheEntry(data, stamped, locale)], key, now) == Some(data)
    ensures now - stamped > CACHE_DURATION ==>
      Lookup(store[key := CacheEntry(data, stamped, locale)], key, now) == None
  {
  }

  /** Storing under one key leaves every other key's answer as it was. */
  lemma SetLeavesOthers(store: map<string, CacheEntry>, key: string, entry: CacheEntry, other: string, now: int)
    requires other != key
    ensures Lookup(store[key := entry], other, now) == Lookup(store, other, now)
  {
  }

  /** Evicting an expired entry does not change what any key reads as. */
  lemma EvictionInvisible(store: map<string, CacheEntry>, key: string, other: string, now: int)
    requires Expired(store, key, now)
    ensures Lookup(store - {key}, other, now) == Lookup(store, other, now)
  {
  }

  /** In a key built from a colon-free id, the first colon sits right after the id. */
  lemma FirstColon(datasetId: string, locale: string)
    requires ':' !in datasetId
    ensures ':' in CacheKey(datasetId, locale)
    ensures IndexOf(CacheKey(datasetId, locale), ':') == |datasetId|
  {
    var k := CacheKey(datasetId, locale);
    assert k[|datasetId|] == ':';
    assert k[..|datasetId|] == datasetId;
  }

  /** For colon-free dataset ids, a key determines its dataset id and locale. */
  lemma CacheKeyInjective(a: string, l: string, b: string, m: string)
    requires ':' !in a && ':' !in b
    requires CacheKey(a, l) == CacheKey(b, m)
    ensures a == b && l == m
  {
    var k := CacheKey(a, l);
    FirstColon(a, l);
    FirstColon(b, m);
    assert a == k[..|a|] == b;
    assert l == k[|a| + 1..] == m;
  }

  /** For colon-free dataset ids, clearing a dataset's locales touches only that dataset's keys: clearing `pop` keeps `population:en`. */
  lemma PrefixMatchesOwnKeysOnly(datasetId: string, other: string, locale: string)
    requires ':' !in datasetId && ':' !in other
    ensures StartsWith(CacheKey(other, locale), DatasetPrefix(datasetId)) <==> other == datasetId
  {
    var k := CacheKey(other, locale);
    var p := DatasetPrefix(datasetId);
    if StartsWith(k, p) {
      FirstColon(other, locale);
      assert p == CacheKey(datasetId, "");
      FirstColon(datasetId, "");
      assert k[..|p|] == p;
      assert ':' in k[..|p|];
      assert IndexOf(k, ':') == IndexOf(p, ':') by {
        IndexOfPrefix(k, |p|, ':');
      }
      assert other == k[..|other|] == p[..|other|] == datasetId;
    }
  }
}
