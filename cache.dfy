/** The block cache kept in `localStorage` (js/cache.js). Storage is a map from key to the
    parsed value found there; only keys with the cache prefix belong to the cache, every other
    key is somebody else's and is never touched. */
module Cache {
  import opened Common
  import opened Text
  import opened Sorting

  const KeyPrefix: string := "arena_cache_"
  /** 24 hours, in milliseconds. */
  const Duration: int := 24 * 60 * 60 * 1000
  const MaxEntries: nat := 50

  /** What `JSON.parse` makes of a stored value: a `{timestamp, blocks}` record, or something
      that makes it (or the field access after it) throw. */
  datatype Entry = Valid(timestamp: int, blocks: seq<Block>) | Malformed

  predicate IsCacheKey(k: string) {
    StartsWith(k, KeyPrefix)
  }

  /** `getCacheKey`: the prefix followed by the slug, from which the slug can be read back. */
  function CacheKey(slug: string): (k: string)
    ensures IsCacheKey(k) && |k| == |KeyPrefix| + |slug| && k[|KeyPrefix|..] == slug
  {
    KeyPrefix + slug
  }

  /** Distinct slugs never share a cache key. */
  lemma CacheKeyInjective(a: string, b: string)
    ensures CacheKey(a) == CacheKey(b) <==> a == b
  {
    if CacheKey(a) == CacheKey(b) {
      assert a == CacheKey(a)[|KeyPrefix|..];
    }
  }

  /** The keys of the cache's namespace present in storage. */
  function CacheKeys(m: map<string, Entry>): set<string> {
    set k | k in m && IsCacheKey(k)
  }

  /** Some entry of the namespace does not parse. */
  predicate HasMalformed(m: map<string, Entry>) {
    exists k | k in m && IsCacheKey(k) :: m[k].Malformed?
  }

  /** The timestamp the sort comparator reads for key `k`. */
  function Stamp(m: map<string, Entry>, k: string): int {
    if k in m && m[k].Valid? then m[k].timestamp else 0
  }

  /** The comparator `(a, b) => timeB - timeA`: newest first. */
  function NewestFirst(m: map<string, Entry>): (string, string) -> bool {
    (a: string, b: string) => Stamp(m, a) >= Stamp(m, b)
  }

  lemma NewestFirstIsPreorder(m: map<string, Entry>)
    ensures TotalPreorder(NewestFirst(m))
  {
  }

  /** Storage with the whole cache namespace removed. */
  function WithoutCacheKeys(m: map<string, Entry>): (r: map<string, Entry>)
    ensures CacheKeys(r) == {}
    ensures forall k | k in m && !IsCacheKey(k) :: k in r && r[k] == m[k]
    ensures forall k | k in r :: k in m && !IsCacheKey(k)
  {
    map k | k in m && !IsCacheKey(k) :: m[k]
  }

  /** Clearing twice is clearing once. */
  lemma ClearIdempotent(m: map<string, Entry>)
    ensures WithoutCacheKeys(WithoutCacheKeys(m)) == WithoutCacheKeys(m)
  {
  }

  /** Removing every key after the first `MaxEntries` of the newest-first order leaves exactly
      `MaxEntries` cache entries, none of them older than any entry removed. */
  lemma {:induction false} EvictionKeepsNewest(m: map<string, Entry>, sorted: seq<string>)
    requires !HasMalformed(m)
    requires Elems(sorted) == CacheKeys(m)
    requires Distinct(sorted) && SortedBy(sorted, NewestFirst(m))
    requires |sorted| > MaxEntries
    ensures var r := m - Elems(sorted[MaxEntries..]);
      |CacheKeys(r)| == MaxEntries &&
      forall a, b | a in CacheKeys(r) && b in CacheKeys(m) - CacheKeys(r) ::
        m[a].timestamp >= m[b].timestamp
  {
    var r := m - Elems(sorted[MaxEntries..]);
    var kept := sorted[..MaxEntries];
    EvictionKeepsPrefix(m, sorted);
    assert Distinct(kept);
    DistinctCardinality(kept);
    forall a, b | a in CacheKeys(r) && b in CacheKeys(m) - CacheKeys(r)
      ensures m[a].timestamp >= m[b].timestamp
    {
      var i :| 0 <= i < |kept| && kept[i] == a;
      var j :| 0 <= j < |sorted| && sorted[j] == b;
      assert j >= MaxEntries;
      assert NewestFirst(m)(sorted[i], sorted[j]);
    }
  }

  /** The cache keys left after the removal are exactly the first `MaxEntries` of the order. */
  lemma {:induction false} EvictionKeepsPrefix(m: map<string, Entry>, sorted: seq<string>)
    requires Elems(sorted) == CacheKeys(m) && Distinct(sorted) && |sorted| > MaxEntries
    ensures CacheKeys(m - Elems(sorted[MaxEntries..])) == Elems(sorted[..MaxEntries])
  {
    var r := m - Elems(sorted[MaxEntries..]);
    var kept := sorted[..MaxEntries];
    assert forall i | 0 <= i < |sorted| :: i < MaxEntries ==> sorted[i] in kept;
    assert forall i | 0 <= i < |sorted| :: i >= MaxEntries ==> sorted[i] in sorted[MaxEntries..];
    forall x | x in kept ensures x !in sorted[MaxEntries..] {
      var i :| 0 <= i < |kept| && kept[i] == x;
      forall j | MaxEntries <= j < |sorted| ensures sorted[j] != x {
        assert sorted[i] == x;
      }
    }
    assert sorted == kept + sorted[MaxEntries..];
    forall x | x in CacheKeys(r) ensures x in kept {
      assert x in sorted && x !in sorted[MaxEntries..];
    }
    forall x | x in kept ensures x in CacheKeys(r) {
      assert x in sorted;
    }
  }

  /** Writing a cache key adds at most that key to the namespace. */
  lemma WriteCacheKey(m: map<string, Entry>, key: string, e: Entry)
    requires IsCacheKey(key)
    ensures CacheKeys(m[key := e]) == CacheKeys(m) + {key}
    ensures |CacheKeys(m[key := e])| <= |CacheKeys(m)| + 1
  {
  }

  /** The static `BlockCache` class over the page's `localStorage`. */
  /** What `cleanupCache` guarantees of the storage it leaves: no key is added and no value
      changed, keys outside the namespace stay; a malformed entry or at most `MaxEntries`
      entries leave storage as it was; otherwise exactly `MaxEntries` entries remain, none older
      than an entry removed. */
  predicate Cleaned(before: map<string, Entry>, after: map<string, Entry>) {
    && after.Keys <= before.Keys
    && (forall k | k in after :: after[k] == before[k])
    && (forall k | k in before && !IsCacheKey(k) :: k in after)
    && (HasMalformed(before) || |CacheKeys(before)| <= MaxEntries ==> after == before)
    && (!HasMalformed(before) && |CacheKeys(before)| > MaxEntries ==>
          |CacheKeys(after)| == MaxEntries &&
          forall a, b | a in CacheKeys(after) && b in CacheKeys(before) - CacheKeys(after) ::
            before[a].timestamp >= before[b].timestamp)
  }

  class BlockCache {
    var storage: map<string, Entry>

    constructor(initial: map<string, Entry>)
      ensures storage == initial
    {
      storage := initial;
    }

    /** `Object.keys(localStorage).filter(key => key.startsWith(prefix))`: every key of the
        namespace once, in the browser's (unspecified) key order. */
    method ListCacheKeys() returns (keys: seq<string>)
      ensures Distinct(keys)
      ensures Elems(keys) == CacheKeys(storage)
    {
      var remaining := storage.Keys;
      keys := [];
      while remaining != {}
        invariant remaining <= storage.Keys
        invariant Distinct(keys)
        invariant forall x | x in keys :: x !in remaining
        invariant Elems(keys) == CacheKeys(storage) - remaining
        decreases |remaining|
      {
        var k :| k in remaining;
        remaining := remaining - {k};
        if IsCacheKey(k) {
          ElemsAppend(keys, k);
          keys := keys + [k];
        }
      }
    }

    /** `cleanupCache`: when the namespace holds more than `MaxEntries` keys, removes all but the
        `MaxEntries` newest. A malformed entry makes the comparator's `JSON.parse` throw; the
        error is caught and nothing is removed. */
    method CleanupCache()
      modifies this
      ensures Cleaned(old(storage), storage)
    {
      var keys := ListCacheKeys();
      assert forall k | k in keys :: k in storage;
      if exists k | k in keys :: storage[k].Malformed? {
        return;
      }
      assert !HasMalformed(storage);
      EvictOldest(keys);
    }

    /** The sort and the `slice(maxEntries).forEach(removeItem)` of `cleanupCache`, once every
        cache entry has parsed. */
    method EvictOldest(keys: seq<string>)
      requires Distinct(keys) && Elems(keys) == CacheKeys(storage) && !HasMalformed(storage)
      modifies this
      ensures storage.Keys <= old(storage).Keys
      ensures forall k | k in storage :: storage[k] == old(storage)[k]
      ensures forall k | k in old(storage) && !IsCacheKey(k) :: k in storage
      ensures |CacheKeys(old(storage))| <= MaxEntries ==> storage == old(storage)
      ensures |CacheKeys(old(storage))| > MaxEntries ==>
        |CacheKeys(storage)| == MaxEntries &&
        forall a, b | a in CacheKeys(storage) && b in CacheKeys(old(storage)) - CacheKeys(storage) ::
          old(storage)[a].timestamp >= old(storage)[b].timestamp
    {
      var m := storage;
      NewestFirstIsPreorder(m);
      var sorted := SortBy(keys, NewestFirst(m));
      PermutationElems(keys, sorted);
      PermutationKeepsDistinct(keys, sorted);
      DistinctCardinality(keys);
      if |sorted| > MaxEntries {
        RemoveAll(sorted[MaxEntries..]);
        EvictionKeepsNewest(m, sorted);
      }
    }

    method RemoveAll(keys: seq<string>)
      modifies this
      ensures storage == old(storage) - Elems(keys)
    {
      var i := 0;
      while i < |keys|
        invariant 0 <= i <= |keys|
        invariant storage == old(storage) - Elems(keys[..i])
      {
        assert keys[..i + 1] == keys[..i] + [keys[i]];
        ElemsAppend(keys[..i], keys[i]);
        storage := storage - {keys[i]};
        i := i + 1;
      }
      assert keys[..i] == keys;
    }

    /** `cacheBlocks`: cleans up first (`cleaned` is the storage the cleanup leaves), then writes
        `{timestamp: now, blocks}` under the slug's key. `writeFails` stands for `setItem`
        throwing (quota exceeded): caught, nothing written, and the cleanup already done stays
        done. */
    method CacheBlocks(slug: string, blocks: seq<Block>, now: int, writeFails: bool)
      returns (ghost cleaned: map<string, Entry>)
      modifies this
      ensures Cleaned(old(storage), cleaned)
      ensures storage == if writeFails then cleaned else cleaned[CacheKey(slug) := Valid(now, blocks)]
      ensures HasMalformed(old(storage)) || |CacheKeys(old(storage))| <= MaxEntries ==>
        storage == if writeFails then old(storage) else old(storage)[CacheKey(slug) := Valid(now, blocks)]
      ensures !writeFails ==> CacheKey(slug) in storage && storage[CacheKey(slug)] == Valid(now, blocks)
      ensures forall k | k in storage && (writeFails || k != CacheKey(slug)) ::
        k in old(storage) && storage[k] == old(storage)[k]
      ensures forall k | k in old(storage) && !IsCacheKey(k) :: k in storage
      ensures !HasMalformed(old(storage)) ==> |CacheKeys(storage)| <= MaxEntries + 1
    {
      ghost var before := storage;
      CleanupCache();
      cleaned := storage;
      assert !HasMalformed(before) ==> |CacheKeys(storage)| <= MaxEntries;
      if !writeFails {
        WriteCacheKey(storage, CacheKey(slug), Valid(now, blocks));
        storage := storage[CacheKey(slug) := Valid(now, blocks)];
      }
    }

    /** `getCachedBlocks`: the blocks stored for the slug when the entry is at most `Duration`
        old; an expired entry is removed; a missing or unparseable entry yields null and leaves
        storage alone. */
    method GetCachedBlocks(slug: string, now: int) returns (r: Option<seq<Block>>)
      modifies this
      ensures CacheKey(slug) !in old(storage) ==> r == None && storage == old(storage)
      ensures CacheKey(slug) in old(storage) && old(storage)[CacheKey(slug)].Malformed? ==>
        r == None && storage == old(storage)
      ensures CacheKey(slug) in old(storage) && old(storage)[CacheKey(slug)].Valid? ==>
        var e := old(storage)[CacheKey(slug)];
        if now - e.timestamp > Duration
        then r == None && storage == old(storage) - {CacheKey(slug)}
        else r == Some(e.blocks) && storage == old(storage)
    {
      var key := CacheKey(slug);
      if key !in storage {
        return None;
      }
      match storage[key]
      case Malformed =>
        r := None;
      case Valid(timestamp, blocks) =>
        if now - timestamp > Duration {
          storage := storage - {key};
          r := None;
        } else {
          r := Some(blocks);
        }
    }

    /** `clearCache`: removes every key of the namespace, one by one, and nothing else. */
    method ClearCache()
      modifies this
      ensures storage == WithoutCacheKeys(old(storage))
    {
      var keys := ListCacheKeys();
      RemoveAll(keys);
    }
  }

  /** A write followed by a read within `Duration` gives the written blocks back, whatever else
      storage held. */
  method CacheThenRead(c: BlockCache, slug: string, blocks: seq<Block>, now: int, later: int)
    returns (r: Option<seq<Block>>)
    requires later - now <= Duration
    modifies c
    ensures r == Some(blocks)
  {
    ghost var cleaned := c.CacheBlocks(slug, blocks, now, false);
    r := c.GetCachedBlocks(slug, later);
  }
}
