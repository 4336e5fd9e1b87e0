/**
 * The in-memory cache store and its get-or-populate manager
 * (src/lib/cache/index.ts). The JavaScript `Map` becomes the `entries` map plus
 * `order`, the map's insertion order, which decides the iteration order of the
 * maintenance sweep and breaks ties in capacity eviction. The clock reading and
 * the byte size of a value are parameters.
 */
module Caching {
  import opened Wrappers
  import opened JsValues
  import opened Errors
  import opened Operations
  import opened Seqs
  import opened CacheEntries

  const SizeLimitMessage := "Value exceeds size limit"
  const SetFailed := "set_failed"

  /** The whole state of a cache store: entries, insertion order, tag index and running size. */
  datatype CacheState = CacheState(entries: map<string, Entry>, order: seq<string>, tagIndex: TagIndex, totalSize: int)

  /**
   * The store after `get(key)` at `now`: unchanged when the key is absent;
   * the entry deleted (with its size and tag links) when it has expired;
   * otherwise the hit counted and `lastAccessed` set to `now`.
   */
  function AfterGet(s: CacheState, key: string, now: int): CacheState {
    if key !in s.entries then s
    else
      var e := s.entries[key];
      if IsExpired(e, now) then
        CacheState(s.entries - {key}, Remove(s.order, key), Untagged(s.tagIndex, Elements(e.tags), key), s.totalSize - e.size)
      else
        s.(entries := s.entries[key := e.(hits := e.hits + 1, lastAccessed := now)])
  }

  /**
   * The store after a `set` that evicted the keys `evicted` and then stored
   * `entry` under `key`: the survivors keep their order (a new key goes
   * last), the evicted keys leave the tag index and the new tags are filed.
   */
  function AfterSet(s: CacheState, key: string, entry: Entry, evicted: seq<string>): CacheState {
    var left := s.entries - Elements(evicted);
    var kept := Without(s.order, Elements(evicted));
    CacheState(left[key := entry], if key in left then kept else kept + [key],
          Tagged(UntaggedAll(s.tagIndex, s.entries, Elements(evicted)), Elements(entry.tags), key),
          s.totalSize - SumSizes(evicted, s.entries) - SizeAt(left, key) + entry.size)
  }

  datatype Stats = Stats(hits: nat, misses: nat, size: int, entryCount: nat, oldestEntry: Bound, newestEntry: Bound)

  class Cache {
    const settings: Settings
    var entries: map<string, Entry>
    var order: seq<string>
    var tagIndex: TagIndex
    var totalSize: int

    /**
     * `order` lists every key once, `totalSize` is the sum of the entry sizes,
     * every tag of a live entry files that entry, and no bucket is empty.
     */
    ghost predicate Valid()
      reads this
    {
      Consistent(entries, order, tagIndex, totalSize)
    }

    /** The store's current state. */
    function Snapshot(): CacheState
      reads this
    {
      CacheState(entries, order, tagIndex, totalSize)
    }

    constructor (config: CacheConfig)
      ensures Valid()
      ensures settings == Configure(config)
      ensures entries == map[] && order == [] && tagIndex == map[] && totalSize == 0
    {
      settings := Configure(config);
      entries := map[];
      order := [];
      tagIndex := map[];
      totalSize := 0;
    }

    /**
     * `get`: `Null` on a miss. An expired entry is deleted first; a hit counts
     * itself and refreshes `lastAccessed` in place.
     */
    method Get(key: string, now: int) returns (r: Value)
      requires Valid()
      modifies this
      ensures Valid()
      ensures Snapshot() == AfterGet(old(Snapshot()), key, now)
      ensures key !in old(entries) ==>
        r == Null && entries == old(entries) && order == old(order) && tagIndex == old(tagIndex) && totalSize == old(totalSize)
      ensures key in old(entries) && IsExpired(old(entries)[key], now) ==>
        && r == Null && entries == old(entries) - {key} && order == Remove(old(order), key)
        && totalSize == old(totalSize) - old(entries)[key].size
        && tagIndex == Untagged(old(tagIndex), Elements(old(entries)[key].tags), key)
      ensures key in old(entries) && !IsExpired(old(entries)[key], now) ==>
        var e := old(entries)[key];
        && r == e.value
        && entries == old(entries)[key := e.(hits := e.hits + 1, lastAccessed := now)]
        && order == old(order) && tagIndex == old(tagIndex) && totalSize == old(totalSize)
    {
      if key !in entries {
        return Null;
      }
      var e := entries[key];
      if IsExpired(e, now) {
        Delete(key);
        return Null;
      }
      var e' := e.(hits := e.hits + 1, lastAccessed := now);
      SumReplace(order, entries, key, e');
      entries := entries[key := e'];
      r := e.value;
    }

    /**
     * `delete`: drops the entry, its size and its key from the buckets of its
     * tags (pruning buckets that become empty); an absent key changes nothing.
     */
    method Delete(key: string)
      requires Valid()
      modifies this
      ensures Valid()
      ensures entries == old(entries) - {key}
      ensures order == Remove(old(order), key)
      ensures key in old(entries) ==>
        && totalSize == old(totalSize) - old(entries)[key].size
        && tagIndex == Untagged(old(tagIndex), Elements(old(entries)[key].tags), key)
      ensures key !in old(entries) ==> totalSize == old(totalSize) && tagIndex == old(tagIndex)
    {
      if key !in entries {
        return;
      }
      var e := entries[key];
      DeleteKeepsConsistent(entries, order, tagIndex, totalSize, key);
      var index := UnfileKey(tagIndex, key, e.tags);
      totalSize := totalSize - e.size;
      tagIndex := index;
      entries := entries - {key};
      order := Remove(order, key);
    }

    /** The tag loop of `delete`: unfile `key` from each tag's bucket, dropping buckets that empty. */
    static method UnfileKey(start: TagIndex, key: string, tags: seq<string>) returns (index: TagIndex)
      ensures index == Untagged(start, Elements(tags), key)
    {
      index := start;
      UntaggedNone(start, key);
      for i := 0 to |tags|
        invariant index == Untagged(start, Elements(tags[..i]), key)
      {
        ElementsPrefix(tags, i);
        UntagStep(start, Elements(tags[..i]), tags[i], key);
        index := UntagOne(index, tags[i], key);
      }
      assert tags[..|tags|] == tags;
    }

    /** `updateTagIndex`: file `key` under each tag, creating buckets as needed; nothing is unfiled. */
    static method Filed(start: TagIndex, key: string, tags: seq<string>) returns (index: TagIndex)
      ensures index == Tagged(start, Elements(tags), key)
    {
      index := start;
      TaggedNone(start, key);
      for i := 0 to |tags|
        invariant index == Tagged(start, Elements(tags[..i]), key)
      {
        ElementsPrefix(tags, i);
        TagStep(start, Elements(tags[..i]), tags[i], key);
        index := TagOne(index, tags[i], key);
      }
      assert tags[..|tags|] == tags;
    }

    /**
     * `ensureCapacity`: nothing happens when the new value fits under the
     * configured `maxSize`; otherwise entries are deleted in ascending priority
     * (ties in insertion order) until it fits or the store is empty.
     */
    method EnsureCapacity(required: nat, now: int) returns (ghost evicted: seq<string>)
      requires Valid()
      modifies this
      ensures Valid()
      ensures old(totalSize) + required <= settings.maxSize ==>
        evicted == [] && entries == old(entries) && order == old(order) && tagIndex == old(tagIndex) && totalSize == old(totalSize)
      ensures RankedPrefix(evicted, old(order), old(entries), now)
      ensures entries == old(entries) - Elements(evicted)
      ensures order == Without(old(order), Elements(evicted))
      ensures tagIndex == UntaggedAll(old(tagIndex), old(entries), Elements(evicted))
      ensures totalSize == old(totalSize) - SumSizes(evicted, old(entries))
      ensures totalSize + required <= settings.maxSize || entries == map[]
      ensures |evicted| > 0 ==>
        old(totalSize) - SumSizes(evicted[..|evicted| - 1], old(entries)) + required > settings.maxSize
    {
      if totalSize + required <= settings.maxSize {
        PurgedNone(entries, order, tagIndex);
        assert Elements<string>([]) == {};
        return [];
      }
      var ranked := RankByPriority(order, entries, now);
      RankedElements(order, entries, now);
      var i := EvictInOrder(ranked, required);
      EvictionSettles(old(order), old(entries), now, i, old(totalSize), totalSize, required, settings.maxSize);
      evicted := ranked[..i];
    }

    /** The eviction loop of `ensureCapacity`: delete keys in the given order until the new value fits. */
    method EvictInOrder(ranked: seq<string>, required: nat) returns (i: nat)
      requires Valid()
      requires Distinct(ranked) && Elements(ranked) == entries.Keys
      modifies this
      ensures Valid()
      ensures i <= |ranked|
      ensures entries == old(entries) - Elements(ranked[..i])
      ensures order == Without(old(order), Elements(ranked[..i]))
      ensures tagIndex == UntaggedAll(old(tagIndex), old(entries), Elements(ranked[..i]))
      ensures totalSize == old(totalSize) - SumSizes(ranked[..i], old(entries))
      ensures i > 0 ==> old(totalSize) - SumSizes(ranked[..i - 1], old(entries)) + required > settings.maxSize
      ensures i < |ranked| ==> totalSize + required <= settings.maxSize
    {
      i := 0;
      PurgedNone(entries, order, tagIndex);
      assert Elements(ranked[..0]) == {};
      while i < |ranked| && totalSize + required > settings.maxSize
        invariant 0 <= i <= |ranked|
        invariant Valid()
        invariant Purged(entries, order, tagIndex, old(entries), old(order), old(tagIndex), Elements(ranked[..i]))
        invariant entries == old(entries) - Elements(ranked[..i])
        invariant totalSize == old(totalSize) - SumSizes(ranked[..i], old(entries))
        invariant i > 0 ==> old(totalSize) - SumSizes(ranked[..i - 1], old(entries)) + required > settings.maxSize
      {
        var k := ranked[i];
        EvictStep(ranked, i, old(entries), old(totalSize), entries, totalSize);
        PurgeStep(old(entries), old(order), old(tagIndex), Elements(ranked[..i]), entries, order, tagIndex, k);
        ElementsPrefix(ranked, i);
        Delete(k);
        i := i + 1;
      }
    }

    /**
     * `set`: an oversize value (against the per-call `maxSize`, else the
     * configured one) changes nothing and surfaces as the `set_failed`
     * `CacheError`. Otherwise capacity is made, the fresh entry replaces any
     * old one (keeping its place in `order`) and its tags are filed; the old
     * entry's tags stay filed.
     */
    method Set(key: string, value: Value, size: nat, options: CacheOptions, now: int)
      returns (err: Option<Err>, ghost evicted: seq<string>)
      requires Valid()
      modifies this
      ensures Valid()
      ensures size > options.maxSize.GetOr(settings.maxSize) ==>
        && err == Some(CacheError(SizeLimitMessage, SetFailed, key)) && evicted == []
        && entries == old(entries) && order == old(order) && tagIndex == old(tagIndex) && totalSize == old(totalSize)
      ensures size <= options.maxSize.GetOr(settings.maxSize) ==>
        && err == None
        && RankedPrefix(evicted, old(order), old(entries), now)
        && Snapshot() == AfterSet(old(Snapshot()), key, NewEntry(value, size, options, now, settings), evicted)
        && (totalSize <= settings.maxSize || entries.Keys == {key})
      ensures size <= options.maxSize.GetOr(settings.maxSize) && old(totalSize) + size <= settings.maxSize ==>
        && evicted == []
        && order == (if key in old(entries) then old(order) else old(order) + [key])
        && totalSize == old(totalSize) - SizeAt(old(entries), key) + size
        && tagIndex == Tagged(old(tagIndex), Elements(options.tags.GetOr([])), key)
    {
      if size > options.maxSize.GetOr(settings.maxSize) {
        return Some(CacheError(SizeLimitMessage, SetFailed, key)), [];
      }
      evicted := EnsureCapacity(size, now);
      Store(key, NewEntry(value, size, options, now, settings));
      err := None;
    }

    /** The storing half of `set`: replace or append the entry, adjust the running size, file the new tags. */
    method Store(key: string, entry: Entry)
      requires Valid()
      modifies this
      ensures Valid()
      ensures entries == old(entries)[key := entry]
      ensures order == if key in old(entries) then old(order) else old(order) + [key]
      ensures totalSize == old(totalSize) - SizeAt(old(entries), key) + entry.size
      ensures tagIndex == Tagged(old(tagIndex), Elements(entry.tags), key)
    {
      StoreKeepsConsistent(entries, order, tagIndex, totalSize, key, entry);
      if key in entries {
        totalSize := totalSize - entries[key].size;
      } else {
        order := order + [key];
      }
      entries := entries[key := entry];
      totalSize := totalSize + entry.size;
      var index := Filed(tagIndex, key, entry.tags);
      tagIndex := index;
    }

    /** `maintenance`: one pass over the entries in insertion order, deleting each that does not survive. */
    method Maintenance(now: int)
      requires Valid()
      modifies this
      ensures Valid()
      ensures entries == Surviving(old(entries), now, settings.defaultTtl)
      ensures order == Without(old(order), old(entries).Keys - entries.Keys)
      ensures tagIndex == UntaggedAll(old(tagIndex), old(entries), old(entries).Keys - entries.Keys)
      ensures totalSize == SumSizes(old(order), entries)
    {
      var keys := order;
      SweepEnds(old(entries), Elements(keys), now, settings.defaultTtl);
      assert Elements(keys[..0]) == {};
      PurgedNone(entries, order, tagIndex);
      ghost var gone: set<string> := {};
      for i := 0 to |keys|
        invariant Valid()
        invariant entries == SweptOver(old(entries), Elements(keys[..i]), now, settings.defaultTtl)
        invariant Purged(entries, order, tagIndex, old(entries), old(order), old(tagIndex), gone)
      {
        var k := keys[i];
        ElementsPrefix(keys, i);
        DistinctNotInPrefix(keys, i);
        SweepStep(old(entries), Elements(keys[..i]), k, now, settings.defaultTtl);
        var e := entries[k];
        if IsExpired(e, now) || ShouldEvict(e, now, settings.defaultTtl) {
          PurgeStep(old(entries), old(order), old(tagIndex), gone, entries, order, tagIndex, k);
          Delete(k);
          gone := gone + {k};
        }
      }
      assert keys[..|keys|] == keys;
      PurgedExactly(entries, order, tagIndex, totalSize, old(entries), old(order), old(tagIndex), gone);
    }

    /** `invalidateByTag`: deletes every key filed under `tag`, then drops the bucket. */
    method InvalidateByTag(tag: string)
      requires Valid()
      modifies this
      ensures Valid()
      ensures entries == old(entries) - Bucket(old(tagIndex), tag)
      ensures tag !in tagIndex && tagIndex.Keys <= old(tagIndex).Keys
      ensures forall k :: k in entries ==> tag !in entries[k].tags
      ensures KeepsLiveBuckets(old(tagIndex), tagIndex, entries.Keys, {tag})
      ensures order == Without(old(order), old(entries).Keys - entries.Keys)
      ensures tagIndex == UntaggedAll(old(tagIndex), old(entries), old(entries).Keys - entries.Keys) - {tag}
      ensures totalSize == SumSizes(old(order), entries)
    {
      if tag !in tagIndex {
        UnfiledTag(entries, order, tagIndex, totalSize, tag);
        return;
      }
      var keys := tagIndex[tag];
      DeleteEach(keys);
      InvalidatedTag(old(entries), old(order), old(tagIndex), old(totalSize), tag, entries, order, tagIndex, totalSize);
      tagIndex := tagIndex - {tag};
    }

    /** The fan-out of `invalidateByTag`: `delete` each key of a bucket, one after another. */
    method DeleteEach(keys: set<string>)
      requires Valid() && NoEmptyBuckets(tagIndex)
      modifies this
      ensures Valid()
      ensures Purged(entries, order, tagIndex, old(entries), old(order), old(tagIndex), keys)
    {
      PurgedNone(entries, order, tagIndex);
      var remaining := keys;
      assert keys - remaining == {};
      while remaining != {}
        invariant remaining <= keys
        invariant Valid()
        invariant Purged(entries, order, tagIndex, old(entries), old(order), old(tagIndex), keys - remaining)
        decreases remaining
      {
        var k :| k in remaining;
        PurgeStep(old(entries), old(order), old(tagIndex), keys - remaining, entries, order, tagIndex, k);
        assert (keys - remaining) + {k} == keys - (remaining - {k});
        Delete(k);
        remaining := remaining - {k};
      }
      assert keys - remaining == keys;
    }

    /** `invalidateByTags`: invalidates each tag in turn; the result is the same as the concurrent original's. */
    method InvalidateByTags(tags: seq<string>)
      requires Valid()
      modifies this
      ensures Valid()
      ensures entries == old(entries) - BucketsOf(old(tagIndex), tags)
      ensures forall k, t :: k in entries && t in tags ==> t !in entries[k].tags
      ensures order == Without(old(order), old(entries).Keys - entries.Keys)
      ensures tagIndex == UntaggedAll(old(tagIndex), old(entries), old(entries).Keys - entries.Keys) - Elements(tags)
      ensures totalSize == SumSizes(old(order), entries)
    {
      PurgedNone(entries, order, tagIndex);
      assert entries.Keys - entries.Keys == {} && Elements(tags[..0]) == {};
      for i := 0 to |tags|
        invariant Valid()
        invariant entries == old(entries) - BucketsOf(old(tagIndex), tags[..i])
        invariant order == Without(old(order), old(entries).Keys - entries.Keys)
        invariant tagIndex == UntaggedAll(old(tagIndex), old(entries), old(entries).Keys - entries.Keys) - Elements(tags[..i])
      {
        ghost var index1, live, order1 := tagIndex, entries, order;
        BucketAfterPurge(old(entries), old(tagIndex), tags, i, live, index1);
        InvalidateByTag(tags[i]);
        ElementsPrefix(tags, i);
        InvalidateTagsStep(old(entries), old(order), old(tagIndex), Elements(tags[..i]), tags[i],
          BucketsOf(old(tagIndex), tags[..i]), live, order1, index1, entries, order, tagIndex);
      }
      assert tags[..|tags|] == tags;
      NoneTagged(old(entries), old(order), old(tagIndex), old(totalSize), tags, entries);
      ghost var gone := old(entries).Keys - entries.Keys;
      assert entries == old(entries) - gone;
      PurgedExactly(entries, order, UntaggedAll(old(tagIndex), old(entries), gone), totalSize,
        old(entries), old(order), old(tagIndex), gone);
    }

    /** `invalidateByPattern`: deletes exactly the stored keys the pattern matches. */
    method InvalidateByPattern(matches: string -> bool)
      requires Valid()
      modifies this
      ensures Valid()
      ensures entries == map k | k in old(entries) && !matches(k) :: old(entries)[k]
      ensures order == Without(old(order), old(entries).Keys - entries.Keys)
      ensures tagIndex == UntaggedAll(old(tagIndex), old(entries), old(entries).Keys - entries.Keys)
      ensures totalSize == SumSizes(old(order), entries)
    {
      var doomed := Filter(order, matches);
      DoomedByPattern(old(entries), order, matches);
      PurgedNone(entries, order, tagIndex);
      assert Elements(doomed[..0]) == {};
      for i := 0 to |doomed|
        invariant Valid()
        invariant Purged(entries, order, tagIndex, old(entries), old(order), old(tagIndex), Elements(doomed[..i]))
      {
        ElementsPrefix(doomed, i);
        PurgeStep(old(entries), old(order), old(tagIndex), Elements(doomed[..i]), entries, order, tagIndex, doomed[i]);
        Delete(doomed[i]);
      }
      assert doomed[..|doomed|] == doomed;
      PurgedExactly(entries, order, tagIndex, totalSize, old(entries), old(order), old(tagIndex), Elements(doomed));
    }

    /** `clear`: empties the entries and the tag index and zeroes the running size. */
    method Clear()
      modifies this
      ensures Valid()
      ensures entries == map[] && order == [] && tagIndex == map[] && totalSize == 0
    {
      entries := map[];
      order := [];
      tagIndex := map[];
      totalSize := 0;
    }

    /** `getStats`: the hit total, the running size, the entry count and the access-time extremes. */
    function GetStats(): (r: Stats)
      requires Valid()
      reads this
      ensures r.hits == SumHits(order, entries)
      ensures r.misses == 0 && r.size == totalSize && r.entryCount == |entries|
      ensures entries == map[] <==> r.oldestEntry == PosInfinity
      ensures entries == map[] <==> r.newestEntry == NegInfinity
      ensures r.oldestEntry.At? ==> exists k :: k in entries && entries[k].lastAccessed == r.oldestEntry.time
      ensures r.oldestEntry.At? ==> forall k :: k in entries ==> r.oldestEntry.time <= entries[k].lastAccessed
      ensures r.newestEntry.At? ==> exists k :: k in entries && entries[k].lastAccessed == r.newestEntry.time
      ensures r.newestEntry.At? ==> forall k :: k in entries ==> entries[k].lastAccessed <= r.newestEntry.time
    {
      DistinctCard(order);
      assert order == [] <==> entries == map[] by {
        if order != [] { assert order[0] in entries; }
        if entries != map[] { var k :| k in entries; assert k in order; }
      }
      Stats(SumHits(order, entries), 0, totalSize, |order|, OldestAccess(order, entries), NewestAccess(order, entries))
    }
  }

  /** What `getOrSet` treats as a hit: a live entry whose value is not `null`. */
  predicate Hit(entries: map<string, Entry>, key: string, now: int) {
    key in entries && !IsExpired(entries[key], now) && entries[key].value != Null
  }

  /** `CacheManager`: get-or-populate over one cache. */
  class CacheManager {
    const cache: Cache

    ghost predicate Valid()
      reads this, cache
    {
      cache.Valid()
    }

    constructor (cache: Cache)
      ensures this.cache == cache
    {
      this.cache := cache;
    }

    /**
     * `getOrSet`: a cached value other than `null` is returned without running
     * the factory. Otherwise the factory runs exactly once and its value is
     * stored with the given options and returned; a factory failure or a
     * failed store is passed on.
     */
    method GetOrSet(key: string, factory: Operation, options: CacheOptions, sizeOf: Value -> nat, now: int)
      returns (r: Result<Value, Thrown>, ghost evicted: seq<string>)
      requires Valid()
      modifies cache, factory
      ensures Valid()
      ensures Hit(old(cache.entries), key, now) ==>
        && r == Success(old(cache.entries)[key].value) && factory.calls == old(factory.calls)
        && cache.Snapshot() == AfterGet(old(cache.Snapshot()), key, now)
      ensures !Hit(old(cache.entries), key, now) ==> factory.calls == old(factory.calls) + 1
      ensures !Hit(old(cache.entries), key, now) && factory.outcomeAt(old(factory.calls)).Threw? ==>
        && r == Failure(factory.outcomeAt(old(factory.calls)).thrown)
        && cache.Snapshot() == AfterGet(old(cache.Snapshot()), key, now)
      ensures !Hit(old(cache.entries), key, now) && factory.outcomeAt(old(factory.calls)).Returned? ==>
        var v := factory.outcomeAt(old(factory.calls)).value;
        var read := AfterGet(old(cache.Snapshot()), key, now);
        if sizeOf(v) > options.maxSize.GetOr(cache.settings.maxSize) then
          r == Failure(Error(CacheError(SizeLimitMessage, SetFailed, key))) && cache.Snapshot() == read
        else
          && r == Success(v)
          && RankedPrefix(evicted, read.order, read.entries, now)
          && cache.Snapshot() == AfterSet(read, key, NewEntry(v, sizeOf(v), options, now, cache.settings), evicted)
    {
      evicted := [];
      var cached := Lookup(key, now);
      if cached.Some? {
        return Success(cached.value), [];
      }
      var outcome := factory.Invoke();
      match outcome {
        case Threw(t) =>
          r := Failure(t);
        case Returned(v) =>
          r, evicted := Fill(key, v, sizeOf(v), options, now);
      }
    }

    /** The reading half of `getOrSet`: the cached value, when it is there and not `null`. */
    method Lookup(key: string, now: int) returns (cached: Option<Value>)
      requires Valid()
      modifies cache
      ensures Valid()
      ensures cached.Some? <==> Hit(old(cache.entries), key, now)
      ensures cached.Some? ==> cached.value == old(cache.entries)[key].value
      ensures cache.Snapshot() == AfterGet(old(cache.Snapshot()), key, now)
    {
      var value := cache.Get(key, now);
      cached := if value != Null then Some(value) else None;
    }

    /** The storing half of `getOrSet`: `set` the produced value, then return it; a rejected store is passed on. */
    method Fill(key: string, value: Value, size: nat, options: CacheOptions, now: int)
      returns (r: Result<Value, Thrown>, ghost evicted: seq<string>)
      requires Valid()
      modifies cache
      ensures Valid()
      ensures size > options.maxSize.GetOr(cache.settings.maxSize) ==>
        r == Failure(Error(CacheError(SizeLimitMessage, SetFailed, key))) && cache.Snapshot() == old(cache.Snapshot())
      ensures size <= options.maxSize.GetOr(cache.settings.maxSize) ==>
        && r == Success(value)
        && RankedPrefix(evicted, old(cache.order), old(cache.entries), now)
        && cache.Snapshot() == AfterSet(old(cache.Snapshot()), key, NewEntry(value, size, options, now, cache.settings), evicted)
    {
      var err;
      err, evicted := cache.Set(key, value, size, options, now);
      if err.Some? {
        r := Failure(Error(err.value));
      } else {
        r := Success(value);
      }
    }
  }
}
