/**
 * The pure part of the cache store (src/lib/cache/index.ts): entries, options,
 * the expiry / eviction / priority rules, the running-size sum, the tag index
 * as the store updates it, and the priority ranking used by capacity eviction.
 */
module CacheEntries {
  import opened Wrappers
  import opened JsValues
  import opened Seqs

  const DefaultTtl: int := 60000
  const DefaultMaxEntries: int := 1000
  const DefaultMaxSize: int := 5 * 1024 * 1024

  /** The constructor's configuration; absent fields take the defaults. */
  datatype CacheConfig = CacheConfig(defaultTtl: Option<int>, maxEntries: Option<int>, maxSize: Option<int>)

  datatype Settings = Settings(defaultTtl: int, maxEntries: int, maxSize: int)

  function Configure(c: CacheConfig): Settings {
    Settings(c.defaultTtl.GetOr(DefaultTtl), c.maxEntries.GetOr(DefaultMaxEntries), c.maxSize.GetOr(DefaultMaxSize))
  }

  /** Per-call options of `set`; `compress`, `priority` and `ignoreErrors` are never read by the store. */
  datatype CacheOptions = CacheOptions(ttl: Option<int>, tags: Option<seq<string>>, maxSize: Option<int>)

  const NoOptions := CacheOptions(None, None, None)

  datatype Entry = Entry(value: Value, expiresAt: int, tags: seq<string>, size: nat, lastAccessed: int, hits: nat)

  /** The entry `set` builds: fresh statistics, expiry `now + (ttl ?? defaultTtl)`, tags `tags ?? []`. */
  function NewEntry(value: Value, size: nat, options: CacheOptions, now: int, settings: Settings): Entry {
    Entry(value, now + options.ttl.GetOr(settings.defaultTtl), options.tags.GetOr([]), size, now, 0)
  }

  /** `isExpired`: strictly past its expiry time. */
  predicate IsExpired(e: Entry, now: int) {
    e.expiresAt < now
  }

  /** `shouldEvict`: idle for more than twice the default TTL and hit fewer than twice. */
  predicate ShouldEvict(e: Entry, now: int, defaultTtl: int) {
    now - e.lastAccessed > defaultTtl * 2 && e.hits < 2
  }

  /** What the maintenance sweep keeps. */
  predicate Survives(e: Entry, now: int, defaultTtl: int) {
    !IsExpired(e, now) && !ShouldEvict(e, now, defaultTtl)
  }

  /** `getEntryPriority`: `hits / max(age, 1) * size`; lower is evicted first. */
  function Priority(e: Entry, now: int): real {
    var age := now - e.lastAccessed;
    var denominator := if age > 1 then age else 1;
    (e.hits as real / denominator as real) * e.size as real
  }

  // ----- running size -----

  function SizeAt(m: map<string, Entry>, k: string): nat {
    if k in m then m[k].size else 0
  }

  /** Sum of the sizes of the entries listed in `keys`. */
  function SumSizes(keys: seq<string>, m: map<string, Entry>): nat
    decreases |keys|
  {
    if keys == [] then 0 else SizeAt(m, keys[0]) + SumSizes(keys[1..], m)
  }

  lemma {:induction false} SumAppend(keys: seq<string>, k: string, m: map<string, Entry>)
    ensures SumSizes(keys + [k], m) == SumSizes(keys, m) + SizeAt(m, k)
    decreases |keys|
  {
    if keys != [] {
      assert (keys + [k])[1..] == keys[1..] + [k];
      SumAppend(keys[1..], k, m);
    }
  }

  /** Changing or dropping a key that is not listed leaves the sum alone. */
  lemma {:induction false} SumUnlisted(keys: seq<string>, m: map<string, Entry>, k: string, e: Entry)
    requires k !in keys
    ensures SumSizes(keys, m[k := e]) == SumSizes(keys, m)
    ensures SumSizes(keys, m - {k}) == SumSizes(keys, m)
    decreases |keys|
  {
    if keys != [] {
      SumUnlisted(keys[1..], m, k, e);
    }
  }

  /** Replacing the entry of a listed key changes the sum by the size difference. */
  lemma {:induction false} SumReplace(keys: seq<string>, m: map<string, Entry>, k: string, e: Entry)
    requires Distinct(keys) && k in keys && k in m
    ensures SumSizes(keys, m[k := e]) == SumSizes(keys, m) - m[k].size + e.size
    decreases |keys|
  {
    if keys[0] == k {
      assert k !in keys[1..];
      SumUnlisted(keys[1..], m, k, e);
    } else {
      SumReplace(keys[1..], m, k, e);
    }
  }

  /** Deleting a listed key subtracts its size. */
  lemma {:induction false} SumRemove(keys: seq<string>, m: map<string, Entry>, k: string)
    requires Distinct(keys) && k in keys && k in m
    ensures SumSizes(Remove(keys, k), m - {k}) == SumSizes(keys, m) - m[k].size
    decreases |keys|
  {
    if keys[0] == k {
      assert k !in keys[1..];
      SumUnlisted(keys[1..], m, k, m[k]);
    } else {
      SumRemove(keys[1..], m, k);
    }
  }

  // ----- tag index -----

  type TagIndex = map<string, set<string>>

  /** Every tag of every live entry has a bucket holding that entry's key. */
  ghost predicate TagsIndexed(entries: map<string, Entry>, index: TagIndex) {
    forall k, t :: k in entries && t in entries[k].tags ==> t in index && k in index[t]
  }

  ghost predicate NoEmptyBuckets(index: TagIndex) {
    forall t :: t in index ==> index[t] != {}
  }

  /** One step of `updateTagIndex`: create the bucket if needed and add the key. */
  function TagOne(index: TagIndex, t: string, key: string): TagIndex {
    index[t := (if t in index then index[t] else {}) + {key}]
  }

  /** The index after adding `key` under every tag in `tags`. */
  function Tagged(index: TagIndex, tags: set<string>, key: string): TagIndex {
    map t | t in index.Keys + tags :: (if t in index then index[t] else {}) + (if t in tags then {key} else {})
  }

  /** One step of `delete`'s tag loop: drop the key from the bucket, pruning it when empty. */
  function UntagOne(index: TagIndex, t: string, key: string): TagIndex {
    if t in index then
      if index[t] - {key} == {} then index - {t} else index[t := index[t] - {key}]
    else index
  }

  /** The index after removing `key` from the buckets of every tag in `tags`. */
  function Untagged(index: TagIndex, tags: set<string>, key: string): TagIndex {
    map t | t in index && (t !in tags || index[t] - {key} != {}) :: if t in tags then index[t] - {key} else index[t]
  }

  lemma TaggedNone(index: TagIndex, key: string)
    ensures Tagged(index, {}, key) == index
  {
    var r := Tagged(index, {}, key);
    assert r.Keys == index.Keys;
    forall t | t in r ensures r[t] == index[t] {
    }
  }

  lemma UntaggedNone(index: TagIndex, key: string)
    ensures Untagged(index, {}, key) == index
  {
  }

  lemma TagStep(index: TagIndex, tags: set<string>, t: string, key: string)
    ensures TagOne(Tagged(index, tags, key), t, key) == Tagged(index, tags + {t}, key)
  {
    var lhs := TagOne(Tagged(index, tags, key), t, key);
    var rhs := Tagged(index, tags + {t}, key);
    assert lhs.Keys == rhs.Keys;
    forall s | s in lhs ensures lhs[s] == rhs[s] {
    }
  }

  lemma UntagStep(index: TagIndex, tags: set<string>, t: string, key: string)
    ensures UntagOne(Untagged(index, tags, key), t, key) == Untagged(index, tags + {t}, key)
  {
    var u := Untagged(index, tags, key);
    var lhs := UntagOne(u, t, key);
    var rhs := Untagged(index, tags + {t}, key);
    assert lhs.Keys == rhs.Keys;
    forall s | s in lhs ensures lhs[s] == rhs[s] {
    }
  }

  function Bucket(index: TagIndex, t: string): set<string> {
    if t in index then index[t] else {}
  }

  /** The keys filed under any of `tags`. */
  function BucketsOf(index: TagIndex, tags: seq<string>): set<string>
    decreases |tags|
  {
    if tags == [] then {} else BucketsOf(index, tags[..|tags| - 1]) + Bucket(index, tags[|tags| - 1])
  }

  lemma BucketsOfStep(index: TagIndex, tags: seq<string>, i: nat)
    requires i < |tags|
    ensures BucketsOf(index, tags[..i + 1]) == BucketsOf(index, tags[..i]) + Bucket(index, tags[i])
  {
    assert tags[..i + 1][..i] == tags[..i];
  }

  lemma {:induction false} BucketsOfMember(index: TagIndex, tags: seq<string>, t: string)
    requires t in tags
    ensures Bucket(index, t) <= BucketsOf(index, tags)
    decreases |tags|
  {
    if tags[|tags| - 1] != t {
      assert t in tags[..|tags| - 1];
      BucketsOfMember(index, tags[..|tags| - 1], t);
    }
  }

  /** Outside the tags in `except`, every bucket files the same live keys as before. */
  ghost predicate KeepsLiveBuckets(before: TagIndex, after: TagIndex, live: set<string>, except: set<string>) {
    forall t :: t !in except ==> Bucket(after, t) * live == Bucket(before, t) * live
  }

  lemma KeepsLiveTrans(a: TagIndex, b: TagIndex, c: TagIndex, l1: set<string>, l2: set<string>, e1: set<string>, e2: set<string>, e: set<string>)
    requires KeepsLiveBuckets(a, b, l1, e1) && KeepsLiveBuckets(b, c, l2, e2) && l2 <= l1 && e == e1 + e2
    ensures KeepsLiveBuckets(a, c, l2, e)
  {
    forall t | t !in e ensures Bucket(c, t) * l2 == Bucket(a, t) * l2 {
      calc {
        Bucket(c, t) * l2;
        Bucket(b, t) * l2;
        (Bucket(b, t) * l1) * l2;
        (Bucket(a, t) * l1) * l2;
        Bucket(a, t) * l2;
      }
    }
  }

  lemma MinusSame<V>(m: map<string, V>, a: set<string>, b: set<string>)
    requires a * m.Keys == b * m.Keys
    ensures m - a == m - b
  {
    assert (m - a).Keys == (m - b).Keys by {
      forall k | k in m ensures k in a <==> k in b {
        assert k in a <==> k in a * m.Keys;
        assert k in b <==> k in b * m.Keys;
      }
    }
  }

  lemma MinusMinus<V>(m: map<string, V>, a: set<string>, b: set<string>)
    ensures (m - a) - b == m - (a + b)
  {
  }

  /** Deleting a live key and unfiling it from its tags' buckets keeps the index sound. */
  lemma UntagKeepsIndex(entries: map<string, Entry>, index: TagIndex, key: string)
    requires TagsIndexed(entries, index) && NoEmptyBuckets(index) && key in entries
    ensures var after := Untagged(index, Elements(entries[key].tags), key);
      && TagsIndexed(entries - {key}, after)
      && NoEmptyBuckets(after)
  {
    var after := Untagged(index, Elements(entries[key].tags), key);
    var rest := entries - {key};
    forall k, t | k in rest && t in rest[k].tags ensures t in after && k in after[t] {
      assert k in index[t] - {key};
    }
  }

  /** The keys of `gone` whose entry in `m` carries tag `t`: what deleting them unfiles from bucket `t`. */
  function Unfiled(m: map<string, Entry>, gone: set<string>, t: string): set<string> {
    set k | k in gone && k in m && t in m[k].tags
  }

  /**
   * The index after deleting every key of `gone` from the store `m`, in any
   * order: each bucket loses the deleted keys tagged with its tag and is
   * dropped once empty; stale keys of other tags stay filed.
   */
  function UntaggedAll(index: TagIndex, m: map<string, Entry>, gone: set<string>): TagIndex {
    map t | t in index && index[t] - Unfiled(m, gone, t) != {} :: index[t] - Unfiled(m, gone, t)
  }

  lemma UntaggedAllNone(index: TagIndex, m: map<string, Entry>)
    requires NoEmptyBuckets(index)
    ensures UntaggedAll(index, m, {}) == index
  {
    var r := UntaggedAll(index, m, {});
    forall t | t in index ensures Unfiled(m, {}, t) == {} {
    }
    assert r.Keys == index.Keys;
    forall t | t in r ensures r[t] == index[t] {
    }
  }

  /** Deleting one more stored key of `m` after the keys of `gone` unfiles it like `delete` does. */
  lemma UntaggedAllStep(index: TagIndex, m: map<string, Entry>, gone: set<string>, k: string)
    requires k in m && k !in gone
    ensures Untagged(UntaggedAll(index, m, gone), Elements(m[k].tags), k) == UntaggedAll(index, m, gone + {k})
  {
    var tags := Elements(m[k].tags);
    var before := UntaggedAll(index, m, gone);
    var lhs := Untagged(before, tags, k);
    var rhs := UntaggedAll(index, m, gone + {k});
    forall t | t in index
      ensures t in lhs <==> t in rhs
      ensures t in lhs ==> lhs[t] == rhs[t]
    {
      var left := index[t] - Unfiled(m, gone, t);
      assert Unfiled(m, gone + {k}, t) == Unfiled(m, gone, t) + (if t in tags then {k} else {});
      assert index[t] - Unfiled(m, gone + {k}, t) == if t in tags then left - {k} else left;
    }
    assert lhs.Keys == rhs.Keys;
  }

  /** Deleting a key that is not stored in `m` unfiles nothing. */
  lemma UntaggedAllAbsent(index: TagIndex, m: map<string, Entry>, gone: set<string>, k: string)
    requires k !in m
    ensures UntaggedAll(index, m, gone + {k}) == UntaggedAll(index, m, gone)
  {
    forall t ensures Unfiled(m, gone + {k}, t) == Unfiled(m, gone, t) {
    }
  }

  /** The sizes listed in what is left of `keys` are those of all of `keys` over the surviving entries. */
  lemma {:induction false} SumSizesWithout(keys: seq<string>, m: map<string, Entry>, gone: set<string>)
    ensures SumSizes(Without(keys, gone), m - gone) == SumSizes(keys, m - gone)
    decreases |keys|
  {
    if keys != [] {
      SumSizesWithout(keys[1..], m, gone);
    }
  }

  /**
   * The store `(entries, order, index)` is `(m0, order0, index0)` after
   * `delete` of each key of `gone`, one after another in any order.
   */
  ghost predicate Purged(entries: map<string, Entry>, order: seq<string>, index: TagIndex,
                         m0: map<string, Entry>, order0: seq<string>, index0: TagIndex, gone: set<string>) {
    && entries == m0 - gone
    && order == Without(order0, gone)
    && index == UntaggedAll(index0, m0, gone)
  }

  lemma PurgedNone(m0: map<string, Entry>, order0: seq<string>, index0: TagIndex)
    requires NoEmptyBuckets(index0)
    ensures Purged(m0, order0, index0, m0, order0, index0, {})
  {
    WithoutNone(order0);
    UntaggedAllNone(index0, m0);
    assert m0 - {} == m0;
  }

  /** One more `delete` in a purge, whether or not the key is still stored. */
  lemma PurgeStep(m0: map<string, Entry>, order0: seq<string>, index0: TagIndex, gone: set<string>,
                  entries: map<string, Entry>, order: seq<string>, index: TagIndex, k: string)
    requires Purged(entries, order, index, m0, order0, index0, gone)
    ensures Purged(entries - {k}, Remove(order, k),
                   if k in entries then Untagged(index, Elements(entries[k].tags), k) else index,
                   m0, order0, index0, gone + {k})
  {
    WithoutRemove(order0, gone, k);
    assert (m0 - gone) - {k} == m0 - (gone + {k});
    if k in entries {
      UntaggedAllStep(index0, m0, gone, k);
    } else if k !in m0 {
      UntaggedAllAbsent(index0, m0, gone, k);
    } else {
      assert gone + {k} == gone;
    }
  }

  /**
   * At the end of a purge over a consistent store, the order and the index
   * are those of deleting exactly the keys that are gone, and the running
   * size is the sum over the entries left.
   */
  lemma PurgedExactly(entries: map<string, Entry>, order: seq<string>, index: TagIndex, total: int,
                      m0: map<string, Entry>, order0: seq<string>, index0: TagIndex, gone: set<string>)
    requires Purged(entries, order, index, m0, order0, index0, gone)
    requires Elements(order0) == m0.Keys && total == SumSizes(order, entries)
    ensures order == Without(order0, m0.Keys - entries.Keys)
    ensures index == UntaggedAll(index0, m0, m0.Keys - entries.Keys)
    ensures total == SumSizes(order0, entries)
  {
    var exact := m0.Keys - entries.Keys;
    WithoutAgree(order0, gone, exact);
    forall t ensures Unfiled(m0, gone, t) == Unfiled(m0, exact, t) {
    }
    SumSizesWithout(order0, m0, gone);
  }

  /** Two purges in a row, with some buckets dropped in between, are one purge with those buckets dropped. */
  lemma UntaggedAllCompose(index: TagIndex, m: map<string, Entry>, gone: set<string>, more: set<string>, dropped: set<string>)
    ensures UntaggedAll(UntaggedAll(index, m, gone) - dropped, m - gone, more) == UntaggedAll(index, m, gone + more) - dropped
  {
    var first := UntaggedAll(index, m, gone) - dropped;
    var lhs := UntaggedAll(first, m - gone, more);
    var rhs := UntaggedAll(index, m, gone + more) - dropped;
    forall t | t in index
      ensures t in lhs <==> t in rhs
      ensures t in lhs ==> lhs[t] == rhs[t]
    {
      var all := Unfiled(m, gone + more, t);
      assert Unfiled(m, gone, t) + Unfiled(m - gone, more, t) == all;
      assert index[t] - Unfiled(m, gone, t) - Unfiled(m - gone, more, t) == index[t] - all;
    }
    assert lhs.Keys == rhs.Keys;
  }

  /** A purge keeps, in every bucket, the keys that are still stored. */
  lemma PurgeKeepsLive(index: TagIndex, m: map<string, Entry>, gone: set<string>)
    ensures KeepsLiveBuckets(index, UntaggedAll(index, m, gone), (m - gone).Keys, {})
  {
    var after := UntaggedAll(index, m, gone);
    var live := (m - gone).Keys;
    forall t ensures Bucket(after, t) * live == Bucket(index, t) * live {
      if t in index {
        assert Unfiled(m, gone, t) * live == {};
      }
    }
  }

  /**
   * What `invalidateByTag` leaves once every key of the tag's bucket has been
   * deleted from a consistent store and the bucket is dropped: the bucket's
   * entries are gone, no survivor carries the tag, the other buckets keep
   * their live keys, and the store is consistent.
   */
  lemma InvalidatedTag(m0: map<string, Entry>, order0: seq<string>, index0: TagIndex, total0: int, tag: string,
                       entries: map<string, Entry>, order: seq<string>, index: TagIndex, total: int)
    requires Consistent(m0, order0, index0, total0) && tag in index0
    requires Purged(entries, order, index, m0, order0, index0, index0[tag])
    requires Consistent(entries, order, index, total)
    ensures forall k :: k in entries ==> tag !in entries[k].tags
    ensures Consistent(entries, order, index - {tag}, total)
    ensures KeepsLiveBuckets(index0, index - {tag}, entries.Keys, {tag})
    ensures (index - {tag}).Keys <= index0.Keys
    ensures order == Without(order0, m0.Keys - entries.Keys)
    ensures index == UntaggedAll(index0, m0, m0.Keys - entries.Keys)
    ensures total == SumSizes(order0, entries)
  {
    forall k | k in entries ensures tag !in entries[k].tags {
      assert k in m0 && k !in index0[tag];
    }
    PurgedExactly(entries, order, index, total, m0, order0, index0, index0[tag]);
    PurgeKeepsLive(index0, m0, index0[tag]);
    DropBucket(entries, index, tag);
    KeepsLiveTrans(index0, index, index - {tag}, entries.Keys, entries.Keys, {}, {tag}, {tag});
  }

  /** `invalidateByTag` of a tag without a bucket: nothing is deleted and no entry carries the tag. */
  lemma UnfiledTag(entries: map<string, Entry>, order: seq<string>, index: TagIndex, total: int, tag: string)
    requires Consistent(entries, order, index, total) && tag !in index
    ensures entries == entries - Bucket(index, tag)
    ensures forall k :: k in entries ==> tag !in entries[k].tags
    ensures KeepsLiveBuckets(index, index, entries.Keys, {tag})
    ensures order == Without(order, entries.Keys - entries.Keys)
    ensures index == UntaggedAll(index, entries, entries.Keys - entries.Keys) - {tag}
    ensures total == SumSizes(order, entries)
  {
    NoBucketNoTag(entries, index, tag);
    var none: set<string> := {};
    assert entries.Keys - entries.Keys == none;
    WithoutNone(order);
    UntaggedAllNone(index, entries);
    assert index - {tag} == index;
  }

  /** A tag without a bucket is carried by no stored entry. */
  lemma NoBucketNoTag(entries: map<string, Entry>, index: TagIndex, tag: string)
    requires TagsIndexed(entries, index) && tag !in index
    ensures entries == entries - Bucket(index, tag)
    ensures forall k :: k in entries ==> tag !in entries[k].tags
    ensures KeepsLiveBuckets(index, index, entries.Keys, {tag})
  {
    assert Bucket(index, tag) == {};
    assert entries - {} == entries;
  }

  /**
   * Invalidating one more tag after some others: the order and the index are
   * those of deleting, from the original store, every key gone so far, with
   * the buckets of all the invalidated tags dropped.
   */
  lemma InvalidateTagsStep(m0: map<string, Entry>, order0: seq<string>, index0: TagIndex, dropped: set<string>, t: string,
                           removed: set<string>, live: map<string, Entry>, order1: seq<string>, index1: TagIndex,
                           after: map<string, Entry>, order2: seq<string>, index2: TagIndex)
    requires live == m0 - removed && after.Keys <= live.Keys
    requires order1 == Without(order0, m0.Keys - live.Keys)
    requires index1 == UntaggedAll(index0, m0, m0.Keys - live.Keys) - dropped
    requires order2 == Without(order1, live.Keys - after.Keys)
    requires index2 == UntaggedAll(index1, live, live.Keys - after.Keys) - {t}
    ensures order2 == Without(order0, m0.Keys - after.Keys)
    ensures index2 == UntaggedAll(index0, m0, m0.Keys - after.Keys) - (dropped + {t})
  {
    var g1, g2 := m0.Keys - live.Keys, live.Keys - after.Keys;
    assert g1 + g2 == m0.Keys - after.Keys;
    assert live == m0 - g1;
    WithoutWithout(order0, g1, g2);
    UntaggedAllCompose(index0, m0, g1, g2, dropped);
  }

  /**
   * After some tags are invalidated, the bucket of the next tag files, among
   * the keys still stored, exactly the keys its original bucket filed.
   */
  lemma BucketAfterPurge(m0: map<string, Entry>, index0: TagIndex, tags: seq<string>, i: nat,
                         live: map<string, Entry>, index1: TagIndex)
    requires i < |tags|
    requires live == m0 - BucketsOf(index0, tags[..i])
    requires index1 == UntaggedAll(index0, m0, m0.Keys - live.Keys) - Elements(tags[..i])
    ensures live - Bucket(index1, tags[i]) == m0 - BucketsOf(index0, tags[..i + 1])
  {
    var t := tags[i];
    var gone := m0.Keys - live.Keys;
    BucketsOfStep(index0, tags, i);
    MinusMinus(m0, BucketsOf(index0, tags[..i]), Bucket(index0, t));
    if t in Elements(tags[..i]) {
      BucketsOfMember(index0, tags[..i], t);
      assert Bucket(index0, t) * live.Keys == {};
    } else if t in index0 {
      assert Unfiled(m0, gone, t) * live.Keys == {};
      assert Bucket(index1, t) * live.Keys == Bucket(index0, t) * live.Keys;
    }
    MinusSame(live, Bucket(index1, t), Bucket(index0, t));
  }

  /** Once the buckets of `tags` are deleted from a consistent store, no entry left carries any of those tags. */
  lemma NoneTagged(m0: map<string, Entry>, order0: seq<string>, index0: TagIndex, total0: int,
                   tags: seq<string>, entries: map<string, Entry>)
    requires Consistent(m0, order0, index0, total0)
    requires entries == m0 - BucketsOf(index0, tags)
    ensures forall k, t :: k in entries && t in tags ==> t !in entries[k].tags
  {
    forall k, t | k in entries && t in tags ensures t !in entries[k].tags {
      BucketsOfMember(index0, tags, t);
      assert k in m0 && k !in Bucket(index0, t);
    }
  }

  /**
   * The store's invariant: `order` lists every key once, `totalSize` is the
   * sum of the entry sizes, every tag of a live entry files that entry, and no
   * bucket is empty.
   */
  ghost predicate Consistent(entries: map<string, Entry>, order: seq<string>, index: TagIndex, totalSize: int) {
    && Distinct(order)
    && Elements(order) == entries.Keys
    && totalSize == SumSizes(order, entries)
    && TagsIndexed(entries, index)
    && NoEmptyBuckets(index)
  }

  /** Deleting a live key keeps the store consistent and only unfiles that key. */
  lemma DeleteKeepsConsistent(entries: map<string, Entry>, order: seq<string>, index: TagIndex, totalSize: int, key: string)
    requires Consistent(entries, order, index, totalSize) && key in entries
    ensures var after := Untagged(index, Elements(entries[key].tags), key);
      && Consistent(entries - {key}, Remove(order, key), after, totalSize - entries[key].size)
  {
    SumRemove(order, entries, key);
    UntagKeepsIndex(entries, index, key);
  }

  /** Storing an entry (replacing in place, or appending a new key) and filing its tags keeps the store consistent. */
  lemma StoreKeepsConsistent(entries: map<string, Entry>, order: seq<string>, index: TagIndex, totalSize: int, key: string, e: Entry)
    requires Consistent(entries, order, index, totalSize)
    ensures Consistent(entries[key := e], if key in entries then order else order + [key],
                       Tagged(index, Elements(e.tags), key), totalSize - SizeAt(entries, key) + e.size)
  {
    StoreKeepsSizes(entries, order, key, e);
    StoreKeepsIndex(entries, index, key, e);
  }

  lemma StoreKeepsSizes(entries: map<string, Entry>, order: seq<string>, key: string, e: Entry)
    requires Distinct(order) && Elements(order) == entries.Keys
    ensures var order' := if key in entries then order else order + [key];
      && Distinct(order')
      && Elements(order') == entries[key := e].Keys
      && SumSizes(order', entries[key := e]) == SumSizes(order, entries) - SizeAt(entries, key) + e.size
  {
    if key in entries {
      SumReplace(order, entries, key, e);
    } else {
      assert key !in order;
      SumAppend(order, key, entries[key := e]);
      SumUnlisted(order, entries, key, e);
      assert Elements(order + [key]) == Elements(order) + {key};
    }
  }

  lemma StoreKeepsIndex(entries: map<string, Entry>, index: TagIndex, key: string, e: Entry)
    requires TagsIndexed(entries, index) && NoEmptyBuckets(index)
    ensures TagsIndexed(entries[key := e], Tagged(index, Elements(e.tags), key))
    ensures NoEmptyBuckets(Tagged(index, Elements(e.tags), key))
  {
    var entries' := entries[key := e];
    var index' := Tagged(index, Elements(e.tags), key);
    forall k, t | k in entries' && t in entries'[k].tags ensures t in index' && k in index'[t] {
      if k != key {
        assert t in index && k in index[t];
      } else {
        assert t in Elements(e.tags);
      }
    }
  }

  /** Dropping a bucket that no live entry is tagged with keeps the index sound. */
  lemma DropBucket(entries: map<string, Entry>, index: TagIndex, tag: string)
    requires TagsIndexed(entries, index) && NoEmptyBuckets(index)
    requires forall k :: k in entries ==> tag !in entries[k].tags
    ensures TagsIndexed(entries, index - {tag}) && NoEmptyBuckets(index - {tag})
    ensures KeepsLiveBuckets(index, index - {tag}, entries.Keys, {tag})
  {
    forall t | t != tag ensures Bucket(index - {tag}, t) == Bucket(index, t) {
    }
  }

  /** One step of deleting keys in a given order: the next key is still stored, and the running sum follows. */
  lemma EvictStep(keys: seq<string>, i: nat, entries0: map<string, Entry>, total0: int, entries: map<string, Entry>, total: int)
    requires Distinct(keys) && Elements(keys) == entries0.Keys && i < |keys|
    requires entries == entries0 - Elements(keys[..i])
    requires total == total0 - SumSizes(keys[..i], entries0)
    ensures keys[i] in entries && entries[keys[i]] == entries0[keys[i]]
    ensures entries - {keys[i]} == entries0 - Elements(keys[..i + 1])
    ensures total - entries[keys[i]].size == total0 - SumSizes(keys[..i + 1], entries0)
    ensures keys[..i + 1][..i] == keys[..i]
  {
    DistinctNotInPrefix(keys, i);
    ElementsPrefix(keys, i);
    SumAppend(keys[..i], keys[i], entries0);
    assert keys[..i + 1] == keys[..i] + [keys[i]];
    assert keys[i] in Elements(keys);
  }

  /** The entries the maintenance sweep leaves behind. */
  function Surviving(m: map<string, Entry>, now: int, defaultTtl: int): (r: map<string, Entry>)
    ensures r.Keys <= m.Keys
  {
    map k | k in m && Survives(m[k], now, defaultTtl) :: m[k]
  }

  /** `m` part-way through a sweep: of the keys in `visited`, only the surviving entries are left. */
  ghost function SweptOver(m: map<string, Entry>, visited: set<string>, now: int, defaultTtl: int): map<string, Entry> {
    map k | k in m && (k !in visited || Survives(m[k], now, defaultTtl)) :: m[k]
  }

  /** Visiting one more key keeps it when it survives and drops it otherwise. */
  lemma SweepStep(m: map<string, Entry>, visited: set<string>, k: string, now: int, defaultTtl: int)
    requires k in m && k !in visited
    ensures k in SweptOver(m, visited, now, defaultTtl) && SweptOver(m, visited, now, defaultTtl)[k] == m[k]
    ensures SweptOver(m, visited + {k}, now, defaultTtl)
      == if Survives(m[k], now, defaultTtl) then SweptOver(m, visited, now, defaultTtl)
         else SweptOver(m, visited, now, defaultTtl) - {k}
  {
  }

  /** Before the sweep nothing is dropped; once every key is visited, what is left is `Surviving`. */
  lemma SweepEnds(m: map<string, Entry>, visited: set<string>, now: int, defaultTtl: int)
    ensures SweptOver(m, {}, now, defaultTtl) == m
    ensures m.Keys <= visited ==> SweptOver(m, visited, now, defaultTtl) == Surviving(m, now, defaultTtl)
  {
  }

  /** A second sweep at the same instant removes nothing more. */
  lemma SurvivingIdempotent(m: map<string, Entry>, now: int, defaultTtl: int)
    ensures Surviving(Surviving(m, now, defaultTtl), now, defaultTtl) == Surviving(m, now, defaultTtl)
  {
    var once := Surviving(m, now, defaultTtl);
    var twice := Surviving(once, now, defaultTtl);
    assert twice.Keys == once.Keys;
  }

  // ----- statistics -----

  /** `Math.min`/`Math.max` over numbers: the empty case yields an infinity. */
  datatype Bound = PosInfinity | NegInfinity | At(time: int)

  function HitsAt(m: map<string, Entry>, k: string): nat {
    if k in m then m[k].hits else 0
  }

  /** The hits of the entries listed in `keys`. */
  function SumHits(keys: seq<string>, m: map<string, Entry>): nat
    decreases |keys|
  {
    if keys == [] then 0 else HitsAt(m, keys[0]) + SumHits(keys[1..], m)
  }

  lemma {:induction false} SumHitsConcat(a: seq<string>, b: seq<string>, m: map<string, Entry>)
    ensures SumHits(a + b, m) == SumHits(a, m) + SumHits(b, m)
    decreases |a|
  {
    if a != [] {
      assert (a + b)[1..] == a[1..] + b;
      SumHitsConcat(a[1..], b, m);
    } else {
      assert a + b == b;
    }
  }

  /** The hit total does not depend on the order the keys are listed in. */
  lemma {:induction false} SumHitsPermutation(a: seq<string>, b: seq<string>, m: map<string, Entry>)
    requires multiset(a) == multiset(b)
    ensures SumHits(a, m) == SumHits(b, m)
    decreases |a|
  {
    if a != [] {
      assert a[0] in multiset(b);
      var j :| 0 <= j < |b| && b[j] == a[0];
      var rest := b[..j] + b[j + 1..];
      SumHitsDrop(b, j, m);
      MultisetDrop(b, j);
      MultisetTail(a);
      SumHitsPermutation(a[1..], rest, m);
    }
  }

  /** Taking one key out of a listing takes its hits out of the total. */
  lemma SumHitsDrop(b: seq<string>, j: nat, m: map<string, Entry>)
    requires j < |b|
    ensures SumHits(b, m) == HitsAt(m, b[j]) + SumHits(b[..j] + b[j + 1..], m)
  {
    var front, back := b[..j], b[j + 1..];
    assert b == front + [b[j]] + back;
    SumHitsConcat(front + [b[j]], back, m);
    SumHitsConcat(front, [b[j]], m);
    SumHitsConcat(front, back, m);
    assert SumHits([b[j]], m) == HitsAt(m, b[j]) + SumHits([], m);
  }

  lemma MultisetDrop(b: seq<string>, j: nat)
    requires j < |b|
    ensures multiset(b[..j] + b[j + 1..]) == multiset(b) - multiset{b[j]}
  {
    assert b == b[..j] + [b[j]] + b[j + 1..];
  }

  lemma MultisetTail(a: seq<string>)
    requires a != []
    ensures multiset(a[1..]) == multiset(a) - multiset{a[0]}
  {
    assert a == [a[0]] + a[1..];
  }

  /** Replacing the entry of a listed key changes the hit total by the difference in hits. */
  lemma {:induction false} SumHitsReplace(keys: seq<string>, m: map<string, Entry>, k: string, e: Entry)
    requires Distinct(keys) && k in keys && k in m
    ensures SumHits(keys, m[k := e]) == SumHits(keys, m) - m[k].hits + e.hits
    decreases |keys|
  {
    if keys[0] == k {
      assert k !in keys[1..];
      SumHitsUnlisted(keys[1..], m, k, e);
    } else {
      SumHitsReplace(keys[1..], m, k, e);
    }
  }

  lemma {:induction false} SumHitsUnlisted(keys: seq<string>, m: map<string, Entry>, k: string, e: Entry)
    requires k !in keys
    ensures SumHits(keys, m[k := e]) == SumHits(keys, m)
    decreases |keys|
  {
    if keys != [] {
      SumHitsUnlisted(keys[1..], m, k, e);
    }
  }

  /** The least `lastAccessed` of the listed entries; `+Infinity` when there are none. */
  function OldestAccess(keys: seq<string>, m: map<string, Entry>): (r: Bound)
    requires forall k :: k in keys ==> k in m
    ensures keys == [] <==> r == PosInfinity
    ensures !r.NegInfinity?
    ensures r.At? ==> (exists k :: k in keys && m[k].lastAccessed == r.time)
                      && (forall k :: k in keys ==> r.time <= m[k].lastAccessed)
    decreases |keys|
  {
    if keys == [] then PosInfinity
    else
      var rest := OldestAccess(keys[1..], m);
      var here := m[keys[0]].lastAccessed;
      if rest.At? && rest.time < here then rest else At(here)
  }

  /** The greatest `lastAccessed` of the listed entries; `-Infinity` when there are none. */
  function NewestAccess(keys: seq<string>, m: map<string, Entry>): (r: Bound)
    requires forall k :: k in keys ==> k in m
    ensures keys == [] <==> r == NegInfinity
    ensures !r.PosInfinity?
    ensures r.At? ==> (exists k :: k in keys && m[k].lastAccessed == r.time)
                      && (forall k :: k in keys ==> m[k].lastAccessed <= r.time)
    decreases |keys|
  {
    if keys == [] then NegInfinity
    else
      var rest := NewestAccess(keys[1..], m);
      var here := m[keys[0]].lastAccessed;
      if rest.At? && rest.time > here then rest else At(here)
  }

  // ----- priority ranking -----

  function KeyPriority(m: map<string, Entry>, now: int, k: string): real {
    if k in m then Priority(m[k], now) else 0.0
  }

  ghost predicate SortedByPriority(s: seq<string>, m: map<string, Entry>, now: int) {
    forall i, j :: 0 <= i < j < |s| ==> KeyPriority(m, now, s[i]) <= KeyPriority(m, now, s[j])
  }

  /** Insert `k` into a ranked sequence after every key of lower or equal priority. */
  function Insert(ranked: seq<string>, k: string, m: map<string, Entry>, now: int): seq<string>
    decreases |ranked|
  {
    if ranked == [] then [k]
    else
      var last := ranked[|ranked| - 1];
      if KeyPriority(m, now, last) <= KeyPriority(m, now, k) then ranked + [k]
      else Insert(ranked[..|ranked| - 1], k, m, now) + [last]
  }

  /**
   * The keys in ascending priority, ties in their original order: what
   * `Array.from(cache.entries()).sort((a, b) => priority(a) - priority(b))` yields.
   */
  function RankByPriority(keys: seq<string>, m: map<string, Entry>, now: int): seq<string>
    decreases |keys|
  {
    if keys == [] then []
    else Insert(RankByPriority(keys[..|keys| - 1], m, now), keys[|keys| - 1], m, now)
  }

  lemma {:induction false} InsertPermutes(ranked: seq<string>, k: string, m: map<string, Entry>, now: int)
    ensures multiset(Insert(ranked, k, m, now)) == multiset(ranked) + multiset{k}
    ensures Distinct(ranked) && k !in ranked ==> Distinct(Insert(ranked, k, m, now))
    decreases |ranked|
  {
    if ranked != [] {
      var last := ranked[|ranked| - 1];
      var init := ranked[..|ranked| - 1];
      assert ranked == init + [last];
      if KeyPriority(m, now, last) > KeyPriority(m, now, k) {
        InsertPermutes(init, k, m, now);
        var ins := Insert(init, k, m, now);
        if Distinct(ranked) && k !in ranked {
          assert last !in init;
          assert last !in multiset(ins);
        }
      }
    }
  }

  /** Every key of `s` ranks at most `bound`. */
  ghost predicate AllAtMost(s: seq<string>, m: map<string, Entry>, now: int, bound: real) {
    forall x :: x in s ==> KeyPriority(m, now, x) <= bound
  }

  lemma {:induction false} InsertBounded(ranked: seq<string>, k: string, m: map<string, Entry>, now: int, bound: real)
    requires AllAtMost(ranked, m, now, bound) && KeyPriority(m, now, k) <= bound
    ensures AllAtMost(Insert(ranked, k, m, now), m, now, bound)
  {
    InsertPermutes(ranked, k, m, now);
    var ins := Insert(ranked, k, m, now);
    forall x | x in ins ensures KeyPriority(m, now, x) <= bound {
      assert x in multiset(ins);
    }
  }

  lemma SortedSnoc(s: seq<string>, x: string, m: map<string, Entry>, now: int)
    requires SortedByPriority(s, m, now) && AllAtMost(s, m, now, KeyPriority(m, now, x))
    ensures SortedByPriority(s + [x], m, now)
  {
    var r := s + [x];
    forall i, j | 0 <= i < j < |r| ensures KeyPriority(m, now, r[i]) <= KeyPriority(m, now, r[j]) {
      if j == |s| {
        assert r[i] in s;
      } else {
        assert r[i] == s[i] && r[j] == s[j];
      }
    }
  }

  lemma {:induction false} InsertSorted(ranked: seq<string>, k: string, m: map<string, Entry>, now: int)
    requires SortedByPriority(ranked, m, now)
    ensures SortedByPriority(Insert(ranked, k, m, now), m, now)
    decreases |ranked|
  {
    if ranked != [] {
      var last := ranked[|ranked| - 1];
      var init := ranked[..|ranked| - 1];
      var bound := KeyPriority(m, now, last);
      if bound <= KeyPriority(m, now, k) {
        forall x | x in ranked ensures KeyPriority(m, now, x) <= KeyPriority(m, now, k) {
          var i :| 0 <= i < |ranked| && ranked[i] == x;
          if i < |ranked| - 1 {
            assert KeyPriority(m, now, ranked[i]) <= bound;
          }
        }
        SortedSnoc(ranked, k, m, now);
      } else {
        assert SortedByPriority(init, m, now);
        InsertSorted(init, k, m, now);
        forall x | x in init ensures KeyPriority(m, now, x) <= bound {
          var i :| 0 <= i < |init| && init[i] == x;
          assert ranked[i] == x;
        }
        InsertBounded(init, k, m, now, bound);
        SortedSnoc(Insert(init, k, m, now), last, m, now);
      }
    }
  }

  /** The ranking is a sorted permutation of the keys. */
  lemma {:induction false} RankByPriorityCorrect(keys: seq<string>, m: map<string, Entry>, now: int)
    ensures multiset(RankByPriority(keys, m, now)) == multiset(keys)
    ensures SortedByPriority(RankByPriority(keys, m, now), m, now)
    ensures Distinct(keys) ==> Distinct(RankByPriority(keys, m, now))
    decreases |keys|
  {
    if keys != [] {
      var init := keys[..|keys| - 1];
      var last := keys[|keys| - 1];
      assert keys == init + [last];
      RankByPriorityCorrect(init, m, now);
      var r := RankByPriority(init, m, now);
      InsertPermutes(r, last, m, now);
      InsertSorted(r, last, m, now);
      if Distinct(keys) {
        assert last !in init;
        assert last !in multiset(r);
      }
    }
  }

  /** Everything ranked before position `i` has priority at most that of everything from `i` on. */
  lemma SortedSplit(s: seq<string>, m: map<string, Entry>, now: int, i: nat)
    requires SortedByPriority(s, m, now) && i <= |s|
    ensures forall a, b :: a in s[..i] && b in s[i..] ==> KeyPriority(m, now, a) <= KeyPriority(m, now, b)
  {
    forall a, b | a in s[..i] && b in s[i..] ensures KeyPriority(m, now, a) <= KeyPriority(m, now, b) {
      var p :| 0 <= p < i && s[p] == a;
      var q :| i <= q < |s| && s[q] == b;
    }
  }

  /**
   * `evicted` is a prefix of the priority ranking of the store: only stored
   * keys, and each ranks no higher than any key left behind.
   */
  ghost predicate RankedPrefix(evicted: seq<string>, order: seq<string>, m: map<string, Entry>, now: int) {
    && evicted <= RankByPriority(order, m, now)
    && (forall k :: k in evicted ==> k in m)
    && (forall a, b :: a in evicted && b in m - Elements(evicted) ==> Priority(m[a], now) <= Priority(m[b], now))
  }

  lemma EvictedPrefix(order: seq<string>, m: map<string, Entry>, now: int, i: nat)
    requires Elements(order) == m.Keys
    requires i <= |RankByPriority(order, m, now)|
    ensures var ranked := RankByPriority(order, m, now);
      && RankedPrefix(ranked[..i], order, m, now)
      && (i == |ranked| ==> m - Elements(ranked[..i]) == map[])
  {
    var ranked := RankByPriority(order, m, now);
    RankByPriorityCorrect(order, m, now);
    SortedPrefix(ranked, order, m, now, i);
  }

  /** Deleting the keys of `order` that match leaves exactly the entries whose keys do not. */
  lemma DoomedByPattern(m: map<string, Entry>, order: seq<string>, matches: string -> bool)
    requires Elements(order) == m.Keys
    ensures m - Elements(Filter(order, matches)) == map k | k in m && !matches(k) :: m[k]
  {
    var doomed := Filter(order, matches);
    assert forall k :: k in doomed <==> k in order && matches(k) by {
      forall k ensures k in doomed <==> k in order && matches(k) {
        assert k in doomed <==> k in Elements(doomed);
        assert k in order <==> k in Elements(order);
      }
    }
  }

  /**
   * What the eviction loop leaves behind once it stops after `i` keys of the
   * ranking: those keys are a lowest-priority prefix, the new value fits or
   * nothing is left, and the value did not fit before the last deletion.
   */
  lemma EvictionSettles(order: seq<string>, m: map<string, Entry>, now: int, i: nat,
                        total: int, remaining: int, required: nat, maxSize: int)
    requires Elements(order) == m.Keys
    requires i <= |RankByPriority(order, m, now)|
    requires i > 0 ==> total - SumSizes(RankByPriority(order, m, now)[..i - 1], m) + required > maxSize
    requires i < |RankByPriority(order, m, now)| ==> remaining + required <= maxSize
    ensures var evicted := RankByPriority(order, m, now)[..i];
      && RankedPrefix(evicted, order, m, now)
      && (remaining + required <= maxSize || m - Elements(evicted) == map[])
      && (|evicted| > 0 ==> total - SumSizes(evicted[..|evicted| - 1], m) + required > maxSize)
  {
    var ranked := RankByPriority(order, m, now);
    EvictedPrefix(order, m, now, i);
    if i > 0 {
      assert ranked[..i][..i - 1] == ranked[..i - 1];
    }
  }

  lemma SortedPrefix(ranked: seq<string>, order: seq<string>, m: map<string, Entry>, now: int, i: nat)
    requires Elements(order) == m.Keys && multiset(ranked) == multiset(order)
    requires SortedByPriority(ranked, m, now) && i <= |ranked|
    ensures forall k :: k in ranked[..i] ==> k in m
    ensures forall a, b :: a in ranked[..i] && b in m - Elements(ranked[..i]) ==> Priority(m[a], now) <= Priority(m[b], now)
    ensures i == |ranked| ==> m - Elements(ranked[..i]) == map[]
  {
    RankedKeys(ranked, order, m);
    SortedSplit(ranked, m, now, i);
    var evicted := ranked[..i];
    assert ranked == evicted + ranked[i..];
    forall a, b | a in evicted && b in m - Elements(evicted) ensures Priority(m[a], now) <= Priority(m[b], now) {
      assert b in ranked[i..];
      assert KeyPriority(m, now, a) <= KeyPriority(m, now, b);
    }
    if i == |ranked| {
      assert evicted == ranked;
    }
  }

  lemma RankedKeys(ranked: seq<string>, order: seq<string>, m: map<string, Entry>)
    requires Elements(order) == m.Keys && multiset(ranked) == multiset(order)
    ensures forall k :: k in ranked <==> k in m
  {
    forall k ensures k in ranked <==> k in m {
      assert k in ranked <==> k in multiset(ranked);
      assert k in order <==> k in multiset(order);
    }
  }

  lemma RankedElements(order: seq<string>, m: map<string, Entry>, now: int)
    requires Distinct(order)
    ensures Distinct(RankByPriority(order, m, now))
    ensures Elements(RankByPriority(order, m, now)) == Elements(order)
  {
    var ranked := RankByPriority(order, m, now);
    RankByPriorityCorrect(order, m, now);
    forall k ensures k in ranked <==> k in order {
      assert k in ranked <==> k in multiset(ranked);
    }
  }
}
