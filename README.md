# e-example infrastructure core, modelled in Dafny

This project models the in-memory infrastructure layer of the e-example
storefront, plus its pure input validators. The layer covers:

- the tagged, size-bounded **cache** and its get-or-populate manager;
- the HTTP **retry strategy**;
- the **business operation executor**, which composes validation, cache and retry into a result envelope;
- the **dependency-injection container**;
- the dotted-path **configuration store** and its recursive **schema validator**;
- the **category, product and cart validators**;
- the error classification of the **HTTP client**;
- the id/slug routing of the **category service**;
- the **monitoring** buffers: tracer spans, metric series and the bounded log.

State the source updates in place becomes a class with fields, `modifies`
clauses and postconditions over `old(...)`:

- cache, cache manager, operation builder, container, configuration store;
- category and product validators;
- tracer, metrics, logger.

Logic the source computes as expressions becomes functions and lemmas:

- schema checks, cart validator, HTTP error mapping, UUID test;
- priority ranking, retry schedule.

Non-determinism and foreign facilities are parameters:

- the clock (`now`);
- the retry jitter, a function into [0, 100);
- the sampling decision and the generated span/trace ids;
- the byte size of a cached value;
- the regular expression of `invalidateByPattern`;
- `new URL` (a protocol function) and `JSON.stringify` (a length or serialisability function).

An operation that may throw is a script `outcomeAt: nat -> Outcome` with
a call counter (`Operations.Operation`), so attempt counts can be proved.

Files, one module each:

| file | module | models |
|---|---|---|
| wrappers.dfy, seqs.dfy, text.dfy | Wrappers, Seqs, Text | Option/Result, sequence helpers, dotted-path split/join, decimal rendering, character classes |
| js_values.dfy, errors.dfy | JsValues, Errors | the JavaScript value universe (truthiness, `typeof`) and the error classes |
| operations.dfy | Operations | an asynchronous operation as a script of outcomes |
| cache_entries.dfy, cache.dfy | CacheEntries, Caching | cache entries, tag index, size bookkeeping, eviction ranking; `Cache` and `CacheManager` |
| retry.dfy | Retry | `RetryStrategy` |
| business.dfy | Business | `BusinessOperationBuilder` |
| container.dfy | DI | `Container` |
| config.dfy, schema.dfy | Config, ConfigSchema | `Configuration`, `SchemaValidator` |
| validation.dfy, category_validators.dfy, product_validators.dfy, cart_validators.dfy | FieldRules, CategoryValidation, ProductValidation, CartValidation | the input validators |
| http_client.dfy | HttpClient | `shouldRetry`, `mapError`, the decision order of `handleResponseError` |
| category_service.dfy | CategoryService | `isUUID` and `getCategory` |
| monitoring.dfy | Monitoring | `Tracer`, `Metrics`, `Logger` |

Behaviour the model keeps as written:

- **Cache.**
  - A replaced entry's old tags keep the key in their buckets.
  - An oversize value fails with code `set_failed`.
  - `expiresAt == now` is still a hit.
- **Business executor.**
  - A rule that reports failure with an empty error list does not block the operation.
- **Container.**
  - The reported dependency cycle is always `[token]`.
  - The depth guard can fire only when `maxDepth <= 0`.
  - In non-strict mode, a re-entrant singleton is built twice, and the outer build overwrites the cached instance.
- **Configuration.**
  - A single-segment `delete` never removes anything.
  - `set` keeps a value that fails validation.
  - Merging `null` creates `{}` for a falsy target and keeps any other target.
- **HTTP client.**
  - Its default retry test disagrees with the retry strategy's on 501 and 505.
- **Category service.**
  - A missing category is retried like any other error before the failure is reported.

## Model

| member | source | states |
|---|---|---|
| CacheEntries.SumReplace | src/lib/cache/index.ts:168-175 | replacing an entry changes the size total by the new size minus the replaced entry's size |
| CacheEntries.SumRemove | src/lib/cache/index.ts:282-286 | removing a key subtracts exactly its entry's size from the size total |
| CacheEntries.StoreKeepsConsistent | src/lib/cache/index.ts:159-175 | storing an entry keeps the size total equal to the sum of entry sizes, keeps the insertion order distinct and covering the keys, and keeps every live tag indexed |
| CacheEntries.DeleteKeepsConsistent | src/lib/cache/index.ts:278-300 | deleting a present key keeps the same consistency: the total drops by its size, and its tags no longer list it |
| CacheEntries.UntagKeepsIndex | src/lib/cache/index.ts:287-297 | removing a deleted key from its tags' buckets and dropping emptied buckets leaves no empty bucket and every live tag indexed |
| CacheEntries.StoreKeepsIndex | src/lib/cache/index.ts:224-231 | adding a key to its tags' buckets keeps "tag on live entry implies key in bucket" |
| CacheEntries.SurvivingIdempotent | src/lib/cache/index.ts:90-95 | a second sweep at the same instant removes nothing more |
| CacheEntries.OldestAccess | src/lib/cache/index.ts:266-276 | the oldest access time is attained by some entry and bounds all from below; +infinity exactly for an empty store |
| CacheEntries.NewestAccess | src/lib/cache/index.ts:266-276 | the newest access time is attained by some entry and bounds all from above; -infinity exactly for an empty store |
| CacheEntries.RankByPriorityCorrect | src/lib/cache/index.ts:191-194 | the eviction ranking is a permutation of the keys sorted by ascending priority `hits / max(age, 1) * size` |
| CacheEntries.InsertSorted | src/lib/cache/index.ts:191-194 | inserting a key into a ranked list keeps it sorted by priority |
| CacheEntries.InsertPermutes | src/lib/cache/index.ts:191-194 | inserting a key into a ranked list adds exactly that key |
| CacheEntries.SortedPrefix | src/lib/cache/index.ts:195-199 | every evicted key has priority at most that of every kept key |
| CacheEntries.PurgeStep | src/lib/cache/index.ts:282-300 | deleting one more key extends a sequence of deletions: the store, order and tag index are those of deleting the larger set |
| CacheEntries.PurgedExactly | src/lib/cache/index.ts:282-300 | after any sequence of deletions the order and tag index are determined by the set of keys gone, and the running total is the sum over the original order |
| CacheEntries.InvalidatedTag | src/lib/cache/index.ts:316-319 | once a tag's bucket is deleted no survivor carries the tag, and dropping the bucket keeps the cache consistent |
| CacheEntries.NoneTagged | src/lib/cache/index.ts:333-343 | after the buckets of several tags are deleted no survivor carries any of those tags |
| CacheEntries.SumHitsPermutation | src/lib/cache/index.ts:267-269 | the hit total is the same over any ordering of the keys |
| CacheEntries.SumHitsReplace | src/lib/cache/index.ts:127-130 | a hit on one entry raises the hit total by exactly the change in that entry's count |
| Caching.Cache.constructor | src/lib/cache/index.ts:65-76 | defaults: ttl 60000, maxEntries 1000, maxSize from the config or its default; empty store |
| Caching.Cache.Get | src/lib/cache/index.ts:111-137 | absent key: null and no change; expired (strictly before now): null, and the entry is deleted: its size subtracted, its key dropped from the insertion order and from the buckets of its tags; hit: stored value, hits + 1, lastAccessed := now; the whole new store is `AfterGet` of the old one |
| Caching.Cache.Set | src/lib/cache/index.ts:139-183 | oversize: `set_failed` error and nothing changes; otherwise the evicted keys are a lowest-priority prefix, and the whole new store (entries, insertion order, tag index, total) is `AfterSet`: deleting them, then storing the fresh entry with the given options; afterwards the store either fits or holds only the new key |
| Caching.Cache.Store | src/lib/cache/index.ts:159-175 | the new entry replaces any old one, the total changes by new minus old size, and the tags gain the key |
| Caching.Cache.EnsureCapacity | src/lib/cache/index.ts:185-200 | no-op when the value fits; otherwise evicts a lowest-priority prefix, stopping as soon as the value fits, ending with a fit or an empty store; order, tag index and total are exactly those of deleting the evicted keys |
| Caching.Cache.EvictInOrder | src/lib/cache/index.ts:194-199 | deletes ranked keys in order until the value fits; the store, order and tag index lose exactly those keys, and the total drops by exactly their sizes |
| Caching.Cache.Delete | src/lib/cache/index.ts:278-310 | removes the key, subtracts its size and unlinks it from its tags; an absent key changes nothing |
| Caching.Cache.Maintenance | src/lib/cache/index.ts:84-109 | keeps exactly the entries that are neither expired nor idle-evictable; order, tag index and total are those of deleting the rest |
| Caching.Cache.InvalidateByTag | src/lib/cache/index.ts:312-331 | deletes exactly the keys in the tag's bucket and drops the bucket; no survivor carries the tag; order, other buckets and total are those of deleting those keys |
| Caching.Cache.DeleteEach | src/lib/cache/index.ts:316-318 | deleting every key of a bucket, one after another, leaves the store, order and tag index of deleting exactly that set of keys |
| Caching.Cache.InvalidateByTags | src/lib/cache/index.ts:333-343 | deletes exactly the union of the tags' buckets, drops those buckets, and leaves no survivor carrying any of the tags; order, other buckets and total follow the deletions |
| Caching.Cache.InvalidateByPattern | src/lib/cache/index.ts:345-365 | deletes exactly the keys the pattern matches; order, tag index and total are those of deleting them |
| Caching.Cache.Clear | src/lib/cache/index.ts:367-386 | empties the store and tag index and zeroes the total |
| Caching.Cache.GetStats | src/lib/cache/index.ts:266-276 | hits is the sum of the entries' hit counts; misses reported as 0; size and count are the store's; oldest and newest access are the extreme access times |
| Caching.CacheManager.GetOrSet | src/lib/cache/index.ts:395-414 | a live non-null hit returns the stored value without calling the factory, and the store is as `get` leaves it (hit counted, access time set); a miss calls the factory once: its error is passed on with the store as `get` left it; its value is `set` with the given options, so the new store is `AfterSet` of the store after `get`, with a lowest-priority eviction prefix, or the size error leaves the store as `get` left it |
| Caching.CacheManager.Lookup | src/lib/cache/index.ts:403-406 | the cached value is returned exactly on a live non-null hit; the new store is exactly `AfterGet`: unchanged when absent, the expired entry deleted, or the hit counted |
| Caching.CacheManager.Fill | src/lib/cache/index.ts:408-410 | the value is stored with the given options after evicting a lowest-priority prefix, and the whole new store is `AfterSet`; an oversize value raises the size error and leaves the store unchanged |
| Retry.Pow2 | src/lib/http/retry.ts:67 | `2^n` is at least 1 |
| Retry.ExponentialIsProduct | src/lib/http/retry.ts:67 | the doubling recursion used for the exponential term equals `baseDelay * 2^n` |
| Retry.DelayBounds | src/lib/http/retry.ts:64-70 | the delay is at most maxDelay, at least `min(baseDelay * 2^(a-1), maxDelay)`, and below the cap it is exactly `baseDelay * 2^(a-1)` plus the jitter |
| Retry.ConfigureDefaults | src/lib/http/retry.ts:7-19 | defaults 3 attempts, 1000 ms base, 5000 ms cap, the status classifier; each field given overrides its default |
| Retry.DefaultShouldRetryClassifies | src/lib/http/retry.ts:45-62 | retried: no response, 5xx, 408 and 429 from axios, and network errors; nothing else |
| Retry.RetryStrategy.constructor | src/lib/http/retry.ts:14-19 | the policy is the defaults overridden by the caller's fields |
| Retry.RetryStrategy.TryOnce | src/lib/http/retry.ts:28-37 | one call of the work: the pass settles exactly when the call returned, its error is not retryable or this is the last attempt, with the value or the wrapped error; otherwise the wait is `calculateDelay(attempt)` |
| Retry.RetryStrategy.Execute | src/lib/http/retry.ts:21-43 | the result, the number of calls and the delays are those of the attempt schedule |
| Retry.AttemptsBounds | src/lib/http/retry.ts:24-40 | between 1 and maxAttempts calls with one delay fewer than calls; no call at all when maxAttempts < 1 |
| Retry.AttemptsOutcome | src/lib/http/retry.ts:27-42 | success is the first returned value; a failure is the last error, stopped because it is not retryable or the attempts ran out; every earlier call failed retryably |
| Retry.AttemptsDelayAt | src/lib/http/retry.ts:37-38 | the i-th wait of a run from attempt a is the delay calculated after attempt a + i |
| Retry.AttemptsDelayBounded | src/lib/http/retry.ts:37-38 | each delay lies between the backoff of the attempt that just failed and maxDelay |
| Retry.NotRetryableStops | src/lib/http/retry.ts:33-35 | a non-retryable first error is thrown after one call with no delay |
| Retry.NonErrorWrapped | src/lib/http/retry.ts:31 | a thrown non-Error is rethrown as `Error(String(v))` |
| Retry.DefaultsRecoverOnThirdCall | src/lib/http/retry.ts:21-43 | with the defaults, 503 then 500 then success takes three calls and waits in [1000, 1100) and [2000, 2100) |
| Business.CollectedEmpty | src/lib/services/business.ts:103-117 | validation passes iff every rule settled and none reported an error |
| Business.CollectedThrows | src/lib/services/business.ts:106-108 | a rule that throws makes validation throw |
| Business.CollectedThrowsFirst | src/lib/services/business.ts:106-108 | once a rule throws, later rules do not run |
| Business.CollectedKeepsAll | src/lib/services/business.ts:106-116 | every error of every failing rule is collected: rules after a failure still run |
| Business.AttemptsBounds | src/lib/services/business.ts:81-101 | at most maxAttempts calls, one delay fewer than calls; maxAttempts <= 0 throws "Max retry attempts reached" without calling |
| Business.AttemptsOutcome | src/lib/services/business.ts:86-100 | the first returned value wins; a failure is the last error, rethrown when not retryable or at the last attempt; each delay is `getDelayMs` of the failed attempt |
| Business.OperationBuilder.constructor | src/lib/services/business.ts:16-20 | a fresh builder has no cache key, retry options or rules |
| Business.OperationBuilder.WithCache | src/lib/services/business.ts:22-26 | overwrites the cache key and options, keeps the rest, returns the same builder |
| Business.OperationBuilder.WithRetry | src/lib/services/business.ts:28-31 | overwrites the retry options, keeps the rest, returns the same builder |
| Business.OperationBuilder.WithValidation | src/lib/services/business.ts:33-36 | overwrites the rules, keeps the rest, returns the same builder |
| Business.OperationBuilder.Rejection | src/lib/services/business.ts:43-48 | no rules never reject; settled rules reject iff they collected an error |
| Business.OperationBuilder.CheckRules | src/lib/services/business.ts:103-117 | runs the rules and yields the rejection |
| Business.OperationBuilder.Produce | src/lib/services/business.ts:43-53 | rejected: the operation never runs and the store is untouched; no key: the retried operation decides and the store is untouched; hit: the operation is skipped and the store is as `get` leaves it; miss: the retried operation's error, or its value `set` into the store (`AfterSet` after the `get`), or the size error |
| Business.OperationBuilder.ExecuteWithCache | src/lib/services/business.ts:73-79 | a hit skips the operation and leaves the store as `get` does; a miss runs the retried operation as the factory, with the store afterwards as `getOrSet` leaves it |
| Business.OperationBuilder.Execute | src/lib/services/business.ts:38-71 | never rejects; the envelope settles the produced result, stamped with the clock read after it; the operation calls and the store are as in `Produce`; the executor's own span is opened and ended; the cache's spans are not modelled |
| Business.Settle | src/lib/services/business.ts:55-67 | success yields data with span id and timestamp; failure yields null data, the error and no metadata |
| DI.Configure | src/lib/core/di/container.ts:11-18 | strict and non-autoCreate by default; maxDepth defaults to 10 |
| DI.CycleMessage | src/lib/core/di/container.ts:52-58 | the reported cycle is the single token |
| DI.CacheKeptTrans | src/lib/core/di/container.ts:79-84 | cached singletons stay cached across a sequence of steps |
| DI.CacheStore | src/lib/core/di/container.ts:104-106 | storing a first instance keeps every cached singleton |
| DI.Container.constructor | src/lib/core/di/container.ts:11-18 | the settings are the configured ones; everything starts empty |
| DI.Container.Register | src/lib/core/di/container.ts:27-44 | overwrites the definition (singleton and lazy default false) and keeps any cached instance |
| DI.Container.Has | src/lib/core/di/container.ts:114-116 | true iff the token was registered |
| DI.Container.Get | src/lib/core/di/container.ts:46-48 | the result and the new resolving set, cache and object count are those `Follows` prescribes from the current state with the full stack budget; in particular: cycle `[token]` in strict mode, depth error exactly when maxDepth <= 0, not-found or a fresh uncached object, cached singleton, or a factory run whose result its dependencies decide |
| DI.Container.Resolve | src/lib/core/di/container.ts:50-87 | the result and new state are those `Follows` prescribes: re-entrant cases, depth guard, unregistered token, cached singleton, else `createInstance`; cached singletons never replaced in strict mode; a re-entrant uncached token in non-strict mode runs its factory again |
| DI.Container.CreateInstance | src/lib/core/di/container.ts:94-112 | `Created`: not-found for an unregistered token, the engine's stack error without budget, else the factory run `Ran`; the token is released afterwards; a singleton's result is cached; `undefined` is returned as is |
| DI.Container.RunFactory | src/lib/core/di/container.ts:100-111 | `Ran`: with the token marked, the dependencies are resolved in order until one throws; the run throws that error or yields `undefined` or the next object (cached for a singleton); the token is unmarked whether it returned or threw |
| DI.Container.Settle | src/lib/core/di/container.ts:102-108 | a dependency failure is thrown; otherwise the instance is yielded; the state is the one `Settled` prescribes |
| DI.Container.Yield | src/lib/core/di/container.ts:102-106 | a singleton's instance is stored; a transient one is not |
| DI.Container.ResolveDependencies | src/lib/core/di/container.ts:100-103 | the records resolve the dependencies in order, each from the state the previous one left, stopping right after the first failure; the returned error is that failure's, none when all succeeded (so none for no dependencies); cached singletons stay cached |
| DI.Container.InitializeAll | src/lib/core/di/container.ts:125-133 | every eager token is resolved in registration order, each from the state the previous one left, even after a failure (`Sweep`), so every outcome and the final state are determined; the failure is the error of the first token whose resolution threw; with maxDepth <= 0 each fails on depth; a clean strict run leaves every eager object singleton cached |
| DI.Container.Visit | src/lib/core/di/container.ts:126-130 | a lazy token is skipped and nothing changes; an eager one's outcome is `Some(r)` with `r` and the new state those `Follows` prescribes for `get` from the current state; its factory was started unless it was a cached singleton; in strict mode a successful preloaded singleton is cached |
| DI.FollowsDeterministic | src/lib/core/di/container.ts:50-111 | `resolve` is a function of the token, the state and the stack budget: two records from the same start agree on result, final state and dependencies |
| DI.FollowsCreates | src/lib/core/di/container.ts:94-111 | a resolution never lowers the object count, so an object it creates is new |
| DI.FactoryResult | src/lib/core/di/container.ts:94-111 | a factory run fails exactly when one of its dependencies failed, with the last (first failing) one's error; otherwise every dependency was resolved and it yields `undefined` or an object created after all of them |
| DI.LeafFactory | src/lib/core/di/container.ts:94-108 | a factory with no dependencies, uncached and not being resolved, returns the next object |
| DI.MissingDependency | src/lib/core/di/container.ts:69-111 | a factory whose first dependency is unregistered throws that dependency's not-found error |
| DI.FirstFailure | src/lib/core/di/container.ts:133 | the reported error is that of some failing outcome with no failure before it, and there is none exactly when nothing failed |
| DI.Container.Clear | src/lib/core/di/container.ts:118-122 | services, singletons and resolving are emptied |
| Text.JoinSplit | src/lib/config/index.ts:67-69 | joining the dot-split segments gives back the key |
| Text.SplitJoin | src/lib/config/index.ts:67-69 | splitting joined dot-free segments gives back the segments |
| Config.GetPathUndefined | src/lib/config/index.ts:106-110 | reading below undefined yields undefined |
| Config.GetPathAppend | src/lib/config/index.ts:106-110 | reading a path is reading its prefix, then the rest |
| Config.ShortCircuit | src/lib/config/index.ts:106-110 | a falsy intermediate makes the whole read undefined |
| Config.SetPath | src/lib/config/index.ts:112-122 | a successful write yields an object whose keys gain the next segment, or whose last key is set |
| Config.SetIntoEmpty | src/lib/config/index.ts:115-118 | writing into `{}` creates the missing intermediates as nested objects |
| Config.SetThenGet | src/lib/config/index.ts:112-122 | after a successful `set(key, v)`, `get(key)` is `v` |
| Config.SetKeepsOthers | src/lib/config/index.ts:112-122 | a write leaves every path that diverges from the written one unchanged |
| Config.RemoveAt | src/lib/config/index.ts:71-73 | removal keeps the value an object and only shrinks its keys |
| Config.DeleteRemoves | src/lib/config/index.ts:66-74 | a dotted key under an existing object reads undefined after `delete` |
| Config.DeleteSingleSegment | src/lib/config/index.ts:66-74 | a single-segment key is never deleted |
| Config.DeleteIdempotent | src/lib/config/index.ts:66-74 | deleting twice is deleting once |
| Config.MergeValue | src/lib/config/index.ts:124-135 | non-object sources overwrite; merging `null` yields `{}` for a falsy target and keeps any other |
| Config.MergeInto | src/lib/config/index.ts:124-135 | the merged keys are the union, keys only in the target are kept, and failure needs a primitive target for a nested object |
| Config.MergeIdempotent | src/lib/config/index.ts:124-135 | merging the same source twice is merging it once |
| Config.Configuration.constructor | src/lib/config/index.ts:13-24 | the tree starts as `{}` with the given schema |
| Config.Configuration.Get | src/lib/config/index.ts:49-52 | the value at the dotted path, or the default when it is undefined |
| Config.Configuration.Has | src/lib/config/index.ts:62-64 | true iff `get(key)` is not undefined |
| Config.Configuration.Validate | src/lib/config/index.ts:80-85 | true without a schema; otherwise succeeds iff the tree conforms, and never returns false |
| Config.Configuration.Set | src/lib/config/index.ts:54-60 | the write happens first and stays even when validation then fails; a write that throws changes nothing |
| Config.Configuration.Delete | src/lib/config/index.ts:66-74 | the tree becomes the path-deleted tree |
| Config.Configuration.Clear | src/lib/config/index.ts:76-78 | the tree becomes `{}` |
| Config.Configuration.GetAll | src/lib/config/index.ts:87-89 | the top-level fields of the tree |
| ConfigSchema.ValidateType | src/lib/config/schema.ts:66-101 | succeeds iff the value has the type (null passes as an object); "<path> must be a <type>" or "Unknown type in schema for <path>" otherwise |
| ConfigSchema.ValidateEntry | src/lib/config/schema.ts:17-50 | required-and-missing error first, absent optional accepted, then type error, then "Invalid value for config key" |
| ConfigSchema.EntryCorrect | src/lib/config/schema.ts:17-50 | an entry validates iff it conforms, and never to false |
| ConfigSchema.ObjectCorrect | src/lib/config/schema.ts:12-53 | an object validates iff every schema entry conforms |
| ConfigSchema.ArrayCorrect | src/lib/config/schema.ts:55-64 | an array validates iff every element conforms to the item schema |
| ConfigSchema.ValidateCorrect | src/lib/config/schema.ts:8-10 | `validate` succeeds iff the configuration conforms, and never returns false |
| ConfigSchema.ExtraKeysIgnored | src/lib/config/schema.ts:17-19 | keys the schema does not mention do not affect the outcome |
| ConfigSchema.WrapperIsEntry | src/lib/config/schema.ts:59-63 | validating the wrapper `{ item }` is validating the element at `path.item` |
| FieldRules.NameErrors | src/lib/services/category/validators.ts:94-123 | at most one name error, in the order REQUIRED, MIN_LENGTH, MAX_LENGTH, INVALID_FORMAT; none iff present, within bounds and well formed |
| CategoryValidation.LimitsFrom | src/lib/services/category/validators.ts:95-96 | absent settings give the defaults 2/100/100/1000/0/1000/16384 |
| CategoryValidation.JoinedWordsAreSlugs | src/lib/services/category/validators.ts:129 | hyphen-joined non-empty lowercase alphanumeric words form a slug |
| CategoryValidation.SlugsAreJoinedWords | src/lib/services/category/validators.ts:129 | every slug is such a hyphen-joined word sequence |
| CategoryValidation.SlugErrors | src/lib/services/category/validators.ts:125-144 | a missing slug passes; too long gives MAX_LENGTH before INVALID_FORMAT |
| CategoryValidation.DescriptionErrors | src/lib/services/category/validators.ts:146-158 | MAX_LENGTH iff present and longer than the limit |
| CategoryValidation.ImageErrors | src/lib/services/category/validators.ts:160-181 | INVALID_URL when unparsable, INVALID_PROTOCOL outside http/https, none otherwise |
| CategoryValidation.SortOrderErrors | src/lib/services/category/validators.ts:183-204 | undefined passes; a non-integer out of range gets both INVALID_TYPE and RANGE |
| CategoryValidation.MetadataErrors | src/lib/services/category/validators.ts:206-227 | MAX_SIZE when the serialisation is too long, INVALID_FORMAT when it fails |
| CategoryValidation.CategoryErrorsExactly | src/lib/services/category/validators.ts:80-92 | no errors iff every field rule holds, and at most seven errors |
| CategoryValidation.CategoryValidator.constructor | src/lib/services/category/validators.ts:72-78 | starts with no errors |
| CategoryValidation.CategoryValidator.Validate | src/lib/services/category/validators.ts:80-92 | appends the six checks' errors in order to the field and reports on the whole field |
| CategoryValidation.CategoryValidator.ValidateName | src/lib/services/category/validators.ts:94-123 | appends the name errors |
| CategoryValidation.CategoryValidator.ValidateSlug | src/lib/services/category/validators.ts:125-144 | appends the slug errors |
| CategoryValidation.CategoryValidator.ValidateDescription | src/lib/services/category/validators.ts:146-158 | appends the description errors |
| CategoryValidation.CategoryValidator.ValidateImage | src/lib/services/category/validators.ts:160-181 | appends the image errors |
| CategoryValidation.CategoryValidator.ValidateSortOrder | src/lib/services/category/validators.ts:183-204 | appends the sort-order errors |
| CategoryValidation.CategoryValidator.ValidateMetadata | src/lib/services/category/validators.ts:206-227 | appends the metadata errors |
| CategoryValidation.ValidateTwice | src/lib/services/category/validators.ts:73 | a second `validate()` on the same instance reports every error twice |
| ProductValidation.NameLimits | src/lib/services/product/validators.ts:60-61 | defaults 3 and 200, read from the category name keys |
| ProductValidation.PriceErrors | src/lib/services/product/validators.ts:90-110 | NUMBER for a non-number, NUMBER_NEGATIVE below 0, NUMBER_TOO_LARGE above 1000000; none iff in [0, 1000000] |
| ProductValidation.StockErrors | src/lib/services/product/validators.ts:112-126 | an error iff stock is present and not a non-negative number |
| ProductValidation.CategoriesErrors | src/lib/services/product/validators.ts:128-135 | an error iff categories are present and empty |
| ProductValidation.SkuErrors | src/lib/services/product/validators.ts:137-146 | a non-empty SKU must be 6-20 uppercase letters or digits |
| ProductValidation.SlugErrors | src/lib/services/product/validators.ts:148-157 | a non-empty slug must be 3-50 lowercase letters, digits or hyphens |
| ProductValidation.HyphensAnywhere | src/lib/services/product/validators.ts:150 | leading, trailing and repeated hyphens are accepted |
| ProductValidation.MetadataErrors | src/lib/services/product/validators.ts:159-170 | an error iff truthy metadata does not serialise |
| ProductValidation.ProductErrorsExactly | src/lib/services/product/validators.ts:44-57 | no errors iff every field rule holds, and at most seven errors |
| ProductValidation.UpdateWithoutPriceRejected | src/lib/services/product/validators.ts:90-97 | an input without a price always gets the NUMBER price error |
| ProductValidation.ProductValidator.constructor | src/lib/services/product/validators.ts:36-42 | starts with no errors and the configured name limits |
| ProductValidation.ProductValidator.Validate | src/lib/services/product/validators.ts:44-57 | appends the seven checks' errors in order to the field and reports on the whole field |
| CartValidation.Validate | src/lib/services/cart/validators.ts:5-17 | at most two errors, productId before quantity; the productId error iff it is missing or empty; the quantity error iff not a number >= 1; valid iff none |
| HttpClient.DefaultRetryDecision | src/lib/http/client.ts:178-187 | by default retries iff there is no response or the status is 408, 429, 500, 502, 503 or 504 |
| HttpClient.NotImplementedDisagrees | src/lib/http/client.ts:184-186 | 501 and 505 are not retried here but are retried by the retry strategy's classifier |
| HttpClient.MapError | src/lib/http/client.ts:189-222 | no response is a network error; 400/401/403/404/409/429 map to their classes (400 with the data); other statuses are server errors iff >= 500 |
| HttpClient.HandleResponseError | src/lib/http/client.ts:140-176 | a 401 with a refresh that throws rejects with "Session expired"; a refreshed non-empty token replays with `Bearer <token>`; an empty token falls through to the retry decision; a retry only when retryable; otherwise the mapped error |
| HttpClient.RetryBeforeMapping | src/lib/http/client.ts:167-175 | without a refresh, a retryable error is retried and any other is mapped |
| HttpClient.RefreshComesFirst | src/lib/http/client.ts:150-158 | a refreshed token replays a 401 with the new bearer header, before any retry |
| CategoryService.GroupsFormUUID | src/lib/services/category/service.ts:9-12 | five hex groups of 8-4-4-4-12 digits joined by hyphens are a UUID |
| CategoryService.UUIDHasGroups | src/lib/services/category/service.ts:9-12 | every UUID is such a joining of hex groups |
| CategoryService.Lookup | src/lib/services/category/service.ts:43-53 | looks up by id for a UUID and by slug otherwise; a missing category throws `Category "<idOrSlug>" not found` |
| CategoryService.RetrySettings | src/lib/services/category/service.ts:60-67 | each override field given wins; otherwise 3 attempts and a retry of any `Error`; delay `2^attempt * 1000` |
| CategoryService.MissingCategoryRetried | src/lib/services/category/service.ts:42-71 | with the defaults, a missing category is looked up three times, waiting 2000 and 4000 ms, then fails with the not-found error |
| Monitoring.Stamp | src/lib/monitoring/index.ts:239-243 | environment and version are added, overriding same-named keys; other keys are kept |
| Monitoring.Retained | src/lib/monitoring/index.ts:70-77 | keeps exactly the spans not ended longer ago than the retention |
| Monitoring.RetainedIdempotent | src/lib/monitoring/index.ts:70-77 | a second cleanup at the same instant removes nothing more |
| Monitoring.Ended | src/lib/monitoring/index.ts:110-118 | end is now, duration is now minus start, and the duration attribute is set |
| Monitoring.StartEndRestoresCurrent | src/lib/monitoring/index.ts:79-124 | starting then ending a span restores the previous current span |
| Monitoring.Tracer.constructor | src/lib/monitoring/index.ts:59-62 | retention defaults to 30000; no spans, no current span |
| Monitoring.Tracer.StartSpan | src/lib/monitoring/index.ts:79-101 | sampled: a span parented on the current span becomes current; unsampled: `''` and no change |
| Monitoring.Tracer.EndSpan | src/lib/monitoring/index.ts:107-124 | a known span is ended and its parent becomes current; an unknown id changes nothing |
| Monitoring.Tracer.AddEvent | src/lib/monitoring/index.ts:126-138 | appends an event to a known span only |
| Monitoring.Tracer.Cleanup | src/lib/monitoring/index.ts:70-77 | the span map becomes the retained spans |
| Monitoring.Tracer.Clear | src/lib/monitoring/index.ts:144-147 | no spans and no current span |
| Monitoring.Minimum | src/lib/monitoring/index.ts:194 | the minimum is a recorded value below all others |
| Monitoring.Maximum | src/lib/monitoring/index.ts:195 | the maximum is a recorded value above all others |
| Monitoring.SortAscendingCorrect | src/lib/monitoring/index.ts:188 | the sorted copy is an ascending permutation of the values |
| Monitoring.P95Index | src/lib/monitoring/index.ts:189 | the p95 index is below the count |
| Monitoring.Summarize | src/lib/monitoring/index.ts:182-201 | none for an empty series; count and sum of the values, min and max bound every value |
| Monitoring.P95Bounded | src/lib/monitoring/index.ts:188-199 | p95 is a recorded value between min and max |
| Monitoring.Metrics.constructor | src/lib/monitoring/index.ts:160 | no series |
| Monitoring.Metrics.Record | src/lib/monitoring/index.ts:162-180 | the first record fixes the labels; later ones append the value and refresh the timestamp |
| Monitoring.RecordCounts | src/lib/monitoring/index.ts:177-179 | recording adds one to the count and the value to the sum |
| Monitoring.Metrics.GetMetric | src/lib/monitoring/index.ts:182-201 | null for an unknown name, the series summary otherwise |
| Monitoring.Metrics.Clear | src/lib/monitoring/index.ts:221-223 | no series |
| Monitoring.LastN | src/lib/monitoring/index.ts:246-249 | the newest n entries, in order |
| Monitoring.PushKeepsLast | src/lib/monitoring/index.ts:246-249 | push-then-shift keeps exactly the newest entries of the whole history |
| Monitoring.LogBufferBounded | src/lib/monitoring/index.ts:246-249 | the buffer never exceeds its limit and ends with the newest entry |
| Monitoring.Logger.constructor | src/lib/monitoring/index.ts:230-232 | retention defaults to 1000; empty buffer |
| Monitoring.Logger.Log | src/lib/monitoring/index.ts:234-252 | appends the stamped entry and drops the oldest beyond the limit |
| Monitoring.Logger.GetLogs | src/lib/monitoring/index.ts:290-292 | the newest entries of the whole history |
| Monitoring.Logger.Clear | src/lib/monitoring/index.ts:294-296 | the buffer is emptied |

## Left out

- Timers: the cache's maintenance interval, the tracer's cleanup interval and the retry waits are not modelled. The sweeps are methods taking `now`, and the waits are the returned delays.
- Clock reads: each cache, tracer or container step sees one clock value (`now`), although the source reads `Date.now()` more than once. `execute` takes two: `now` for opening its span and for the cache, and `endTime`, read after the result is produced, for the envelope's timestamp and the span's end; the source reads the timestamp just before ending the span.
- Monitoring side effects inside the cache and the container are not modelled: spans, metrics and error logs are fire-and-forget output. The executor's span is modelled; its error log (business.ts:63) is not. `Logger.writeToConsole` and the level shorthands `debug`/`info`/`warn`/`error` are not modelled either.
- `Tracer.getSpan`, `exportSpans`, `Metrics.exportMetrics`, `Logger.exportLogs` and `createMonitoring` are copies or wiring with nothing to state.
- Business.OperationBuilder.Execute: the tracer clause assumes a cache without monitoring. When the cache is wired to the executor's monitoring system, `Cache.get`, `Cache.set` and `CacheManager.getOrSet` (cache/index.ts:112, 144, 401) each open and end a span in the same tracer. A sampled cached `execute` then adds two to four spans, not one.
- Retry.ConfigureDefaults: a field given explicitly as `undefined` is treated as absent and keeps its default. In the source the spread lets `undefined` override the default: `maxAttempts: undefined` makes no call and throws `undefined`.
- DI.Configure: a field given explicitly as `undefined` is treated as absent and keeps its default. In the source it overrides the default: `strict: undefined` runs non-strict, and `maxDepth: undefined` removes the depth limit.
- `shouldSample` (`Math.random() < samplingRate`) is the boolean input `sampled`, and `crypto.randomUUID` is supplied as an id parameter.
- Monitoring.P95Index: the index is `count * 95 / 100` in exact arithmetic; floating-point rounding of `count * 0.95` is not modelled. The `avg` field is a `real` division.
- Cache `maxEntries` is configured but never consulted by the source, so the model only stores it.
- `getSize` (`JSON.stringify` plus `TextEncoder`) is the byte size passed in by the caller.
- The `invalidateByPattern` regular expression is a predicate on keys; the `lastIndex` state of a global RegExp is not modelled.
- `invalidateByTags` runs its tags one after another instead of through `Promise.all`; `initializeAll` does the same with its tokens.
- `CacheManager.delete`, `invalidateByTag(s)`, `invalidateByPattern` and `clear` only delegate to the cache and are not modelled separately. `createCache` is wiring.
- The `skip` cache option is forwarded but never read by the cache, so the model drops it.
- Retry jitter (`Math.random() * 100`) is an input function into [0, 100). A non-integer `maxAttempts` is not modelled.
- `Container.getInstance` (a process-wide singleton) and `getRegisteredTokens` are not modelled.
- Recursion depth: the JavaScript call-stack limit is a fuel bound (`StackLimit`). Running out of fuel is the `CallStackExceeded` error.
- Factories are abstract: each one resolves a list of dependency tokens and then yields a fresh object or `undefined`.
- `BaseBusinessService.createOperation` and the rest of the service classes are wiring around the builder.
- The validation error `execute` raises is modelled as the intended validation error; the source never imports that class.
- `Configuration.load`, `loadEnvironmentConfig` and the default configuration are not modelled. They read files and `process.env`.
- Config.Configuration.GetAll: the shallow copy and in-place aliasing are not modelled. The configuration tree is a value, so shared nested objects and later mutation through a returned reference do not exist in the model.
- Config.GetPath: property reads on strings, arrays and inherited prototype members read as `undefined`. Arrays are leaves of a dotted path.
- Config.SetPath: an array met along a set path gives a TypeError in the model; JavaScript would set a property on the array. The TypeError messages are approximate.
- Config.RemoveAt: deleting an array element (which leaves a hole) is not modelled.
- Config.MergeInto: key order and the partial mutation left behind by a merge that throws midway are not modelled. Arrays as merge targets give a TypeError.
- `new URL` (the protocol of an image) and `JSON.stringify` (metadata length or serialisability) are abstract functions.
- String lengths count characters, not UTF-16 code units. Numbers in JavaScript values are reals: NaN and the infinities are not modelled. Metric values and every clock value (`now`, span start, end and duration) are integers, although `record` accepts any number and `performance.now()` is fractional.
- Configured validator limits are integers.
- The HTTP transport is not modelled: axios, the interceptors, header injection, token storage, `request` and its cache shortcut. The replay and the retry in `handleResponseError` are returned as decisions, not performed.
- HttpClient.MapError: the error `code`, `metadata` and the message texts are carried in the model, but no contract states them; the contract states only the error class and the 400 response data.
- HttpClient.HandleResponseError: the request config is assumed present when a refreshed token is replayed. A replayed request that fails is caught by the same `try` and becomes "Session expired"; the model stops at the replay decision.
- CategoryValidation.CategoryValidator.Validate: the returned report holds a copy of the errors. In the source the report's `errors` is the validator's own array, so a later `validate()` on the same validator also grows a report returned earlier. This aliasing is not modelled.
- ProductValidation.ProductValidator.Validate: the same copy-instead-of-shared-array simplification as the category validator.
- CategoryValidation.ValidateTwice: `first` is the report as returned by the first call. In the source, once the second call has run, `first.errors` is the same array as `second.errors` (the doubled list), while `first.isValid` keeps the first call's verdict.
- CartValidation.Validate: that repeated calls return equal reports holds because the model is a function; no separate lemma states it.
- The `ConfigManager` type that the validators read limits from is not part of this model: limits are passed as settings.
