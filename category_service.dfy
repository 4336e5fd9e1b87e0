/**
 * What the category service's `getCategory` decides before handing its
 * lookup to the business executor: UUID-or-slug routing, the not-found
 * error, and the cache and retry settings it configures.
 */
module CategoryService {
  import opened Wrappers
  import opened JsValues
  import opened Errors
  import opened Text
  import opened Operations
  import opened CacheEntries
  import Business
  import Retry

  /** The hyphen positions of the 8-4-4-4-12 layout. */
  predicate HyphenAt(i: int) {
    i == 8 || i == 13 || i == 18 || i == 23
  }

  /**
   * `isUUID`: `/^[0-9a-f]{8}-[0-9a-f]{4}-[0-9a-f]{4}-[0-9a-f]{4}-[0-9a-f]{12}$/i`,
   * the textual layout of section 3 of RFC 4122 in either case, with no
   * check of the version or variant digits.
   */
  predicate IsUUID(s: string) {
    |s| == 36 && forall i :: 0 <= i < 36 ==> if HyphenAt(i) then s[i] == '-' else IsHexDigit(s[i])
  }

  predicate HexGroup(g: string, n: nat) {
    |g| == n && All(g, IsHexDigit)
  }

  /** Five hexadecimal groups of 8, 4, 4, 4 and 12 digits, joined by hyphens, form a UUID. */
  lemma GroupsFormUUID(a: string, b: string, c: string, d: string, e: string)
    requires HexGroup(a, 8) && HexGroup(b, 4) && HexGroup(c, 4) && HexGroup(d, 4) && HexGroup(e, 12)
    ensures IsUUID(a + "-" + b + "-" + c + "-" + d + "-" + e)
  {
    var s := a + "-" + b + "-" + c + "-" + d + "-" + e;
    forall i | 0 <= i < 36
      ensures if HyphenAt(i) then s[i] == '-' else IsHexDigit(s[i])
    {
      if i < 8 { assert s[i] == a[i]; }
      else if 8 < i < 13 { assert s[i] == b[i - 9]; }
      else if 13 < i < 18 { assert s[i] == c[i - 14]; }
      else if 18 < i < 23 { assert s[i] == d[i - 19]; }
      else if 23 < i { assert s[i] == e[i - 24]; }
    }
  }

  /** Conversely, a UUID is its five hexadecimal groups joined by hyphens. */
  lemma UUIDHasGroups(s: string)
    requires IsUUID(s)
    ensures HexGroup(s[..8], 8) && HexGroup(s[9..13], 4) && HexGroup(s[14..18], 4)
         && HexGroup(s[19..23], 4) && HexGroup(s[24..], 12)
    ensures s == s[..8] + "-" + s[9..13] + "-" + s[14..18] + "-" + s[19..23] + "-" + s[24..]
  {
    assert forall i :: 0 <= i < 8 ==> s[..8][i] == s[i];
    assert forall i :: 0 <= i < 4 ==> s[9..13][i] == s[9 + i] && s[14..18][i] == s[14 + i] && s[19..23][i] == s[19 + i];
    assert forall i :: 0 <= i < 12 ==> s[24..][i] == s[24 + i];
    assert s[8] == '-' && s[13] == '-' && s[18] == '-' && s[23] == '-';
  }

  /** The category store the lookup reads: by id and by slug, `null` when absent. */
  datatype Repository = Repository(findById: string -> Option<Value>, findBySlug: string -> Option<Value>)

  function NotFound(idOrSlug: string): Thrown {
    Error(PlainError("Category \"" + idOrSlug + "\" not found"))
  }

  /**
   * The operation `getCategory` runs: by id when the argument is a UUID,
   * by slug otherwise; a missing (falsy) category is an error.
   */
  function Lookup(idOrSlug: string, repo: Repository): (o: Outcome)
    ensures var found := if IsUUID(idOrSlug) then repo.findById(idOrSlug) else repo.findBySlug(idOrSlug);
      && (o.Returned? <==> found.Some? && Truthy(found.value))
      && (o.Returned? ==> o.value == found.value)
      && (o.Threw? ==> o.thrown == NotFound(idOrSlug))
  {
    var category := if IsUUID(idOrSlug) then repo.findById(idOrSlug) else repo.findBySlug(idOrSlug);
    if category.None? || !Truthy(category.value) then Threw(NotFound(idOrSlug)) else Returned(category.value)
  }

  /** The cache key of a lookup. */
  function CacheKey(idOrSlug: string): string
  {
    "category:" + idOrSlug
  }

  /** One hour, in milliseconds. */
  const CategoryTtl: int := 3600000

  /** The cache options: one-hour expiry and the `category` tag (`skip` is not read by the cache). */
  const CacheSettings := CacheOptions(Some(CategoryTtl), Some(["category"]), None)

  /** The caller's retry overrides. */
  datatype RetryOverrides = RetryOverrides(maxAttempts: Option<int>, shouldRetry: Option<Thrown -> bool>)

  /** `error instanceof Error` */
  predicate IsErrorInstance(t: Thrown) {
    t.Error?
  }

  /** `Math.pow(2, attempt) * 1000`; the executor only asks for attempts from 1 on. */
  function Backoff(attempt: int): int {
    if attempt >= 0 then Retry.Pow2(attempt) * 1000 else 0
  }

  /**
   * The retry options `getCategory` passes: up to 3 attempts unless
   * overridden, a delay of `2^attempt` seconds, and a retry of any `Error`
   * unless overridden.
   */
  function RetrySettings(overrides: Option<RetryOverrides>): (o: Business.RetryOptions)
    ensures overrides.None? || overrides.value.maxAttempts.None? ==> o.maxAttempts == 3
    ensures overrides.Some? && overrides.value.maxAttempts.Some? ==> o.maxAttempts == overrides.value.maxAttempts.value
    ensures overrides.None? || overrides.value.shouldRetry.None? ==> o.shouldRetry == IsErrorInstance
    ensures overrides.Some? && overrides.value.shouldRetry.Some? ==> o.shouldRetry == overrides.value.shouldRetry.value
    ensures o.getDelayMs == Backoff
  {
    var maxAttempts := if overrides.Some? then overrides.value.maxAttempts.GetOr(3) else 3;
    var shouldRetry := if overrides.Some? then overrides.value.shouldRetry.GetOr(IsErrorInstance) else IsErrorInstance;
    Business.RetryOptions(maxAttempts, shouldRetry, Backoff)
  }

  /**
   * With the default settings, a category that does not exist is looked up
   * three times, with waits of 2 and 4 seconds, and the not-found error
   * is what the executor finally sees: the retry treats it like any other `Error`.
   */
  lemma MissingCategoryRetried(idOrSlug: string, repo: Repository, start: nat)
    requires Lookup(idOrSlug, repo).Threw?
    ensures var run := Business.Attempts(RetrySettings(None), n => Lookup(idOrSlug, repo), start, 1);
      run == Business.Run(Failure(NotFound(idOrSlug)), 3, [2000, 4000])
  {
    var o := RetrySettings(None);
    var script := (n: nat) => Lookup(idOrSlug, repo);
    assert Retry.Pow2(1) == 2 && Retry.Pow2(2) == 4;
    assert Business.Attempts(o, script, start, 3) == Business.Run(Failure(NotFound(idOrSlug)), 1, []);
    assert Business.Attempts(o, script, start, 2) == Business.Run(Failure(NotFound(idOrSlug)), 2, [4000]);
  }
}
