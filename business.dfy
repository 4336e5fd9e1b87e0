/**
 * The business operation executor (src/lib/services/business.ts): a builder
 * that composes validation, then the cache (get-or-populate), then a retry
 * loop around a scripted operation, inside one tracing span, and settles into
 * a result envelope instead of rejecting.
 */
module Business {
  import opened Wrappers
  import opened JsValues
  import opened Errors
  import opened Operations
  import opened CacheEntries
  import opened Caching
  import Monitoring

  /** `RetryOptions`: the caller's attempt bound, retry test and backoff schedule. */
  datatype RetryOptions = RetryOptions(maxAttempts: int, shouldRetry: Thrown -> bool, getDelayMs: int -> int)

  /** What a rule's `validate()` resolves to. */
  datatype RuleResult = RuleResult(success: bool, errors: seq<FieldError>)

  /** A validation rule, given by how its `validate()` settles: with a result, or by throwing. */
  datatype Rule = Rule(outcome: Result<RuleResult, Thrown>)

  datatype ValidationResult = ValidationResult(success: bool, errors: seq<FieldError>)

  datatype Metadata = Metadata(spanId: string, timestamp: int)

  /** The settled `Result<T>` of `execute`: data with metadata on success, `null` data with the error otherwise. */
  datatype Envelope = Envelope(data: Value, error: Option<Thrown>, metadata: Option<Metadata>)

  const MaxAttemptsMessage: string := "Max retry attempts reached"
  const SpanName: string := "business.operation"

  // ----- validation -----

  /** The errors a rule contributes: its list when it reports failure, none otherwise. */
  function Reported(r: RuleResult): seq<FieldError> {
    if r.success then [] else r.errors
  }

  /**
   * `validate` over the rules: the first rule that throws makes it throw;
   * otherwise the failing rules' errors, concatenated in rule order.
   */
  function Collected(rules: seq<Rule>): Result<seq<FieldError>, Thrown> {
    if rules == [] then Success([])
    else
      match Collected(rules[..|rules| - 1])
      case Failure(t) => Failure(t)
      case Success(errors) =>
        match rules[|rules| - 1].outcome
        case Failure(t) => Failure(t)
        case Success(result) => Success(errors + Reported(result))
  }

  /** Validation passes exactly when every rule settled and none that reported failure listed an error. */
  lemma {:induction false} CollectedEmpty(rules: seq<Rule>)
    ensures Collected(rules) == Success([]) <==>
      forall i :: 0 <= i < |rules| ==> rules[i].outcome.Success? && Reported(rules[i].outcome.value) == []
  {
    if rules != [] {
      var init := rules[..|rules| - 1];
      var last := rules[|rules| - 1];
      CollectedEmpty(init);
      assert forall i :: 0 <= i < |init| ==> init[i] == rules[i];
      assert (forall i :: 0 <= i < |rules| ==> rules[i].outcome.Success? && Reported(rules[i].outcome.value) == []) <==>
        (forall i :: 0 <= i < |init| ==> init[i].outcome.Success? && Reported(init[i].outcome.value) == [])
        && last.outcome.Success? && Reported(last.outcome.value) == [];
      match Collected(init) {
        case Failure(_) =>
        case Success(errors) =>
          if last.outcome.Success? {
            var more := Reported(last.outcome.value);
            assert Collected(rules) == Success(errors + more);
            assert errors + more == [] <==> errors == [] && more == [] by {
              assert |errors + more| == |errors| + |more|;
            }
          }
      }
    }
  }

  /** A rule that throws makes validation throw, whatever the other rules do, unless an earlier rule threw first. */
  lemma {:induction false} CollectedThrows(rules: seq<Rule>, i: nat)
    requires i < |rules| && rules[i].outcome.Failure?
    ensures Collected(rules).Failure?
  {
    if i < |rules| - 1 {
      CollectedThrows(rules[..|rules| - 1], i);
    }
  }

  /** Every error a failing rule reports is among the collected errors: no rule is skipped after a failure. */
  lemma {:induction false} CollectedKeepsAll(rules: seq<Rule>, i: nat)
    requires i < |rules| && Collected(rules).Success?
    ensures rules[i].outcome.Success?
    ensures forall e :: e in Reported(rules[i].outcome.value) ==> e in Collected(rules).value
  {
    var init := rules[..|rules| - 1];
    if i < |rules| - 1 {
      assert init[i] == rules[i];
      CollectedKeepsAll(init, i);
    }
  }

  // ----- the retry loop -----

  /** A run of `executeWithRetry`: its settled result, how often it ran the operation, and the waits between runs. */
  datatype Run = Run(result: Result<Value, Thrown>, calls: nat, delays: seq<int>)

  /** The retry loop from attempt number `attempt` on, against the script `outcomeAt` started at invocation `start`. */
  function Attempts(o: RetryOptions, outcomeAt: nat -> Outcome, start: nat, attempt: nat): Run
    requires attempt >= 1
    decreases o.maxAttempts - attempt
  {
    if attempt > o.maxAttempts then Run(Failure(Error(PlainError(MaxAttemptsMessage))), 0, [])
    else match outcomeAt(start + attempt - 1)
      case Returned(v) => Run(Success(v), 1, [])
      case Threw(t) =>
        if attempt == o.maxAttempts || !o.shouldRetry(t) then Run(Failure(t), 1, [])
        else
          var rest := Attempts(o, outcomeAt, start, attempt + 1);
          Run(rest.result, rest.calls + 1, [o.getDelayMs(attempt)] + rest.delays)
  }

  /** `executeWithRetry`: without retry options the operation runs once and its outcome is passed on. */
  function Retried(options: Option<RetryOptions>, outcomeAt: nat -> Outcome, start: nat): Run {
    if options.Some? then Attempts(options.value, outcomeAt, start, 1)
    else match outcomeAt(start)
      case Returned(v) => Run(Success(v), 1, [])
      case Threw(t) => Run(Failure(t), 1, [])
  }

  /**
   * The loop runs the operation at least once and at most `maxAttempts` times
   * when `maxAttempts >= 1`, and waits exactly once between consecutive runs;
   * with `maxAttempts <= 0` it never runs it and throws "Max retry attempts reached".
   */
  lemma {:induction false} AttemptsBounds(o: RetryOptions, outcomeAt: nat -> Outcome, start: nat, attempt: nat)
    requires attempt >= 1
    ensures var run := Attempts(o, outcomeAt, start, attempt);
      && (attempt <= o.maxAttempts ==> 1 <= run.calls <= o.maxAttempts - attempt + 1 && |run.delays| == run.calls - 1)
      && (attempt > o.maxAttempts ==> run == Run(Failure(Error(PlainError(MaxAttemptsMessage))), 0, []))
    decreases o.maxAttempts - attempt
  {
    if attempt < o.maxAttempts && outcomeAt(start + attempt - 1).Threw? && o.shouldRetry(outcomeAt(start + attempt - 1).thrown) {
      AttemptsBounds(o, outcomeAt, start, attempt + 1);
    }
  }

  /** The n-th invocation threw an error the options retry. */
  predicate RetriedAt(o: RetryOptions, outcomeAt: nat -> Outcome, n: nat) {
    outcomeAt(n).Threw? && o.shouldRetry(outcomeAt(n).thrown)
  }

  /**
   * How the loop ends: with the value of its last run, or rethrowing that
   * run's error, which was either not retried or the `maxAttempts`-th; every
   * earlier run threw an error that was retried. The i-th wait is `getDelayMs(attempt + i)`.
   */
  lemma {:induction false} AttemptsOutcome(o: RetryOptions, outcomeAt: nat -> Outcome, start: nat, attempt: nat)
    requires 1 <= attempt <= o.maxAttempts
    ensures var run := Attempts(o, outcomeAt, start, attempt);
      var last := outcomeAt(start + attempt - 1 + run.calls - 1);
      && run.calls >= 1
      && (run.result.Success? <==> last.Returned?)
      && (run.result.Success? ==> run.result.value == last.value)
      && (run.result.Failure? ==> run.result.error == last.thrown
                                  && (!o.shouldRetry(last.thrown) || attempt - 1 + run.calls == o.maxAttempts))
      && (forall n :: start + attempt - 1 <= n < start + attempt - 1 + run.calls - 1 ==> RetriedAt(o, outcomeAt, n))
      && (forall i :: 0 <= i < |run.delays| ==> run.delays[i] == o.getDelayMs(attempt + i))
    decreases o.maxAttempts - attempt
  {
    var run := Attempts(o, outcomeAt, start, attempt);
    if outcomeAt(start + attempt - 1).Threw? {
      var t := outcomeAt(start + attempt - 1).thrown;
      if attempt != o.maxAttempts && o.shouldRetry(t) {
        AttemptsOutcome(o, outcomeAt, start, attempt + 1);
        var rest := Attempts(o, outcomeAt, start, attempt + 1);
        assert run == Run(rest.result, rest.calls + 1, [o.getDelayMs(attempt)] + rest.delays);
        assert RetriedAt(o, outcomeAt, start + attempt - 1);
        forall i | 0 <= i < |run.delays|
          ensures run.delays[i] == o.getDelayMs(attempt + i)
        {
          if i > 0 {
            assert run.delays[i] == rest.delays[i - 1];
          }
        }
      }
    }
  }

  // ----- the builder -----

  class OperationBuilder {
    const operation: Operation
    const cacheManager: CacheManager
    const tracer: Monitoring.Tracer
    var cacheKey: Option<string>
    var cacheOptions: Option<CacheOptions>
    var retryOptions: Option<RetryOptions>
    var validationRules: Option<seq<Rule>>

    constructor (operation: Operation, cacheManager: CacheManager, tracer: Monitoring.Tracer)
      ensures this.operation == operation && this.cacheManager == cacheManager && this.tracer == tracer
      ensures cacheKey == None && cacheOptions == None && retryOptions == None && validationRules == None
    {
      this.operation := operation;
      this.cacheManager := cacheManager;
      this.tracer := tracer;
      cacheKey := None;
      cacheOptions := None;
      retryOptions := None;
      validationRules := None;
    }

    /** `withCache`: replaces the cache key and options and returns the same builder. */
    method WithCache(key: string, options: Option<CacheOptions>) returns (self: OperationBuilder)
      modifies this
      ensures self == this && cacheKey == Some(key) && cacheOptions == options
      ensures retryOptions == old(retryOptions) && validationRules == old(validationRules)
    {
      cacheKey := Some(key);
      cacheOptions := options;
      return this;
    }

    /** `withRetry`: replaces the retry options and returns the same builder. */
    method WithRetry(options: RetryOptions) returns (self: OperationBuilder)
      modifies this
      ensures self == this && retryOptions == Some(options)
      ensures cacheKey == old(cacheKey) && cacheOptions == old(cacheOptions) && validationRules == old(validationRules)
    {
      retryOptions := Some(options);
      return this;
    }

    /** `withValidation`: replaces the rules and returns the same builder. */
    method WithValidation(rules: seq<Rule>) returns (self: OperationBuilder)
      modifies this
      ensures self == this && validationRules == Some(rules)
      ensures cacheKey == old(cacheKey) && cacheOptions == old(cacheOptions) && retryOptions == old(retryOptions)
    {
      validationRules := Some(rules);
      return this;
    }

    /**
     * `validate`: runs every rule in order, collecting the errors of those
     * that fail; success exactly when no error was collected.
     */
    static method Validate(rules: seq<Rule>) returns (r: Result<ValidationResult, Thrown>)
      ensures Collected(rules).Failure? ==> r == Failure(Collected(rules).error)
      ensures Collected(rules).Success? ==> r == Success(ValidationResult(Collected(rules).value == [], Collected(rules).value))
    {
      var errors: seq<FieldError> := [];
      for i := 0 to |rules|
        invariant Collected(rules[..i]) == Success(errors)
      {
        assert rules[..i + 1][..i] == rules[..i] && rules[..i + 1][i] == rules[i];
        match rules[i].outcome {
          case Failure(t) =>
            CollectedThrowsFirst(rules, i + 1);
            return Failure(t);
          case Success(result) =>
            if !result.success {
              errors := errors + result.errors;
            } else {
              assert errors + Reported(result) == errors;
            }
        }
      }
      assert rules[..|rules|] == rules;
      r := Success(ValidationResult(|errors| == 0, errors));
    }

    /**
     * `executeWithRetry`: without retry options one run of the operation;
     * otherwise the attempt loop, which rethrows at the last attempt or on an
     * error `shouldRetry` rejects and waits `getDelayMs(attempt)` in between.
     */
    static method ExecuteWithRetry(operation: Operation, options: Option<RetryOptions>)
      returns (r: Result<Value, Thrown>, delays: seq<int>)
      modifies operation
      ensures var run := Retried(options, operation.outcomeAt, old(operation.calls));
        r == run.result && delays == run.delays && operation.calls == old(operation.calls) + run.calls
    {
      delays := [];
      if options.None? {
        var outcome := operation.Invoke();
        match outcome {
          case Returned(v) => return Success(v), [];
          case Threw(t) => return Failure(t), [];
        }
      }
      var o := options.value;
      ghost var start := operation.calls;
      ghost var whole := Attempts(o, operation.outcomeAt, start, 1);
      var attempt := 1;
      while attempt <= o.maxAttempts
        invariant attempt >= 1 && (attempt == 1 || attempt <= o.maxAttempts)
        invariant operation.calls == start + attempt - 1
        invariant var rest := Attempts(o, operation.outcomeAt, start, attempt);
          whole.result == rest.result && whole.calls == attempt - 1 + rest.calls && whole.delays == delays + rest.delays
        decreases o.maxAttempts - attempt
      {
        var outcome := operation.Invoke();
        match outcome {
          case Returned(v) =>
            return Success(v), delays;
          case Threw(t) =>
            if attempt == o.maxAttempts || !o.shouldRetry(t) {
              return Failure(t), delays;
            }
            delays := delays + [o.getDelayMs(attempt)];
            attempt := attempt + 1;
        }
      }
      r := Failure(Error(PlainError(MaxAttemptsMessage)));
    }

    /** Whether `execute` goes through the cache: the key is set and, being a string, truthy. */
    predicate UsesCache()
      reads this
    {
      cacheKey.Some? && cacheKey.value != ""
    }

    /** What validation decides before anything runs: none when it lets the operation through, else the error thrown. */
    function Rejection(): (r: Option<Thrown>)
      reads this
      ensures validationRules.None? ==> r.None?
      ensures validationRules.Some? && Collected(validationRules.value).Success? ==>
        (r.None? <==> Collected(validationRules.value).value == [])
    {
      if validationRules.None? then None
      else match Collected(validationRules.value)
        case Failure(t) => Some(t)
        case Success(errors) => if errors == [] then None else Some(Error(ValidationFailed(errors)))
    }

    /** The validation step of `execute`: the error it throws when the rules reject the input. */
    method CheckRules() returns (rejection: Option<Thrown>)
      ensures rejection == Rejection()
    {
      rejection := None;
      if validationRules.Some? {
        var validation := Validate(validationRules.value);
        if validation.Failure? {
          rejection := Some(validation.error);
        } else if !validation.value.success {
          rejection := Some(Error(ValidationFailed(validation.value.errors)));
        }
      }
    }

    /** The span `execute` opens, as the tracer records it when sampled. */
    function OpenedSpan(spanId: string, traceId: string, now: int, parent: Option<string>): Monitoring.Span
      reads tracer
    {
      Monitoring.Span(spanId, now, None, SpanName,
        Monitoring.Stamp(map[], tracer.config)["traceId" := Str(traceId)], [], parent, None)
    }

    /**
     * The body of `execute` between opening and ending its span: validation
     * first (a failure or a throwing rule is the result, before the operation
     * or the cache is touched), then the retried operation, through
     * `getOrSet` when a cache key is set.
     */
    method Produce(sizeOf: Value -> nat, now: int) returns (result: Result<Value, Thrown>, ghost evicted: seq<string>)
      requires cacheManager.Valid()
      modifies operation, cacheManager.cache
      ensures cacheManager.Valid()
      // validation rejects: nothing runs, nothing is cached
      ensures Rejection().Some? ==>
        && result == Failure(Rejection().value)
        && operation.calls == old(operation.calls) && cacheManager.cache.Snapshot() == old(cacheManager.cache.Snapshot())
      // no cache: the retried operation decides
      ensures Rejection().None? && !UsesCache() ==>
        var run := Retried(retryOptions, operation.outcomeAt, old(operation.calls));
        && operation.calls == old(operation.calls) + run.calls
        && cacheManager.cache.Snapshot() == old(cacheManager.cache.Snapshot())
        && result == run.result
      // cache hit: the operation is skipped
      ensures Rejection().None? && UsesCache() && Hit(old(cacheManager.cache.entries), cacheKey.value, now) ==>
        && operation.calls == old(operation.calls)
        && result == Success(old(cacheManager.cache.entries)[cacheKey.value].value)
        && cacheManager.cache.Snapshot() == AfterGet(old(cacheManager.cache.Snapshot()), cacheKey.value, now)
      // cache miss: the retried operation populates the cache
      ensures Rejection().None? && UsesCache() && !Hit(old(cacheManager.cache.entries), cacheKey.value, now) ==>
        var run := Retried(retryOptions, operation.outcomeAt, old(operation.calls));
        var options := cacheOptions.GetOr(NoOptions);
        var read := AfterGet(old(cacheManager.cache.Snapshot()), cacheKey.value, now);
        && operation.calls == old(operation.calls) + run.calls
        && (run.result.Failure? ==> result == run.result && cacheManager.cache.Snapshot() == read)
        && (run.result.Success? && sizeOf(run.result.value) > options.maxSize.GetOr(cacheManager.cache.settings.maxSize) ==>
              result == Failure(Error(CacheError(SizeLimitMessage, SetFailed, cacheKey.value))) && cacheManager.cache.Snapshot() == read)
        && (run.result.Success? && sizeOf(run.result.value) <= options.maxSize.GetOr(cacheManager.cache.settings.maxSize) ==>
              && result == run.result
              && RankedPrefix(evicted, read.order, read.entries, now)
              && cacheManager.cache.Snapshot() ==
                 AfterSet(read, cacheKey.value, NewEntry(run.result.value, sizeOf(run.result.value), options, now, cacheManager.cache.settings), evicted))
    {
      evicted := [];
      var rejection := CheckRules();
      if rejection.Some? {
        result := Failure(rejection.value);
      } else if UsesCache() {
        result, evicted := ExecuteWithCache(sizeOf, now);
      } else {
        var delays;
        result, delays := ExecuteWithRetry(operation, retryOptions);
      }
    }

    /**
     * `execute`: `Produce` inside the executor's own span, settled into an envelope, so it
     * never rejects; that span is opened before and ended after on every path
     * (the spans the cache opens in the same tracer are not modelled).
     * `now` is the clock when the span opens and the cache is used; `endTime`
     * the clock read once the result is in, which stamps the envelope and
     * ends the span.
     */
    method Execute(sampled: bool, spanId: string, traceId: string, now: int, endTime: int, sizeOf: Value -> nat)
      returns (r: Envelope, ghost result: Result<Value, Thrown>, ghost evicted: seq<string>)
      requires cacheManager.Valid() && tracer.Valid() && spanId != ""
      modifies operation, cacheManager.cache, tracer
      ensures cacheManager.Valid() && tracer.Valid()
      ensures r == Settle(result, if sampled then spanId else "", endTime)
      ensures Rejection().Some? ==>
        && result == Failure(Rejection().value)
        && operation.calls == old(operation.calls) && cacheManager.cache.Snapshot() == old(cacheManager.cache.Snapshot())
      ensures Rejection().None? && !UsesCache() ==>
        var run := Retried(retryOptions, operation.outcomeAt, old(operation.calls));
        && operation.calls == old(operation.calls) + run.calls
        && cacheManager.cache.Snapshot() == old(cacheManager.cache.Snapshot())
        && result == run.result
      ensures Rejection().None? && UsesCache() && Hit(old(cacheManager.cache.entries), cacheKey.value, now) ==>
        && operation.calls == old(operation.calls)
        && result == Success(old(cacheManager.cache.entries)[cacheKey.value].value)
        && cacheManager.cache.Snapshot() == AfterGet(old(cacheManager.cache.Snapshot()), cacheKey.value, now)
      ensures Rejection().None? && UsesCache() && !Hit(old(cacheManager.cache.entries), cacheKey.value, now) ==>
        var run := Retried(retryOptions, operation.outcomeAt, old(operation.calls));
        var options := cacheOptions.GetOr(NoOptions);
        var read := AfterGet(old(cacheManager.cache.Snapshot()), cacheKey.value, now);
        && operation.calls == old(operation.calls) + run.calls
        && (run.result.Failure? ==> result == run.result && cacheManager.cache.Snapshot() == read)
        && (run.result.Success? && sizeOf(run.result.value) > options.maxSize.GetOr(cacheManager.cache.settings.maxSize) ==>
              result == Failure(Error(CacheError(SizeLimitMessage, SetFailed, cacheKey.value))) && cacheManager.cache.Snapshot() == read)
        && (run.result.Success? && sizeOf(run.result.value) <= options.maxSize.GetOr(cacheManager.cache.settings.maxSize) ==>
              && result == run.result
              && RankedPrefix(evicted, read.order, read.entries, now)
              && cacheManager.cache.Snapshot() ==
                 AfterSet(read, cacheKey.value, NewEntry(run.result.value, sizeOf(run.result.value), options, now, cacheManager.cache.settings), evicted))
      // the executor's own span is opened and ended; the cache's spans are not modelled
      ensures !sampled ==> tracer.spans == old(tracer.spans) && tracer.currentSpanId == old(tracer.currentSpanId)
      ensures sampled ==>
        && tracer.spans == old(tracer.spans)[spanId := Monitoring.Ended(OpenedSpan(spanId, traceId, now, old(tracer.currentSpanId)), map[], endTime)]
        && tracer.currentSpanId == Monitoring.ParentOf(OpenedSpan(spanId, traceId, now, old(tracer.currentSpanId)))
    {
      var id := tracer.StartSpan(SpanName, map[], sampled, spanId, traceId, now);
      var produced;
      produced, evicted := Produce(sizeOf, now);
      result := produced;
      tracer.EndSpan(id, map[], endTime);
      r := Settle(produced, id, endTime);
    }

    /** `executeWithCache`: `getOrSet` under the cache key, with the retry loop as its factory. */
    method ExecuteWithCache(sizeOf: Value -> nat, now: int) returns (r: Result<Value, Thrown>, ghost evicted: seq<string>)
      requires UsesCache() && cacheManager.Valid()
      modifies operation, cacheManager.cache
      ensures cacheManager.Valid()
      ensures Hit(old(cacheManager.cache.entries), cacheKey.value, now) ==>
        && r == Success(old(cacheManager.cache.entries)[cacheKey.value].value) && operation.calls == old(operation.calls)
        && cacheManager.cache.Snapshot() == AfterGet(old(cacheManager.cache.Snapshot()), cacheKey.value, now)
      ensures !Hit(old(cacheManager.cache.entries), cacheKey.value, now) ==>
        var run := Retried(retryOptions, operation.outcomeAt, old(operation.calls));
        var options := cacheOptions.GetOr(NoOptions);
        var read := AfterGet(old(cacheManager.cache.Snapshot()), cacheKey.value, now);
        && operation.calls == old(operation.calls) + run.calls
        && (run.result.Failure? ==> r == run.result && cacheManager.cache.Snapshot() == read)
        && (run.result.Success? && sizeOf(run.result.value) > options.maxSize.GetOr(cacheManager.cache.settings.maxSize) ==>
              r == Failure(Error(CacheError(SizeLimitMessage, SetFailed, cacheKey.value))) && cacheManager.cache.Snapshot() == read)
        && (run.result.Success? && sizeOf(run.result.value) <= options.maxSize.GetOr(cacheManager.cache.settings.maxSize) ==>
              && r == run.result
              && RankedPrefix(evicted, read.order, read.entries, now)
              && cacheManager.cache.Snapshot() ==
                 AfterSet(read, cacheKey.value, NewEntry(run.result.value, sizeOf(run.result.value), options, now, cacheManager.cache.settings), evicted))
    {
      evicted := [];
      var key := cacheKey.value;
      var cached := cacheManager.Lookup(key, now);
      if cached.Some? {
        return Success(cached.value), [];
      }
      var produced, _ := ExecuteWithRetry(operation, retryOptions);
      match produced {
        case Failure(_) =>
          r := produced;
        case Success(v) =>
          r, evicted := cacheManager.Fill(key, v, sizeOf(v), cacheOptions.GetOr(NoOptions), now);
      }
    }
  }

  /** The envelope a settled result becomes: data with metadata, or `null` data with the error. */
  function Settle(result: Result<Value, Thrown>, spanId: string, now: int): (r: Envelope)
    ensures result.Success? ==> r.data == result.value && r.error.None? && r.metadata == Some(Metadata(spanId, now))
    ensures result.Failure? ==> r.data == Null && r.error == Some(result.error) && r.metadata.None?
  {
    match result
    case Success(v) => Envelope(v, None, Some(Metadata(spanId, now)))
    case Failure(t) => Envelope(Null, Some(t), None)
  }

  /** Once the rules up to `n` throw, validation of all the rules throws the same error: later rules do not run. */
  lemma {:induction false} CollectedThrowsFirst(rules: seq<Rule>, n: nat)
    requires n <= |rules| && Collected(rules[..n]).Failure?
    ensures Collected(rules) == Collected(rules[..n])
    decreases |rules| - n
  {
    if n == |rules| {
      assert rules[..n] == rules;
    } else {
      assert rules[..n + 1][..n] == rules[..n];
      CollectedThrowsFirst(rules, n + 1);
    }
  }
}
