/**
 * The HTTP retry strategy (src/lib/http/retry.ts): a bounded attempt loop with
 * exponential backoff and a status-based retry classifier. The work is a
 * scripted `Operation`; the random jitter of each wait is an input, and the
 * waits themselves are returned instead of slept.
 */
module Retry {
  import opened Wrappers
  import opened JsValues
  import opened Errors
  import opened Operations

  const DefaultMaxAttempts: int := 3
  const DefaultBaseDelay: int := 1000
  const DefaultMaxDelay: int := 5000

  /** The constructor's configuration; an absent field (or one given as `undefined`) keeps its default. */
  datatype RetryConfig = RetryConfig(
    maxAttempts: Option<int>, baseDelay: Option<int>, maxDelay: Option<int>, shouldRetry: Option<Err -> bool>)

  datatype Policy = Policy(maxAttempts: int, baseDelay: int, maxDelay: int, shouldRetry: Err -> bool)

  /** `{ ...defaultConfig, ...config }` */
  function Configure(c: RetryConfig): Policy {
    Policy(
      c.maxAttempts.GetOr(DefaultMaxAttempts),
      c.baseDelay.GetOr(DefaultBaseDelay),
      c.maxDelay.GetOr(DefaultMaxDelay),
      c.shouldRetry.GetOr(DefaultShouldRetry))
  }

  /**
   * `defaultShouldRetry`: a library error is retried when it has no response,
   * a 5xx status, or status 408 or 429 (401, 403, 404 and the other 4xx are not);
   * any other error only when it is a `NetworkError`.
   */
  predicate DefaultShouldRetry(e: Err) {
    match e
    case AxiosError(_, response) =>
      if response.Some? && response.value.status != 0 then
        var status := response.value.status;
        if status == 404 || status == 401 || status == 403 then false
        else if 400 <= status < 500 then status == 408 || status == 429
        else status >= 500
      else
        response.None? || response.value.status >= 500
    case HttpError(kind, _, _) => kind == Network
    case _ => false
  }

  function Pow2(n: nat): (r: nat)
    ensures r >= 1
  {
    if n == 0 then 1 else 2 * Pow2(n - 1)
  }

  /** `base·2^n`, computed by doubling so that delays stay linear arithmetic. */
  function Exponential(base: int, n: nat): int {
    if n == 0 then base else 2 * Exponential(base, n - 1)
  }

  /** Doubling `n` times is multiplying by `2^n`. */
  lemma {:induction false} ExponentialIsProduct(base: int, n: nat)
    ensures Exponential(base, n) == base * Pow2(n)
  {
    if n > 0 {
      ExponentialIsProduct(base, n - 1);
      assert base * Pow2(n) == 2 * (base * Pow2(n - 1));
    }
  }

  function Min(a: real, b: real): real {
    if a <= b then a else b
  }

  /** One draw of `Math.random() * 100`. */
  type Jitter = j: real | 0.0 <= j < 100.0

  /** The backoff before the next attempt: `baseDelay·2^(attempt−1)` plus the jitter, capped at `maxDelay`. */
  function CalculateDelay(p: Policy, attempt: int, jitter: Jitter): real
    requires attempt >= 1
  {
    Min(Exponential(p.baseDelay, attempt - 1) as real + jitter, p.maxDelay as real)
  }

  /**
   * The delay never exceeds `maxDelay`, is at least `min(baseDelay·2^(attempt−1), maxDelay)`,
   * and below the cap it is exactly the exponential term plus the jitter.
   */
  lemma DelayBounds(p: Policy, attempt: int, jitter: Jitter)
    requires attempt >= 1
    ensures CalculateDelay(p, attempt, jitter) <= p.maxDelay as real
    ensures CalculateDelay(p, attempt, jitter) >= Min((p.baseDelay * Pow2(attempt - 1)) as real, p.maxDelay as real)
    ensures CalculateDelay(p, attempt, jitter) < p.maxDelay as real ==>
      CalculateDelay(p, attempt, jitter) == (p.baseDelay * Pow2(attempt - 1)) as real + jitter
  {
    ExponentialIsProduct(p.baseDelay, attempt - 1);
  }

  /** What one run of `execute` does: its settled result, how many times it ran the work, and the waits between runs. */
  datatype Trace = Trace(result: Result<Value, Thrown>, calls: nat, delays: seq<real>)

  /** `throw lastError!` with no attempt made throws `undefined`. */
  const NoAttempt: Thrown := NonError("undefined")

  /** The call of attempt `attempt` ends the run: it returned, its error is not retried, or it was the last attempt. */
  predicate Settles(p: Policy, o: Outcome, attempt: int) {
    o.Returned? || !p.shouldRetry(AsError(o.thrown)) || attempt == p.maxAttempts
  }

  /** What a call that ends the run makes `execute` settle with. */
  function SettledResult(o: Outcome): Result<Value, Thrown> {
    match o
    case Returned(v) => Success(v)
    case Threw(t) => Failure(Error(AsError(t)))
  }

  /**
   * The run of `execute` from attempt number `attempt` on, when the n-th
   * invocation of the work (counting from `start`) settles with `outcomeAt(n)`
   * and the i-th wait draws `jitter(i)`.
   */
  function Attempts(p: Policy, outcomeAt: nat -> Outcome, start: nat, jitter: nat -> Jitter, attempt: nat): Trace
    requires attempt >= 1
    decreases p.maxAttempts - attempt
  {
    if attempt > p.maxAttempts then Trace(Failure(NoAttempt), 0, [])
    else
      var o := outcomeAt(start + attempt - 1);
      if Settles(p, o, attempt) then Trace(SettledResult(o), 1, [])
      else
        var rest := Attempts(p, outcomeAt, start, jitter, attempt + 1);
        Trace(rest.result, rest.calls + 1, [CalculateDelay(p, attempt, jitter(attempt - 1))] + rest.delays)
  }

  /**
   * The loop state of `execute` before attempt `attempt`: the whole run
   * `whole` is the `attempt − 1` calls made so far, the waits `delays`
   * between them, and then the run from `attempt` on.
   */
  ghost predicate RunsOn(p: Policy, outcomeAt: nat -> Outcome, start: nat, jitter: nat -> Jitter,
                         whole: Trace, attempt: nat, delays: seq<real>)
    requires attempt >= 1
  {
    var rest := Attempts(p, outcomeAt, start, jitter, attempt);
    whole.result == rest.result && whole.calls == attempt - 1 + rest.calls && whole.delays == delays + rest.delays
  }

  /** A call that ends the run fixes its result, with no wait after it. */
  lemma RunSettles(p: Policy, outcomeAt: nat -> Outcome, start: nat, jitter: nat -> Jitter,
                   whole: Trace, attempt: nat, delays: seq<real>)
    requires 1 <= attempt <= p.maxAttempts && RunsOn(p, outcomeAt, start, jitter, whole, attempt, delays)
    requires Settles(p, outcomeAt(start + attempt - 1), attempt)
    ensures whole.result == SettledResult(outcomeAt(start + attempt - 1))
    ensures whole.calls == attempt && whole.delays == delays
  {
    assert delays + [] == delays;
  }

  /** With no attempt allowed, the run makes no call and throws `undefined`. */
  lemma RunExhausted(p: Policy, outcomeAt: nat -> Outcome, start: nat, jitter: nat -> Jitter,
                     whole: Trace, delays: seq<real>)
    requires p.maxAttempts < 1 && RunsOn(p, outcomeAt, start, jitter, whole, 1, delays) && delays == []
    ensures whole == Trace(Failure(NoAttempt), 0, [])
  {
  }

  /** A retried error adds its wait and moves on to the next attempt. */
  lemma RunContinues(p: Policy, outcomeAt: nat -> Outcome, start: nat, jitter: nat -> Jitter,
                     whole: Trace, attempt: nat, delays: seq<real>)
    requires 1 <= attempt <= p.maxAttempts && RunsOn(p, outcomeAt, start, jitter, whole, attempt, delays)
    requires !Settles(p, outcomeAt(start + attempt - 1), attempt)
    ensures RunsOn(p, outcomeAt, start, jitter, whole, attempt + 1, delays + [CalculateDelay(p, attempt, jitter(attempt - 1))])
  {
    var wait := CalculateDelay(p, attempt, jitter(attempt - 1));
    var next := Attempts(p, outcomeAt, start, jitter, attempt + 1);
    assert Attempts(p, outcomeAt, start, jitter, attempt) == Trace(next.result, next.calls + 1, [wait] + next.delays);
    assert delays + ([wait] + next.delays) == (delays + [wait]) + next.delays;
  }

  class RetryStrategy {
    const policy: Policy

    constructor (config: RetryConfig)
      ensures policy == Configure(config)
    {
      policy := Configure(config);
    }

    /**
     * One pass of the loop body of `execute`: runs the work once. A returned
     * value, an error the policy does not retry, or an error on the last
     * attempt settles the run with `r`; otherwise `r` holds the error and the
     * loop waits `wait` before the next attempt.
     */
    method TryOnce(op: Operation, jitter: nat -> Jitter, attempt: nat)
      returns (settled: bool, r: Result<Value, Thrown>, wait: real)
      requires 1 <= attempt <= policy.maxAttempts
      modifies op
      ensures op.calls == old(op.calls) + 1
      ensures settled == Settles(policy, op.outcomeAt(old(op.calls)), attempt)
      ensures r == SettledResult(op.outcomeAt(old(op.calls)))
      ensures !settled ==> wait == CalculateDelay(policy, attempt, jitter(attempt - 1))
    {
      var outcome := op.Invoke();
      match outcome {
        case Returned(v) =>
          return true, Success(v), 0.0;
        case Threw(t) =>
          var e := AsError(t);
          if !policy.shouldRetry(e) || attempt == policy.maxAttempts {
            return true, Failure(Error(e)), 0.0;
          }
          return false, Failure(Error(e)), CalculateDelay(policy, attempt, jitter(attempt - 1));
      }
    }

    /**
     * `execute`: runs the work until it succeeds, its error is not retryable,
     * or `maxAttempts` runs have failed, waiting between runs. Returns the
     * outcome and the waits; the work's run count advances by the trace's calls.
     */
    method Execute(op: Operation, jitter: nat -> Jitter) returns (r: Result<Value, Thrown>, delays: seq<real>)
      modifies op
      ensures var t := Attempts(policy, op.outcomeAt, old(op.calls), jitter, 1);
        r == t.result && delays == t.delays && op.calls == old(op.calls) + t.calls
    {
      ghost var start := op.calls;
      ghost var whole := Attempts(policy, op.outcomeAt, start, jitter, 1);
      var attempt := 1;
      var lastError := NoAttempt;
      delays := [];
      while attempt <= policy.maxAttempts
        invariant attempt >= 1 && (attempt == 1 || attempt <= policy.maxAttempts)
        invariant op.calls == start + attempt - 1
        invariant attempt == 1 ==> lastError == NoAttempt && delays == []
        invariant RunsOn(policy, op.outcomeAt, start, jitter, whole, attempt, delays)
        decreases policy.maxAttempts - attempt
      {
        ghost var o := op.outcomeAt(start + attempt - 1);
        var settled, result, wait := TryOnce(op, jitter, attempt);
        assert settled == Settles(policy, o, attempt);
        if settled {
          RunSettles(policy, op.outcomeAt, start, jitter, whole, attempt, delays);
          return result, delays;
        }
        RunContinues(policy, op.outcomeAt, start, jitter, whole, attempt, delays);
        lastError := result.error;
        delays := delays + [wait];
        attempt := attempt + 1;
      }
      RunExhausted(policy, op.outcomeAt, start, jitter, whole, delays);
      r := Failure(lastError);
    }
  }

  // ----- properties of a run -----

  /** With the default classifier, exactly: no response, a 5xx status, 408 or 429, or a `NetworkError`. */
  lemma DefaultShouldRetryClassifies(e: Err)
    ensures DefaultShouldRetry(e) <==>
      || (e.AxiosError? && (e.response.None? || e.response.value.status >= 500
                            || e.response.value.status == 408 || e.response.value.status == 429))
      || (e.HttpError? && e.kind == Network)
  {
  }

  /** The defaults apply to absent fields, and each field the caller supplies wins. */
  lemma ConfigureDefaults(c: RetryConfig)
    ensures Configure(c).maxAttempts == (if c.maxAttempts.Some? then c.maxAttempts.value else 3)
    ensures Configure(c).baseDelay == (if c.baseDelay.Some? then c.baseDelay.value else 1000)
    ensures Configure(c).maxDelay == (if c.maxDelay.Some? then c.maxDelay.value else 5000)
    ensures c.shouldRetry.None? ==> forall e :: Configure(c).shouldRetry(e) == DefaultShouldRetry(e)
  {
  }

  /**
   * A run makes at least one and at most `maxAttempts` calls when `maxAttempts`
   * is positive, none otherwise, and waits exactly once between consecutive calls.
   */
  lemma {:induction false} AttemptsBounds(p: Policy, outcomeAt: nat -> Outcome, start: nat, jitter: nat -> Jitter, attempt: nat)
    requires attempt >= 1
    ensures var t := Attempts(p, outcomeAt, start, jitter, attempt);
      && (attempt <= p.maxAttempts ==> 1 <= t.calls <= p.maxAttempts - attempt + 1 && |t.delays| == t.calls - 1)
      && (attempt > p.maxAttempts ==> t.calls == 0 && t.delays == [] && t.result == Failure(NoAttempt))
    decreases p.maxAttempts - attempt
  {
    if attempt <= p.maxAttempts && outcomeAt(start + attempt - 1).Threw? {
      var e := AsError(outcomeAt(start + attempt - 1).thrown);
      if p.shouldRetry(e) && attempt != p.maxAttempts {
        AttemptsBounds(p, outcomeAt, start, jitter, attempt + 1);
      }
    }
  }

  /** The uncapped-jitter floor of the wait after attempt `attempt`: `baseDelay·2^(attempt−1)`, capped at `maxDelay`. */
  function Backoff(p: Policy, attempt: nat): real
    requires attempt >= 1
  {
    Min(Exponential(p.baseDelay, attempt - 1) as real, p.maxDelay as real)
  }

  /** A run from `attempt` that waits at all waits first after this attempt and then as the run from the next one. */
  lemma AttemptsWaited(p: Policy, outcomeAt: nat -> Outcome, start: nat, jitter: nat -> Jitter, attempt: nat)
    requires attempt >= 1
    requires |Attempts(p, outcomeAt, start, jitter, attempt).delays| > 0
    ensures Attempts(p, outcomeAt, start, jitter, attempt).delays ==
      [CalculateDelay(p, attempt, jitter(attempt - 1))] + Attempts(p, outcomeAt, start, jitter, attempt + 1).delays
  {
  }

  /** One wait lies between the capped exponential backoff for its attempt and `maxDelay`. */
  lemma WaitBounded(p: Policy, attempt: int, jitter: Jitter)
    requires attempt >= 1
    ensures Backoff(p, attempt) <= CalculateDelay(p, attempt, jitter) <= p.maxDelay as real
  {
  }

  /** The i-th wait of a run from `attempt` is the delay computed after attempt `attempt + i`. */
  lemma {:induction false} AttemptsDelayAt(p: Policy, outcomeAt: nat -> Outcome, start: nat, jitter: nat -> Jitter, attempt: nat, i: nat)
    requires attempt >= 1
    requires i < |Attempts(p, outcomeAt, start, jitter, attempt).delays|
    ensures Attempts(p, outcomeAt, start, jitter, attempt).delays[i] == CalculateDelay(p, attempt + i, jitter(attempt + i - 1))
    decreases i
  {
    var d := Attempts(p, outcomeAt, start, jitter, attempt).delays;
    var rest := Attempts(p, outcomeAt, start, jitter, attempt + 1).delays;
    AttemptsWaited(p, outcomeAt, start, jitter, attempt);
    if i == 0 {
      assert d[0] == CalculateDelay(p, attempt, jitter(attempt - 1));
    } else {
      AttemptsDelayAt(p, outcomeAt, start, jitter, attempt + 1, i - 1);
      assert d[i] == rest[i - 1];
    }
  }

  /** The i-th wait of a run lies between the capped exponential backoff for its attempt and `maxDelay`. */
  lemma AttemptsDelayBounded(p: Policy, outcomeAt: nat -> Outcome, start: nat, jitter: nat -> Jitter, attempt: nat, i: nat)
    requires attempt >= 1
    requires i < |Attempts(p, outcomeAt, start, jitter, attempt).delays|
    ensures Backoff(p, attempt + i) <= Attempts(p, outcomeAt, start, jitter, attempt).delays[i] <= p.maxDelay as real
  {
    AttemptsDelayAt(p, outcomeAt, start, jitter, attempt, i);
    WaitBounded(p, attempt + i, jitter(attempt + i - 1));
  }

  /** The n-th invocation threw an error the policy retries. */
  predicate RetriedAt(p: Policy, outcomeAt: nat -> Outcome, n: nat) {
    outcomeAt(n).Threw? && p.shouldRetry(AsError(outcomeAt(n).thrown))
  }

  /**
   * How a run ends: a success returns the value of the last call; a failure
   * rethrows the (wrapped) error of the last call, which was either not
   * retryable or the `maxAttempts`-th; every earlier call threw a retryable error.
   */
  lemma {:induction false} AttemptsOutcome(p: Policy, outcomeAt: nat -> Outcome, start: nat, jitter: nat -> Jitter, attempt: nat)
    requires 1 <= attempt <= p.maxAttempts
    ensures var t := Attempts(p, outcomeAt, start, jitter, attempt);
      var last := outcomeAt(start + attempt - 1 + t.calls - 1);
      && t.calls >= 1
      && (t.result.Success? <==> last.Returned?)
      && (t.result.Success? ==> t.result.value == last.value)
      && (t.result.Failure? ==> t.result.error == Error(AsError(last.thrown))
                                && (!p.shouldRetry(AsError(last.thrown)) || attempt - 1 + t.calls == p.maxAttempts))
      && (forall n :: start + attempt - 1 <= n < start + attempt - 1 + t.calls - 1 ==> RetriedAt(p, outcomeAt, n))
    decreases p.maxAttempts - attempt
  {
    var t := Attempts(p, outcomeAt, start, jitter, attempt);
    if outcomeAt(start + attempt - 1).Threw? {
      var e := AsError(outcomeAt(start + attempt - 1).thrown);
      if p.shouldRetry(e) && attempt != p.maxAttempts {
        AttemptsOutcome(p, outcomeAt, start, jitter, attempt + 1);
        var rest := Attempts(p, outcomeAt, start, jitter, attempt + 1);
        assert t == Trace(rest.result, rest.calls + 1, [CalculateDelay(p, attempt, jitter(attempt - 1))] + rest.delays);
        assert RetriedAt(p, outcomeAt, start + attempt - 1);
      }
    }
  }

  /** A first error the classifier rejects is rethrown at once: one call, no wait. */
  lemma NotRetryableStops(p: Policy, outcomeAt: nat -> Outcome, start: nat, jitter: nat -> Jitter)
    requires p.maxAttempts >= 1
    requires outcomeAt(start).Threw? && !p.shouldRetry(AsError(outcomeAt(start).thrown))
    ensures Attempts(p, outcomeAt, start, jitter, 1) == Trace(Failure(Error(AsError(outcomeAt(start).thrown))), 1, [])
  {
  }

  /** A thrown non-`Error` value is rethrown as `new Error(String(value))`. */
  lemma NonErrorWrapped(p: Policy, outcomeAt: nat -> Outcome, start: nat, jitter: nat -> Jitter, text: string)
    requires p.maxAttempts == 1
    requires outcomeAt(start) == Threw(NonError(text))
    ensures Attempts(p, outcomeAt, start, jitter, 1).result == Failure(Error(PlainError(text)))
  {
  }

  /**
   * With the defaults, two server errors followed by a success take three
   * calls and two waits of 1000–1100 and 2000–2100 milliseconds.
   */
  lemma DefaultsRecoverOnThirdCall(outcomeAt: nat -> Outcome, jitter: nat -> Jitter, v: Value)
    requires outcomeAt(0) == Threw(Error(AxiosError("Request failed", Some(Response(503, Null)))))
    requires outcomeAt(1) == Threw(Error(AxiosError("Request failed", Some(Response(500, Null)))))
    requires outcomeAt(2) == Returned(v)
    ensures var t := Attempts(Configure(RetryConfig(None, None, None, None)), outcomeAt, 0, jitter, 1);
      && t.result == Success(v) && t.calls == 3 && |t.delays| == 2
      && 1000.0 <= t.delays[0] < 1100.0 && 2000.0 <= t.delays[1] < 2100.0
  {
    var p := Configure(RetryConfig(None, None, None, None));
    assert Exponential(1000, 1) == 2000;
    var t3 := Attempts(p, outcomeAt, 0, jitter, 3);
    assert t3 == Trace(Success(v), 1, []);
    var t2 := Attempts(p, outcomeAt, 0, jitter, 2);
    assert t2.delays == [CalculateDelay(p, 2, jitter(1))];
  }
}
