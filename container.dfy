/**
 * The dependency-injection container (src/lib/core/di/container.ts):
 * registrations by token, a singleton cache and the set of tokens whose
 * factories are running, with cycle detection. A factory is an abstract step:
 * it resolves a list of tokens through the container, in order, and then
 * yields a fresh instance (or `undefined`).
 */
module DI {
  import opened Wrappers
  import opened Errors
  import opened Seqs
  import opened Text

  /** The constructor's options; an absent field (or one given as `undefined`) keeps its default. */
  datatype ContainerOptions = ContainerOptions(strict: Option<bool>, autoCreate: Option<bool>, maxDepth: Option<int>)

  datatype Settings = Settings(strict: bool, autoCreate: bool, maxDepth: int)

  /** `{ strict: true, autoCreate: false, maxDepth: 10, ...options }` */
  function Configure(o: ContainerOptions): (s: Settings)
    ensures s.strict == (o.strict.None? || o.strict.value)
    ensures s.autoCreate == (o.autoCreate.Some? && o.autoCreate.value)
    ensures s.maxDepth == (if o.maxDepth.Some? then o.maxDepth.value else 10)
  {
    Settings(o.strict.GetOr(true), o.autoCreate.GetOr(false), o.maxDepth.GetOr(10))
  }

  /** A factory: the tokens it resolves, in order, and whether it then returns `undefined` instead of a new object. */
  datatype Factory = Factory(deps: seq<string>, yieldsUndefined: bool)

  datatype RegisterOptions = RegisterOptions(singleton: Option<bool>, lazy: Option<bool>, dependencies: Option<seq<string>>)

  datatype Definition = Definition(factory: Factory, singleton: bool, lazy: bool, dependencies: Option<seq<string>>)

  /** What a resolution yields: `undefined`, or an object, identified by its creation serial number. */
  datatype Instance = Undefined | Object(serial: nat)

  /**
   * The recursion depth at which the engine gives up with a RangeError. A
   * re-entrant resolution in non-strict mode re-runs the factory and can
   * recurse without end; this bound turns that into an error.
   */
  const StackLimit: nat := 10000

  /** The message each container error carries. */
  function Message(e: Err): string
  {
    match e
    case ServiceNotFound(token) => "No provider registered for '" + token + "'"
    case CircularDependency(tokens) => "Circular dependency detected: " + JoinWith(tokens, " -> ")
    case DepthExceeded(maxDepth, _, _) => "Maximum dependency depth of " + IntToString(maxDepth) + " exceeded"
    case CallStackExceeded => "Maximum call stack size exceeded"
    case PlainError(message) => message
    case _ => ""
  }

  /** The chain a strict re-entrant `get` reports names only the token itself. */
  lemma CycleMessage(token: string)
    ensures Message(CircularDependency([token])) == "Circular dependency detected: " + token
  {
  }

  /**
   * The depth error. Every resolution starts from `get` with no parents, so
   * it is raised exactly when `maxDepth` is not positive.
   */
  predicate DepthFailure(r: Result<Instance, Err>) {
    r.Failure? && r.error.DepthExceeded?
  }

  /** How `initializeAll` saw one registered token: `None` when it skipped a lazy token, else what `get` gave. */
  type Outcome = Option<Result<Instance, Err>>

  predicate Failed(o: Outcome) {
    o.Some? && o.value.Failure?
  }

  /**
   * The error `Promise.all` rejects with. Every `get` runs (and throws)
   * before the first rejection is observed, and the rejections are seen in
   * array order: the error of the first token, in registration order, whose
   * `get` threw.
   */
  function FirstFailure(outcomes: seq<Outcome>): (r: Option<Err>)
    ensures r.None? <==> forall i :: 0 <= i < |outcomes| ==> !Failed(outcomes[i])
    ensures r.Some? ==>
      exists i :: 0 <= i < |outcomes| && outcomes[i] == Some(Failure(r.value))
                  && forall j :: 0 <= j < i ==> !Failed(outcomes[j])
  {
    if |outcomes| == 0 then None
    else
      var earlier := FirstFailure(outcomes[..|outcomes| - 1]);
      if earlier.Some? then earlier
      else if Failed(outcomes[|outcomes| - 1]) then Some(outcomes[|outcomes| - 1].value.error)
      else None
  }

  /** `resolveSingleton` finds an instance: an entry other than `undefined`. */
  predicate Cached(singletons: map<string, Instance>, token: string) {
    token in singletons && singletons[token] != Undefined
  }

  /**
   * How the singleton cache may change during a resolution: only tokens
   * registered as singletons gain or change entries; in strict mode, besides,
   * an instance once cached is never replaced and the entries of the tokens
   * in `pinned` (those already being resolved) are not touched.
   */
  ghost predicate CacheKept(before: map<string, Instance>, after: map<string, Instance>,
                            services: map<string, Definition>, strict: bool, pinned: set<string>) {
    && (forall t :: t in after && (t !in before || after[t] != before[t]) ==> t in services && services[t].singleton)
    && (strict ==> forall t :: Cached(before, t) ==> t in after && after[t] == before[t])
    && (strict ==> forall t :: t in pinned ==> (t in after <==> t in before) && (t in after ==> after[t] == before[t]))
  }

  lemma CacheKeptTrans(a: map<string, Instance>, b: map<string, Instance>, c: map<string, Instance>,
                       services: map<string, Definition>, strict: bool, pinned: set<string>, inner: set<string>)
    requires strict ==> pinned <= inner
    requires CacheKept(a, b, services, strict, pinned) && CacheKept(b, c, services, strict, inner)
    ensures CacheKept(a, c, services, strict, pinned)
  {
    forall t | t in c && (t !in a || c[t] != a[t])
      ensures t in services && services[t].singleton
    {
      if t in b && c[t] == b[t] {
        assert t !in a || b[t] != a[t];
      }
    }
  }

  lemma CacheKeptWeaken(a: map<string, Instance>, b: map<string, Instance>,
                        services: map<string, Definition>, strict: bool, pinned: set<string>, inner: set<string>)
    requires strict ==> pinned <= inner
    requires CacheKept(a, b, services, strict, inner)
    ensures CacheKept(a, b, services, strict, pinned)
  {
  }

  /** Storing a new instance for a singleton token that is neither cached nor pinned. */
  lemma CacheStore(before: map<string, Instance>, services: map<string, Definition>, strict: bool, pinned: set<string>,
                   token: string, instance: Instance)
    requires token in services && services[token].singleton
    requires strict ==> token !in pinned && !Cached(before, token)
    ensures CacheKept(before, before[token := instance], services, strict, pinned)
  {
  }

  /** The part of the container a resolution changes: the resolving set, the singleton cache and the object count. */
  datatype State = State(resolving: set<string>, singletons: map<string, Instance>, created: nat)

  /**
   * The record of one `resolve`: its token, the state before and after, what
   * it returned or threw, and the records of the dependencies the token's
   * factory resolved (none when no factory ran).
   */
  datatype Trace = Trace(token: string, before: State, result: Result<Instance, Err>, after: State, deps: seq<Trace>)

  /** The state a factory runs in: its token marked as resolving. */
  function Enter(s: State, token: string): State {
    s.(resolving := s.resolving + {token})
  }

  /** Where a chain of resolutions started at `start` ends. */
  function Reached(start: State, traces: seq<Trace>): State {
    if |traces| == 0 then start else traces[|traces| - 1].after
  }

  /** What a chain of resolutions throws: the error of its last one, when that failed. */
  function Raised(traces: seq<Trace>): Option<Err> {
    if |traces| > 0 && traces[|traces| - 1].result.Failure? then Some(traces[|traces| - 1].result.error) else None
  }

  /**
   * `traces` resolve the first tokens of `tokens` one after another, from
   * `start`, each in the state the previous one left; all but the last succeeded.
   */
  ghost predicate Chained(start: State, tokens: seq<string>, traces: seq<Trace>) {
    && |traces| <= |tokens|
    && (forall j :: 0 <= j < |traces| ==> traces[j].token == tokens[j])
    && (|traces| > 0 ==> traces[0].before == start)
    && (forall j :: 0 < j < |traces| ==> traces[j].before == traces[j - 1].after)
    && (forall j :: 0 <= j < |traces| - 1 ==> traces[j].result.Success?)
  }

  /** A factory body: `tokens` resolved in order, stopping exactly at the first failure. */
  ghost predicate Linked(start: State, tokens: seq<string>, traces: seq<Trace>) {
    Chained(start, tokens, traces) && (|traces| < |tokens| ==> Raised(traces).Some?)
  }

  lemma LinkStep(start: State, tokens: seq<string>, traces: seq<Trace>, t: Trace)
    requires Chained(start, tokens, traces) && Raised(traces).None? && |traces| < |tokens|
    requires t.token == tokens[|traces|] && t.before == Reached(start, traces)
    ensures Chained(start, tokens, traces + [t])
  {
    var next := traces + [t];
    forall j | 0 <= j < |next| - 1
      ensures next[j].result.Success?
    {
      assert next[j] == traces[j];
    }
  }

  /** A resolution that returns or throws at once: no factory runs and nothing changes. */
  predicate Answered(t: Trace, result: Result<Instance, Err>) {
    t.result == result && t.after == t.before && t.deps == []
  }

  /**
   * `resolve` of `t.token` from `t.before` with `fuel` call-stack depth, case
   * by case: the re-entrant cases, the depth error, the unregistered token,
   * the cached singleton, and otherwise `createInstance`.
   */
  ghost predicate Follows(svc: map<string, Definition>, settings: Settings, t: Trace, fuel: nat)
    decreases t, 2
  {
    var s := t.before;
    if t.token in s.resolving then
      if settings.strict then Answered(t, Failure(CircularDependency([t.token])))
      else if Cached(s.singletons, t.token) then Answered(t, Success(s.singletons[t.token]))
      else Created(svc, settings, t, fuel)
    else if settings.maxDepth <= 0 then Answered(t, Failure(DepthExceeded(settings.maxDepth, t.token, 0)))
    else if t.token !in svc then
      if !settings.autoCreate then Answered(t, Failure(ServiceNotFound(t.token)))
      else t.result == Success(Object(s.created)) && t.after == s.(created := s.created + 1) && t.deps == []
    else if svc[t.token].singleton && Cached(s.singletons, t.token) then Answered(t, Success(s.singletons[t.token]))
    else Created(svc, settings, t, fuel)
  }

  /** `createInstance` of `t.token`: the not-found error, the engine's stack error, or a factory run. */
  ghost predicate Created(svc: map<string, Definition>, settings: Settings, t: Trace, fuel: nat)
    decreases t, 1
  {
    if t.token !in svc then Answered(t, Failure(ServiceNotFound(t.token)))
    else if fuel == 0 then Answered(t, Failure(CallStackExceeded))
    else Ran(svc, settings, t, fuel)
  }

  /**
   * A factory run: with the token marked, its dependencies are resolved in
   * turn until one throws; then it throws that error or yields its instance,
   * and the token is unmarked.
   */
  ghost predicate Ran(svc: map<string, Definition>, settings: Settings, t: Trace, fuel: nat)
    requires t.token in svc && fuel > 0
    decreases t, 0
  {
    && Linked(Enter(t.before, t.token), svc[t.token].factory.deps, t.deps)
    && (forall j :: 0 <= j < |t.deps| ==> Follows(svc, settings, t.deps[j], fuel - 1))
    && Settled(svc[t.token], t.token, Reached(Enter(t.before, t.token), t.deps), Raised(t.deps), t.result, t.after)
  }

  /**
   * The end of a factory run from state `mid`: it throws `failure`, or
   * yields `undefined` or the next object (cached for a singleton); either
   * way the token is unmarked.
   */
  predicate Settled(def: Definition, token: string, mid: State, failure: Option<Err>,
                    result: Result<Instance, Err>, after: State) {
    if failure.Some? then
      result == Failure(failure.value) && after == mid.(resolving := mid.resolving - {token})
    else
      var instance := if def.factory.yieldsUndefined then Undefined else Object(mid.created);
      && result == Success(instance)
      && after == State(mid.resolving - {token},
                        if def.singleton then mid.singletons[token := instance] else mid.singletons,
                        if def.factory.yieldsUndefined then mid.created else mid.created + 1)
  }

  /** A factory run is recorded by its dependencies' records and how it settled. */
  lemma RanIntro(svc: map<string, Definition>, settings: Settings, t: Trace, fuel: nat)
    requires t.token in svc && fuel > 0
    requires Linked(Enter(t.before, t.token), svc[t.token].factory.deps, t.deps)
    requires AllFollow(svc, settings, t.deps, fuel - 1)
    requires Settled(svc[t.token], t.token, Reached(Enter(t.before, t.token), t.deps), Raised(t.deps), t.result, t.after)
    ensures Ran(svc, settings, t, fuel)
  {
  }

  /** Every trace of `traces` follows `resolve`. */
  ghost predicate AllFollow(svc: map<string, Definition>, settings: Settings, traces: seq<Trace>, fuel: nat) {
    forall j :: 0 <= j < |traces| ==> Follows(svc, settings, traces[j], fuel)
  }

  /** Whether `resolve` of `token` from `s`, with `fuel` left, runs the token's factory. */
  predicate RunsFactory(svc: map<string, Definition>, settings: Settings, token: string, s: State, fuel: nat) {
    && token in svc && fuel > 0
    && if token in s.resolving then !settings.strict && !Cached(s.singletons, token)
       else settings.maxDepth > 0 && !(svc[token].singleton && Cached(s.singletons, token))
  }

  /** Where a factory run ends up when `resolve` runs one, and otherwise that no dependency is resolved. */
  lemma FollowsCases(svc: map<string, Definition>, settings: Settings, t: Trace, fuel: nat)
    requires Follows(svc, settings, t, fuel)
    ensures RunsFactory(svc, settings, t.token, t.before, fuel) ==> Ran(svc, settings, t, fuel)
    ensures !RunsFactory(svc, settings, t.token, t.before, fuel) ==> t.deps == []
  {
  }

  /** The state before the `k`-th dependency of a chain is where the first `k` left it. */
  lemma ChainedBefore(start: State, tokens: seq<string>, traces: seq<Trace>, k: nat)
    requires Chained(start, tokens, traces) && k < |traces|
    ensures traces[k].before == Reached(start, traces[..k])
  {
    if k > 0 {
      assert traces[..k][k - 1] == traces[k - 1];
    }
  }

  /**
   * `resolve` is a function of the token, the state and the depth left: two
   * records of it from the same start agree on the result, the final state
   * and every dependency resolved.
   */
  lemma {:induction false} FollowsDeterministic(svc: map<string, Definition>, settings: Settings, t1: Trace, t2: Trace, fuel: nat)
    requires Follows(svc, settings, t1, fuel) && Follows(svc, settings, t2, fuel)
    requires t1.token == t2.token && t1.before == t2.before
    ensures t1 == t2
    decreases t1, 1
  {
    FollowsCases(svc, settings, t1, fuel);
    FollowsCases(svc, settings, t2, fuel);
    if RunsFactory(svc, settings, t1.token, t1.before, fuel) {
      RanDeterministic(svc, settings, t1, t2, fuel);
    }
  }

  /** Two runs of the same factory from the same state resolve the same dependencies with the same records. */
  lemma {:induction false} RanDeterministic(svc: map<string, Definition>, settings: Settings, t1: Trace, t2: Trace, fuel: nat)
    requires t1.token == t2.token && t1.before == t2.before
    requires t1.token in svc && fuel > 0 && Ran(svc, settings, t1, fuel) && Ran(svc, settings, t2, fuel)
    ensures t1.deps == t2.deps
    decreases t1, 0
  {
    var d1, d2 := t1.deps, t2.deps;
    var start := Enter(t1.before, t1.token);
    var tokens := svc[t1.token].factory.deps;
    assert Linked(start, tokens, d1) && Linked(start, tokens, d2);
    assert AllFollow(svc, settings, d1, fuel - 1) && AllFollow(svc, settings, d2, fuel - 1);
    var k := 0;
    while k < |d1| && k < |d2|
      invariant k <= |d1| && k <= |d2| && d1[..k] == d2[..k]
    {
      ChainedBefore(start, tokens, d1, k);
      ChainedBefore(start, tokens, d2, k);
      FollowsDeterministic(svc, settings, d1[k], d2[k], fuel - 1);
      assert d1[..k + 1] == d1[..k] + [d1[k]] && d2[..k + 1] == d2[..k] + [d2[k]];
      k := k + 1;
    }
    assert d1 == d1[..k] && d2 == d2[..k];
  }

  /** A resolution never lowers the object count: an object it creates is a new one. */
  lemma {:induction false} FollowsCreates(svc: map<string, Definition>, settings: Settings, t: Trace, fuel: nat)
    requires Follows(svc, settings, t, fuel)
    ensures t.after.created >= t.before.created
    decreases t
  {
    FollowsCases(svc, settings, t, fuel);
    if RunsFactory(svc, settings, t.token, t.before, fuel) {
      var d := t.deps;
      var start := Enter(t.before, t.token);
      var k := 0;
      while k < |d|
        invariant k <= |d| && Reached(start, d[..k]).created >= start.created
      {
        ChainedBefore(start, svc[t.token].factory.deps, d, k);
        FollowsCreates(svc, settings, d[k], fuel - 1);
        assert d[..k + 1][k] == d[k];
        k := k + 1;
      }
      assert d[..k] == d;
    }
  }

  /**
   * The result of a factory run: the factory resolves its dependencies in
   * order and throws the error of the first one that fails, so it fails
   * exactly when some dependency failed; otherwise every dependency was
   * resolved and it returns `undefined` or an object created after all of them.
   */
  lemma FactoryResult(svc: map<string, Definition>, settings: Settings, t: Trace, fuel: nat)
    requires Follows(svc, settings, t, fuel) && RunsFactory(svc, settings, t.token, t.before, fuel)
    ensures Linked(Enter(t.before, t.token), svc[t.token].factory.deps, t.deps)
    ensures t.result.Failure? <==> exists j :: 0 <= j < |t.deps| && t.deps[j].result.Failure?
    ensures t.result.Failure? ==> t.result == t.deps[|t.deps| - 1].result
    ensures t.result.Success? ==> |t.deps| == |svc[t.token].factory.deps|
    ensures t.result.Success? && svc[t.token].factory.yieldsUndefined ==> t.result == Success(Undefined)
    ensures t.result.Success? && !svc[t.token].factory.yieldsUndefined ==>
      t.after.created > t.before.created && t.result == Success(Object(t.after.created - 1))
  {
    FollowsCases(svc, settings, t, fuel);
    var start := Enter(t.before, t.token);
    var d := t.deps;
    if |d| > 0 {
      FollowsCreates(svc, settings, d[|d| - 1], fuel - 1);
      ChainedBefore(start, svc[t.token].factory.deps, d, |d| - 1);
      var k := 0;
      while k < |d| - 1
        invariant k <= |d| - 1 && Reached(start, d[..k]).created >= start.created
      {
        ChainedBefore(start, svc[t.token].factory.deps, d, k);
        FollowsCreates(svc, settings, d[k], fuel - 1);
        assert d[..k + 1][k] == d[k];
        k := k + 1;
      }
    }
  }

  /** A factory without dependencies, not cached and not being resolved, returns the next object. */
  lemma LeafFactory(svc: map<string, Definition>, settings: Settings, t: Trace, fuel: nat)
    requires Follows(svc, settings, t, fuel) && fuel > 0 && settings.maxDepth > 0
    requires t.token in svc && svc[t.token].factory == Factory([], false)
    requires t.token !in t.before.resolving && !Cached(t.before.singletons, t.token)
    ensures t.result == Success(Object(t.before.created)) && t.after.created == t.before.created + 1
  {
    FollowsCases(svc, settings, t, fuel);
  }

  /** A factory whose first dependency is not registered throws the not-found error for that dependency. */
  lemma MissingDependency(svc: map<string, Definition>, settings: Settings, t: Trace, fuel: nat)
    requires Follows(svc, settings, t, fuel) && fuel > 0 && settings.maxDepth > 0 && !settings.autoCreate
    requires t.token in svc && !(svc[t.token].singleton && Cached(t.before.singletons, t.token))
    requires t.token !in t.before.resolving && t.before.resolving <= svc.Keys
    requires |svc[t.token].factory.deps| > 0 && svc[t.token].factory.deps[0] !in svc
    ensures t.result == Failure(ServiceNotFound(svc[t.token].factory.deps[0]))
  {
    FollowsCases(svc, settings, t, fuel);
    var d := t.deps;
    assert |d| > 0 && d[0].token !in d[0].before.resolving;
  }

  /** Whether `initializeAll` resolves the token: it is registered and not lazy. */
  predicate Eager(services: map<string, Definition>, token: string) {
    token in services && !services[token].lazy
  }

  /** An eager singleton whose factory yields an object: one a clean `initializeAll` should leave cached. */
  predicate Preloaded(services: map<string, Definition>, token: string) {
    Eager(services, token) && services[token].singleton && !services[token].factory.yieldsUndefined
  }

  /**
   * What `initializeAll` reports for one registered token: nothing exactly
   * when it is lazy; for an eager token not already being resolved, the
   * depth error when `maxDepth` is not positive; never a depth error when it is.
   */
  predicate Report(services: map<string, Definition>, token: string, pinned: set<string>, maxDepth: int, outcome: Outcome)
    requires token in services
  {
    && (outcome.None? <==> services[token].lazy)
    && (maxDepth <= 0 && Eager(services, token) && token !in pinned ==>
          outcome == Some(Failure(DepthExceeded(maxDepth, token, 0))))
    && (maxDepth > 0 && outcome.Some? ==> !DepthFailure(outcome.value))
  }

  /** `Report` holds for every token of `tokens` that has an outcome. */
  ghost predicate Reports(services: map<string, Definition>, tokens: seq<string>, pinned: set<string>, maxDepth: int,
                          outcomes: seq<Outcome>) {
    && |outcomes| <= |tokens|
    && (forall j :: 0 <= j < |outcomes| ==> tokens[j] in services)
    && (forall j :: 0 <= j < |outcomes| ==> Report(services, tokens[j], pinned, maxDepth, outcomes[j]))
  }

  lemma ReportsStep(services: map<string, Definition>, tokens: seq<string>, pinned: set<string>, maxDepth: int,
                    outcomes: seq<Outcome>, outcome: Outcome)
    requires Reports(services, tokens, pinned, maxDepth, outcomes) && |outcomes| < |tokens|
    requires tokens[|outcomes|] in services && Report(services, tokens[|outcomes|], pinned, maxDepth, outcome)
    ensures Reports(services, tokens, pinned, maxDepth, outcomes + [outcome])
  {
    var next := outcomes + [outcome];
    forall j | 0 <= j < |next|
      ensures tokens[j] in services && Report(services, tokens[j], pinned, maxDepth, next[j])
    {
      if j < |outcomes| {
        assert next[j] == outcomes[j];
      }
    }
  }

  /** One more outcome changes the first failure only when there was none yet. */
  lemma FirstFailureStep(outcomes: seq<Outcome>, outcome: Outcome)
    ensures FirstFailure(outcomes + [outcome]) ==
      if FirstFailure(outcomes).Some? then FirstFailure(outcomes)
      else if Failed(outcome) then Some(outcome.value.error) else None
  {
    assert (outcomes + [outcome])[..|outcomes|] == outcomes;
  }

  /**
   * Every preloaded token among the first `n` of `tokens`, other than those
   * already being resolved, is cached.
   */
  ghost predicate Warm(services: map<string, Definition>, tokens: seq<string>, n: nat, pinned: set<string>,
                       singletons: map<string, Instance>)
    requires n <= |tokens|
  {
    forall j :: 0 <= j < n && Preloaded(services, tokens[j]) && tokens[j] !in pinned ==> Cached(singletons, tokens[j])
  }

  lemma WarmStep(services: map<string, Definition>, tokens: seq<string>, n: nat, pinned: set<string>,
                 before: map<string, Instance>, after: map<string, Instance>, inner: set<string>)
    requires n < |tokens| && Warm(services, tokens, n, pinned, before)
    requires CacheKept(before, after, services, true, inner)
    requires Preloaded(services, tokens[n]) && tokens[n] !in pinned ==> Cached(after, tokens[n])
    ensures Warm(services, tokens, n + 1, pinned, after)
  {
    forall j | 0 <= j < n + 1 && Preloaded(services, tokens[j]) && tokens[j] !in pinned
      ensures Cached(after, tokens[j])
    {
      if j < n {
        assert Cached(before, tokens[j]);
      }
    }
  }

  lemma WarmAll(services: map<string, Definition>, tokens: seq<string>, pinned: set<string>, singletons: map<string, Instance>)
    requires Elements(tokens) == services.Keys && Warm(services, tokens, |tokens|, pinned, singletons)
    ensures forall t :: Preloaded(services, t) && t !in pinned ==> Cached(singletons, t)
  {
    forall t | Preloaded(services, t) && t !in pinned
      ensures Cached(singletons, t)
    {
      assert t in Elements(tokens);
      var j :| 0 <= j < |tokens| && tokens[j] == t;
    }
  }

  /**
   * Every eager token among the first `n` of `tokens`, other than those
   * already being resolved, was served from the cache or is among the
   * tokens whose factories were started (`later`).
   */
  ghost predicate Started(services: map<string, Definition>, tokens: seq<string>, n: nat, pinned: set<string>,
                          served: set<string>, later: seq<string>)
    requires n <= |tokens|
  {
    forall j :: 0 <= j < n && Eager(services, tokens[j]) && tokens[j] !in pinned ==> tokens[j] in served || tokens[j] in later
  }

  lemma StartedStep(services: map<string, Definition>, tokens: seq<string>, n: nat, pinned: set<string>,
                    served: set<string>, served': set<string>, runs0: seq<string>, before: seq<string>, after: seq<string>)
    requires n < |tokens| && runs0 <= before <= after && served <= served'
    requires Started(services, tokens, n, pinned, served, before[|runs0|..])
    requires Eager(services, tokens[n]) && tokens[n] !in pinned ==> tokens[n] in served' || tokens[n] in after[|runs0|..]
    ensures Started(services, tokens, n + 1, pinned, served', after[|runs0|..])
  {
    forall j | 0 <= j < n + 1 && Eager(services, tokens[j]) && tokens[j] !in pinned
      ensures tokens[j] in served' || tokens[j] in after[|runs0|..]
    {
      if j < n && tokens[j] !in served {
        var k :| 0 <= k < |before| - |runs0| && before[|runs0|..][k] == tokens[j];
        assert after[|runs0|..][k] == tokens[j];
      }
    }
  }

  lemma StartedAll(services: map<string, Definition>, tokens: seq<string>, pinned: set<string>,
                   served: set<string>, later: seq<string>)
    requires Elements(tokens) == services.Keys && Started(services, tokens, |tokens|, pinned, served, later)
    ensures forall t :: Eager(services, t) && t !in pinned ==> t in served || t in later
  {
    forall t | Eager(services, t) && t !in pinned
      ensures t in served || t in later
    {
      assert t in Elements(tokens);
      var j :| 0 <= j < |tokens| && tokens[j] == t;
    }
  }

  /**
   * The record `initializeAll` keeps after its first `i` tokens: one outcome
   * each, the first failure among them, the eager singletons it found cached,
   * which of the others had their factories started (after `runs0`), and
   * in strict mode, until a failure, which preloaded singletons are cached.
   */
  ghost predicate Logged(i: nat, tokens: seq<string>, svc: map<string, Definition>, runs0: seq<string>, pinned: set<string>,
                         settings: Settings, runs: seq<string>, singletons: map<string, Instance>,
                         failure: Option<Err>, outcomes: seq<Outcome>, served: set<string>)
  {
    && i <= |tokens| && runs0 <= runs
    && |outcomes| == i && failure == FirstFailure(outcomes)
    && Reports(svc, tokens, pinned, settings.maxDepth, outcomes)
    && (forall t :: t in served ==> Eager(svc, t) && svc[t].singleton)
    && (settings.maxDepth > 0 ==> Started(svc, tokens, i, pinned, served, runs[|runs0|..]))
    && (settings.strict && failure.None? ==> Warm(svc, tokens, i, pinned, singletons))
  }

  lemma LoggedStep(i: nat, tokens: seq<string>, svc: map<string, Definition>, runs0: seq<string>, pinned: set<string>,
                   settings: Settings, runs: seq<string>, runs': seq<string>,
                   singletons: map<string, Instance>, singletons': map<string, Instance>, inner: set<string>,
                   failure: Option<Err>, outcomes: seq<Outcome>, served: set<string>, outcome: Outcome, cached: bool)
    requires i < |tokens| && tokens[i] in svc && runs <= runs'
    requires Logged(i, tokens, svc, runs0, pinned, settings, runs, singletons, failure, outcomes, served)
    requires CacheKept(singletons, singletons', svc, settings.strict, inner)
    requires Report(svc, tokens[i], pinned, settings.maxDepth, outcome)
    requires cached ==> Eager(svc, tokens[i]) && svc[tokens[i]].singleton
    requires Eager(svc, tokens[i]) && tokens[i] !in pinned && settings.maxDepth > 0 && !cached ==> tokens[i] in runs'[|runs0|..]
    requires settings.strict && outcome.Some? && outcome.value.Success? && Preloaded(svc, tokens[i]) && tokens[i] !in pinned ==>
      Cached(singletons', tokens[i])
    ensures Logged(i + 1, tokens, svc, runs0, pinned, settings, runs', singletons',
                   if Failed(outcome) && failure.None? then Some(outcome.value.error) else failure,
                   outcomes + [outcome], if cached then served + {tokens[i]} else served)
  {
    var served' := if cached then served + {tokens[i]} else served;
    if settings.maxDepth > 0 {
      StartedStep(svc, tokens, i, pinned, served, served', runs0, runs, runs');
    }
    if settings.strict && failure.None? && !Failed(outcome) {
      WarmStep(svc, tokens, i, pinned, singletons, singletons', inner);
    }
    ReportsStep(svc, tokens, pinned, settings.maxDepth, outcomes, outcome);
    FirstFailureStep(outcomes, outcome);
  }

  /** What `initializeAll` does with one registered token: skips it when lazy, else `get`s it, going from `s` to `s'`. */
  ghost predicate Visited(svc: map<string, Definition>, settings: Settings, token: string, s: State, s': State,
                          outcome: Outcome, t: Trace)
    requires token in svc
  {
    if svc[token].lazy then outcome.None? && s' == s
    else outcome == Some(t.result) && t.token == token && t.before == s && t.after == s'
         && Follows(svc, settings, t, StackLimit)
  }

  /** The first `|outcomes|` tokens visited one after another, through `states`. */
  ghost predicate Sweep(svc: map<string, Definition>, settings: Settings, tokens: seq<string>, states: seq<State>,
                        outcomes: seq<Outcome>, traces: seq<Trace>) {
    && |states| == |outcomes| + 1 && |traces| == |outcomes| <= |tokens|
    && forall j :: 0 <= j < |outcomes| ==>
         tokens[j] in svc && Visited(svc, settings, tokens[j], states[j], states[j + 1], outcomes[j], traces[j])
  }

  lemma SweepExtend(svc: map<string, Definition>, settings: Settings, tokens: seq<string>, states: seq<State>,
                    outcomes: seq<Outcome>, traces: seq<Trace>, s': State, outcome: Outcome, t: Trace)
    requires Sweep(svc, settings, tokens, states, outcomes, traces) && |outcomes| < |tokens|
    requires tokens[|outcomes|] in svc && Visited(svc, settings, tokens[|outcomes|], states[|outcomes|], s', outcome, t)
    ensures Sweep(svc, settings, tokens, states + [s'], outcomes + [outcome], traces + [t])
  {
    var states', outcomes', traces' := states + [s'], outcomes + [outcome], traces + [t];
    forall j | 0 <= j < |outcomes'|
      ensures tokens[j] in svc && Visited(svc, settings, tokens[j], states'[j], states'[j + 1], outcomes'[j], traces'[j])
    {
      if j < |outcomes| {
        assert states'[j] == states[j] && states'[j + 1] == states[j + 1];
        assert outcomes'[j] == outcomes[j] && traces'[j] == traces[j];
      }
    }
  }

  class Container {
    const settings: Settings
    var services: map<string, Definition>
    /** The tokens in registration order (the order of the `services` map). */
    var order: seq<string>
    var singletons: map<string, Instance>
    var resolving: set<string>
    /** How many objects have been created: the next serial number. */
    var created: nat
    /** Every token whose factory has been started, in order. */
    ghost var runs: seq<string>

    ghost predicate Valid()
      reads this
    {
      Distinct(order) && Elements(order) == services.Keys && resolving <= services.Keys
    }

    /** The part of the container a resolution changes. */
    function Snapshot(): State
      reads this
    {
      State(resolving, singletons, created)
    }

    constructor (options: ContainerOptions)
      ensures settings == Configure(options)
      ensures services == map[] && order == [] && singletons == map[] && resolving == {} && created == 0 && Valid()
    {
      settings := Configure(options);
      services := map[];
      order := [];
      singletons := map[];
      resolving := {};
      created := 0;
      runs := [];
    }

    /**
     * `register`: the token's definition is replaced (singleton and lazy
     * default to false); an instance already cached for it stays cached.
     */
    method Register(token: string, factory: Factory, options: RegisterOptions)
      requires Valid()
      modifies this
      ensures Valid()
      ensures services == old(services)[token := Definition(factory, options.singleton.GetOr(false),
                                                            options.lazy.GetOr(false), options.dependencies)]
      ensures order == if token in old(services) then old(order) else old(order) + [token]
      ensures singletons == old(singletons) && resolving == old(resolving) && created == old(created) && runs == old(runs)
    {
      if token !in services {
        assert Elements(order + [token]) == Elements(order) + {token};
        order := order + [token];
      }
      services := services[token := Definition(factory, options.singleton.GetOr(false), options.lazy.GetOr(false), options.dependencies)];
    }

    /** `has`: whether the token is registered. */
    function Has(token: string): (r: bool)
      reads this
      requires Valid()
      ensures r <==> token in Elements(order)
    {
      token in services
    }

    /** `get`: resolves the token with no parent chain. */
    method Get(token: string) returns (r: Result<Instance, Err>, ghost trace: Trace)
      requires Valid()
      modifies this
      ensures trace.token == token && trace.before == old(Snapshot()) && trace.after == Snapshot() && trace.result == r
      ensures Follows(services, settings, trace, StackLimit)
      ensures Valid() && services == old(services) && order == old(order)
      ensures CacheKept(old(singletons), singletons, services, settings.strict, old(resolving))
      ensures resolving <= old(resolving) && (settings.strict ==> resolving == old(resolving))
      ensures settings.strict && |services| < StackLimit ==> r != Failure(CallStackExceeded)
      ensures token in old(resolving) && settings.strict ==> r == Failure(CircularDependency([token])) && unchanged(this)
      ensures token !in old(resolving) && settings.maxDepth <= 0 ==>
        r == Failure(DepthExceeded(settings.maxDepth, token, 0)) && unchanged(this)
      ensures token !in old(resolving) && settings.maxDepth > 0 && token !in services && !settings.autoCreate ==>
        r == Failure(ServiceNotFound(token)) && unchanged(this)
      ensures token !in old(resolving) && settings.maxDepth > 0 && token !in services && settings.autoCreate ==>
        && r == Success(Object(old(created))) && created == old(created) + 1
        && singletons == old(singletons) && resolving == old(resolving) && runs == old(runs)
      ensures token !in old(resolving) && settings.maxDepth > 0 && token in services && services[token].singleton
              && Cached(old(singletons), token) ==>
        r == Success(old(singletons)[token]) && unchanged(this)
      ensures token !in old(resolving) && settings.maxDepth > 0 && token in services
              && !(services[token].singleton && Cached(old(singletons), token)) ==>
        && |runs| > |old(runs)| && runs[|old(runs)|] == token
        && (r.Success? && services[token].singleton ==> token in singletons && singletons[token] == r.value)
      ensures token in services && r.Success? && !services[token].factory.yieldsUndefined ==> r.value != Undefined
      ensures old(runs) <= runs
      ensures settings.maxDepth > 0 ==> !DepthFailure(r)
    {
      assert |services.Keys - resolving| <= |services.Keys|;
      r, trace := Resolve(token, StackLimit);
    }

    /** `resolve`, with `fuel` the call-stack depth still available. */
    method Resolve(token: string, fuel: nat) returns (r: Result<Instance, Err>, ghost trace: Trace)
      requires Valid()
      modifies this
      decreases fuel, 2
      ensures trace.token == token && trace.before == old(Snapshot()) && trace.after == Snapshot() && trace.result == r
      ensures Follows(services, settings, trace, fuel)
      ensures Valid() && services == old(services) && order == old(order)
      ensures CacheKept(old(singletons), singletons, services, settings.strict, old(resolving))
      ensures created >= old(created) && old(runs) <= runs
      ensures resolving <= old(resolving) && (settings.strict ==> resolving == old(resolving))
      ensures settings.strict && fuel > |services.Keys - old(resolving)| ==> r != Failure(CallStackExceeded)
      ensures token in old(resolving) && settings.strict ==> r == Failure(CircularDependency([token])) && unchanged(this)
      ensures token in old(resolving) && !settings.strict && Cached(old(singletons), token) ==>
        r == Success(old(singletons)[token]) && unchanged(this)
      ensures token in old(resolving) && !settings.strict && !Cached(old(singletons), token) && token in services && fuel > 0 ==>
        |runs| > |old(runs)| && runs[|old(runs)|] == token
      ensures settings.maxDepth > 0 ==> !DepthFailure(r)
      ensures token !in old(resolving) && settings.maxDepth <= 0 ==>
        r == Failure(DepthExceeded(settings.maxDepth, token, 0)) && unchanged(this)
      ensures token !in old(resolving) && settings.maxDepth > 0 && token !in services && !settings.autoCreate ==>
        r == Failure(ServiceNotFound(token)) && unchanged(this)
      ensures token !in old(resolving) && settings.maxDepth > 0 && token !in services && settings.autoCreate ==>
        && r == Success(Object(old(created))) && created == old(created) + 1
        && singletons == old(singletons) && resolving == old(resolving) && runs == old(runs)
      ensures token !in old(resolving) && settings.maxDepth > 0 && token in services && services[token].singleton
              && Cached(old(singletons), token) ==>
        r == Success(old(singletons)[token]) && unchanged(this)
      ensures token !in old(resolving) && settings.maxDepth > 0 && token in services
              && !(services[token].singleton && Cached(old(singletons), token)) && fuel > 0 ==>
        && |runs| > |old(runs)| && runs[|old(runs)|] == token
        && (r.Success? && services[token].singleton ==> token in singletons && singletons[token] == r.value)
      ensures token in services && r.Success? && !services[token].factory.yieldsUndefined ==> r.value != Undefined
    {
      ghost var before := Snapshot();
      if token in resolving {
        if settings.strict {
          r := Failure(CircularDependency([token]));
        } else if Cached(singletons, token) {
          r := Success(singletons[token]);
        } else {
          r, trace := CreateInstance(token, fuel);
          return;
        }
        trace := Trace(token, before, r, before, []);
        return;
      }
      if 0 >= settings.maxDepth {
        r := Failure(DepthExceeded(settings.maxDepth, token, 0));
      } else if token !in services {
        if !settings.autoCreate {
          r := Failure(ServiceNotFound(token));
        } else {
          r := Success(Object(created));
          created := created + 1;
        }
      } else if services[token].singleton && Cached(singletons, token) {
        r := Success(singletons[token]);
      } else {
        r, trace := CreateInstance(token, fuel);
        return;
      }
      trace := Trace(token, before, r, Snapshot(), []);
    }

    /**
     * `createInstance`: marks the token as resolving, runs its factory (which
     * resolves the factory's tokens in order and stops at the first failure),
     * caches a singleton's result, and unmarks the token whether the factory
     * returned or threw.
     */
    method CreateInstance(token: string, fuel: nat) returns (r: Result<Instance, Err>, ghost trace: Trace)
      requires Valid()
      requires settings.strict ==> token !in resolving
      requires token in services && services[token].singleton ==> !Cached(singletons, token)
      modifies this
      decreases fuel, 1
      ensures trace.token == token && trace.before == old(Snapshot()) && trace.after == Snapshot() && trace.result == r
      ensures Created(services, settings, trace, fuel)
      ensures Valid() && services == old(services) && order == old(order)
      ensures CacheKept(old(singletons), singletons, services, settings.strict, old(resolving))
      ensures created >= old(created) && old(runs) <= runs
      ensures resolving <= old(resolving)
      ensures token in services && fuel > 0 ==> token !in resolving
      ensures settings.strict ==> resolving == old(resolving)
      ensures settings.strict && fuel > |services.Keys - old(resolving)| ==>
        r != Failure(CallStackExceeded)
      ensures token !in services ==> r == Failure(ServiceNotFound(token)) && unchanged(this)
      ensures settings.maxDepth > 0 ==> !DepthFailure(r)
      ensures token in services && r.Success? ==> (r.value == Undefined <==> services[token].factory.yieldsUndefined)
      ensures token in services && fuel > 0 ==>
        && |runs| > |old(runs)| && runs[|old(runs)|] == token
        && (r.Success? && services[token].singleton ==> token in singletons && singletons[token] == r.value)
    {
      if token !in services {
        r := Failure(ServiceNotFound(token));
      } else if fuel == 0 {
        if settings.strict && token !in resolving {
          assert token in services.Keys - resolving;
        }
        r := Failure(CallStackExceeded);
      } else {
        r, trace := RunFactory(token, fuel);
        return;
      }
      trace := Trace(token, Snapshot(), r, Snapshot(), []);
    }

    /** The `try`/`finally` of `createInstance`: the token is marked as resolving exactly while its factory runs. */
    method RunFactory(token: string, fuel: nat) returns (r: Result<Instance, Err>, ghost trace: Trace)
      requires Valid() && token in services && fuel > 0
      requires settings.strict ==> token !in resolving
      requires services[token].singleton ==> !Cached(singletons, token)
      modifies this
      decreases fuel, 0
      ensures trace.token == token && trace.before == old(Snapshot()) && trace.after == Snapshot() && trace.result == r
      ensures Valid() && services == old(services) && order == old(order)
      ensures Ran(services, settings, trace, fuel)
      ensures CacheKept(old(singletons), singletons, services, settings.strict, old(resolving))
      ensures created >= old(created) && old(runs) <= runs
      ensures resolving <= old(resolving) && token !in resolving
      ensures settings.strict ==> resolving == old(resolving)
      ensures settings.strict && fuel > |services.Keys - old(resolving)| ==> r != Failure(CallStackExceeded)
      ensures r.Success? ==> (r.value == Undefined <==> services[token].factory.yieldsUndefined)
      ensures |runs| > |old(runs)| && runs[|old(runs)|] == token
      ensures r.Success? && services[token].singleton ==> token in singletons && singletons[token] == r.value
      ensures settings.maxDepth > 0 ==> !DepthFailure(r)
    {
      var definition := services[token];
      ghost var outerResolving := resolving;
      ghost var outerSingletons := singletons;
      ghost var outerRuns := runs;
      resolving := resolving + {token};
      runs := runs + [token];
      if settings.strict && token !in outerResolving {
        assert services.Keys - outerResolving == (services.Keys - resolving) + {token};
      }
      ghost var innerRuns := runs;
      var failure, deps := ResolveDependencies(definition.factory.deps, fuel - 1);
      CacheKeptWeaken(outerSingletons, singletons, services, settings.strict, outerResolving, outerResolving + {token});
      assert runs[|outerRuns|] == innerRuns[|outerRuns|];
      if settings.strict && definition.singleton {
        assert token in outerResolving + {token};
        assert !Cached(singletons, token);
      }
      ghost var innerSingletons := singletons;
      r := Settle(token, failure, outerResolving);
      CacheKeptTrans(outerSingletons, innerSingletons, singletons, services, settings.strict, outerResolving, outerResolving);
      resolving := resolving - {token};
      trace := Trace(token, old(Snapshot()), r, Snapshot(), deps);
      RanIntro(services, settings, trace, fuel);
    }

    /** The end of a factory run: it throws the dependency failure, if any, and otherwise yields its instance. */
    method Settle(token: string, failure: Option<Err>, ghost pinned: set<string>) returns (r: Result<Instance, Err>)
      requires token in services
      requires settings.strict && services[token].singleton ==> token !in pinned && !Cached(singletons, token)
      modifies this
      ensures services == old(services) && order == old(order) && resolving == old(resolving) && runs == old(runs)
      ensures created >= old(created)
      ensures CacheKept(old(singletons), singletons, services, settings.strict, pinned)
      ensures Settled(services[token], token, old(Snapshot()), failure, r, Snapshot().(resolving := resolving - {token}))
      ensures failure.Some? ==> r == Failure(failure.value)
      ensures failure.None? ==> r.Success? && (r.value == Undefined <==> services[token].factory.yieldsUndefined)
      ensures r.Success? && services[token].singleton ==> token in singletons && singletons[token] == r.value
    {
      if failure.Some? {
        return Failure(failure.value);
      }
      var instance := Yield(token, pinned);
      r := Success(instance);
    }

    /** The end of a factory run that did not throw: its instance, cached when the token is a singleton. */
    method Yield(token: string, ghost pinned: set<string>) returns (instance: Instance)
      requires token in services
      requires settings.strict && services[token].singleton ==> token !in pinned && !Cached(singletons, token)
      modifies this
      ensures services == old(services) && order == old(order) && resolving == old(resolving) && runs == old(runs)
      ensures created >= old(created)
      ensures CacheKept(old(singletons), singletons, services, settings.strict, pinned)
      ensures created == if services[token].factory.yieldsUndefined then old(created) else old(created) + 1
      ensures services[token].factory.yieldsUndefined ==> instance == Undefined
      ensures !services[token].factory.yieldsUndefined ==> instance == Object(old(created))
      ensures singletons == if services[token].singleton then old(singletons)[token := instance] else old(singletons)
    {
      var definition := services[token];
      instance := if definition.factory.yieldsUndefined then Undefined else Object(created);
      if !definition.factory.yieldsUndefined {
        created := created + 1;
      }
      if definition.singleton {
        CacheStore(singletons, services, settings.strict, pinned, token, instance);
        singletons := singletons[token := instance];
      }
    }

    /** The body of a factory: resolve `deps` in order, stopping at the first failure, which the factory throws. */
    method ResolveDependencies(deps: seq<string>, fuel: nat) returns (failure: Option<Err>, ghost traces: seq<Trace>)
      requires Valid()
      modifies this
      decreases fuel, 3
      ensures Linked(old(Snapshot()), deps, traces) && AllFollow(services, settings, traces, fuel)
      ensures failure == Raised(traces) && Snapshot() == Reached(old(Snapshot()), traces)
      ensures Valid() && services == old(services) && order == old(order)
      ensures CacheKept(old(singletons), singletons, services, settings.strict, old(resolving))
      ensures created >= old(created) && old(runs) <= runs
      ensures resolving <= old(resolving) && (settings.strict ==> resolving == old(resolving))
      ensures settings.strict && fuel > |services.Keys - old(resolving)| ==> failure != Some(CallStackExceeded)
      ensures settings.maxDepth > 0 && failure.Some? ==> !failure.value.DepthExceeded?
    {
      failure := None;
      traces := [];
      var i := 0;
      while i < |deps| && failure.None?
        invariant Valid() && services == old(services) && order == old(order)
        invariant 0 <= i <= |deps| && |traces| == i
        invariant Chained(old(Snapshot()), deps, traces) && AllFollow(services, settings, traces, fuel)
        invariant failure == Raised(traces) && Snapshot() == Reached(old(Snapshot()), traces)
        invariant CacheKept(old(singletons), singletons, services, settings.strict, old(resolving))
        invariant created >= old(created) && old(runs) <= runs
        invariant resolving <= old(resolving) && (settings.strict ==> resolving == old(resolving))
        invariant settings.strict && fuel > |services.Keys - old(resolving)| ==> failure != Some(CallStackExceeded)
        invariant settings.maxDepth > 0 && failure.Some? ==> !failure.value.DepthExceeded?
        decreases |deps| - i, if failure.None? then 1 else 0
      {
        ghost var beforeSingletons := singletons;
        var dependency, t := Resolve(deps[i], fuel);
        CacheKeptTrans(old(singletons), beforeSingletons, singletons, services, settings.strict, old(resolving), resolving);
        LinkStep(old(Snapshot()), deps, traces, t);
        traces := traces + [t];
        if dependency.Failure? {
          failure := Some(dependency.error);
        }
        i := i + 1;
      }
    }

    /**
     * One step of `initializeAll`: `get` of a registered token unless it is
     * lazy, seen through what the sweep needs of it. `cached` says that the
     * token was an eager singleton already cached when reached; otherwise an
     * eager token's factory is started. `runs0` and `pinned` are the runs and
     * the resolving set from before the sweep.
     */
    method Visit(token: string, ghost runs0: seq<string>, ghost pinned: set<string>)
      returns (outcome: Outcome, ghost cached: bool, ghost trace: Trace)
      requires Valid() && token in services && runs0 <= runs && resolving <= pinned
      modifies this
      ensures Valid() && services == old(services) && order == old(order)
      ensures Visited(services, settings, token, old(Snapshot()), Snapshot(), outcome, trace)
      ensures CacheKept(old(singletons), singletons, services, settings.strict, old(resolving))
      ensures resolving <= old(resolving) && (settings.strict ==> resolving == old(resolving))
      ensures old(runs) <= runs
      ensures Report(services, token, pinned, settings.maxDepth, outcome)
      ensures cached ==> Eager(services, token) && services[token].singleton
      ensures Eager(services, token) && token !in pinned && settings.maxDepth > 0 && !cached ==> token in runs[|runs0|..]
      ensures settings.strict && outcome.Some? && outcome.value.Success? && Preloaded(services, token) && token !in pinned ==>
        Cached(singletons, token)
    {
      if services[token].lazy {
        return None, false, Trace(token, Snapshot(), Success(Undefined), Snapshot(), []);
      }
      cached := services[token].singleton && Cached(singletons, token);
      var r;
      r, trace := Get(token);
      if settings.maxDepth > 0 && token !in pinned && !cached {
        assert runs[|runs0|..][|old(runs)| - |runs0|] == token;
      }
      outcome := Some(r);
    }

    /**
     * `initializeAll`: resolves every eager token, in registration order,
     * all of them even after a failure, and reports the first failure.
     * `outcomes` holds what each registered token's `get` gave (none for a
     * lazy one) and `served` the eager singletons found already cached when
     * reached; every other eager token had its factory started. In strict
     * mode a clean run leaves every preloaded singleton cached. `states` are
     * the states between the steps and `traces` what each `get` did.
     */
    method InitializeAll() returns (failure: Option<Err>, ghost outcomes: seq<Outcome>, ghost served: set<string>,
                                   ghost states: seq<State>, ghost traces: seq<Trace>)
      requires Valid()
      modifies this
      ensures Sweep(services, settings, order, states, outcomes, traces)
      ensures |states| == |order| + 1 && states[0] == old(Snapshot()) && states[|order|] == Snapshot()
      ensures Valid() && services == old(services) && order == old(order)
      ensures CacheKept(old(singletons), singletons, services, settings.strict, old(resolving))
      ensures old(runs) <= runs
      ensures |outcomes| == |order| && failure == FirstFailure(outcomes)
      ensures Reports(services, order, old(resolving), settings.maxDepth, outcomes)
      ensures forall t :: t in served ==> Eager(services, t) && services[t].singleton
      ensures settings.maxDepth > 0 ==>
        forall t :: Eager(services, t) && t !in old(resolving) ==> t in served || t in runs[|old(runs)|..]
      ensures settings.strict && failure.None? ==>
        forall t :: Preloaded(services, t) && t !in old(resolving) ==> Cached(singletons, t)
    {
      failure := None;
      outcomes := [];
      served := {};
      states := [Snapshot()];
      traces := [];
      ghost var svc, runs0, pinned := services, runs, resolving;
      var tokens := order;
      for i := 0 to |tokens|
        invariant Swept(i, tokens, svc, runs0, pinned, old(singletons), failure, outcomes, served)
        invariant Sweep(svc, settings, tokens, states, outcomes, traces)
        invariant states[0] == old(Snapshot()) && states[|states| - 1] == Snapshot()
      {
        failure, outcomes, served, states, traces :=
          SweepStep(i, tokens, svc, runs0, pinned, old(singletons), failure, outcomes, served, states, traces);
      }
      if settings.maxDepth > 0 {
        StartedAll(svc, tokens, pinned, served, runs[|runs0|..]);
      }
      if settings.strict && failure.None? {
        WarmAll(svc, tokens, pinned, singletons);
      }
    }

    /**
     * What the first `i` steps of `initializeAll` have established, from a
     * start with registrations `svc` in `tokens` order, runs `runs0`,
     * resolving set `pinned` and cache `singletons0`.
     */
    ghost predicate Swept(i: nat, tokens: seq<string>, svc: map<string, Definition>, runs0: seq<string>, pinned: set<string>,
                          singletons0: map<string, Instance>, failure: Option<Err>, outcomes: seq<Outcome>, served: set<string>)
      reads this
    {
      && i <= |tokens|
      && Valid() && services == svc && order == tokens
      && CacheKept(singletons0, singletons, svc, settings.strict, pinned)
      && resolving <= pinned && (settings.strict ==> resolving == pinned)
      && runs0 <= runs
      && Logged(i, tokens, svc, runs0, pinned, settings, runs, singletons, failure, outcomes, served)
    }

    /** Step `i` of `initializeAll`: visits `tokens[i]` and records what it gave. */
    method SweepStep(i: nat, tokens: seq<string>, ghost svc: map<string, Definition>, ghost runs0: seq<string>,
                     ghost pinned: set<string>, ghost singletons0: map<string, Instance>,
                     failure: Option<Err>, ghost outcomes: seq<Outcome>, ghost served: set<string>,
                     ghost states: seq<State>, ghost traces: seq<Trace>)
      returns (failure': Option<Err>, ghost outcomes': seq<Outcome>, ghost served': set<string>,
               ghost states': seq<State>, ghost traces': seq<Trace>)
      requires i < |tokens| && Swept(i, tokens, svc, runs0, pinned, singletons0, failure, outcomes, served)
      requires Sweep(svc, settings, tokens, states, outcomes, traces) && states[|states| - 1] == Snapshot()
      modifies this
      ensures Swept(i + 1, tokens, svc, runs0, pinned, singletons0, failure', outcomes', served')
      ensures Sweep(svc, settings, tokens, states', outcomes', traces')
      ensures states'[0] == states[0] && states'[|states'| - 1] == Snapshot()
    {
      var token := tokens[i];
      ghost var before, beforeResolving, beforeRuns := singletons, resolving, runs;
      var outcome, cached, trace := Visit(token, runs0, pinned);
      SweepExtend(svc, settings, tokens, states, outcomes, traces, Snapshot(), outcome, trace);
      states' := states + [Snapshot()];
      traces' := traces + [trace];
      LoggedStep(i, tokens, svc, runs0, pinned, settings, beforeRuns, runs, before, singletons, beforeResolving,
                 failure, outcomes, served, outcome, cached);
      CacheKeptTrans(singletons0, before, singletons, svc, settings.strict, pinned, beforeResolving);
      served' := if cached then served + {token} else served;
      failure' := if Failed(outcome) && failure.None? then Some(outcome.value.error) else failure;
      outcomes' := outcomes + [outcome];
    }

    /** `clear`: forgets every registration, cached instance and pending resolution. */
    method Clear()
      modifies this
      ensures services == map[] && order == [] && singletons == map[] && resolving == {} && Valid()
    {
      services := map[];
      order := [];
      singletons := map[];
      resolving := {};
    }
  }
}
