/**
 * The monitoring buffers (src/lib/monitoring/index.ts): a tracer holding a
 * span map and a current-span pointer, per-name metric series with summary
 * statistics, and a logger with a bounded buffer. The clock, the sampling
 * decision and the generated ids are parameters; console output is not modelled.
 */
module Monitoring {
  import opened Wrappers
  import opened JsValues

  datatype MonitoringConfig = MonitoringConfig(
    environment: string, version: string, maxLogRetention: Option<int>, maxSpanRetention: Option<int>)

  const DefaultMaxLogs: int := 1000
  const DefaultMaxSpanRetention: int := 30000

  /** `option || fallback`: an absent or zero number falls back. */
  function OrElse(option: Option<int>, fallback: int): int
  {
    if option.Some? && option.value != 0 then option.value else fallback
  }

  /** A string-keyed record of values: attributes, log context. */
  type Attributes = map<string, Value>

  /** `{ ...attributes, environment, version }`: the configured environment and version override same-named keys. */
  function Stamp(attributes: Attributes, config: MonitoringConfig): (r: Attributes)
    ensures r.Keys == attributes.Keys + {"environment", "version"}
    ensures r["environment"] == Str(config.environment) && r["version"] == Str(config.version)
    ensures forall k :: k in attributes && k != "environment" && k != "version" ==> r[k] == attributes[k]
  {
    attributes["environment" := Str(config.environment)]["version" := Str(config.version)]
  }

  // ----- Tracer -----

  datatype SpanEvent = SpanEvent(name: string, timestamp: int, attributes: Attributes)

  datatype Span = Span(
    id: string, start: int, end: Option<int>, name: string, attributes: Attributes,
    events: seq<SpanEvent>, parent: Option<string>, duration: Option<int>)

  /** `span.end && (now - span.end) > retention`: ended (at a non-zero time) longer ago than the retention. */
  predicate Stale(span: Span, now: int, retention: int) {
    span.end.Some? && span.end.value != 0 && now - span.end.value > retention
  }

  /** The spans `cleanup` keeps. */
  function Retained(spans: map<string, Span>, now: int, retention: int): (r: map<string, Span>)
    ensures r.Keys <= spans.Keys
    ensures forall id :: id in spans ==> (id in r <==> !Stale(spans[id], now, retention))
    ensures forall id :: id in r ==> r[id] == spans[id]
  {
    map id | id in spans && !Stale(spans[id], now, retention) :: spans[id]
  }

  /** The pointer `endSpan` moves to: the span's parent when it is a non-empty id, else none. */
  function ParentOf(span: Span): Option<string>
  {
    if span.parent.Some? && span.parent.value != "" then span.parent else None
  }

  /** `span` as `endSpan` leaves it: ended at `now`, with its duration recorded. */
  function Ended(span: Span, attributes: Attributes, now: int): (r: Span)
    ensures r.end == Some(now) && r.duration == Some(now - span.start)
    ensures r.id == span.id && r.start == span.start && r.name == span.name
    ensures r.events == span.events && r.parent == span.parent
    ensures "duration" in r.attributes && r.attributes["duration"] == Num((now - span.start) as real)
  {
    var duration := now - span.start;
    span.(end := Some(now), duration := Some(duration),
          attributes := (span.attributes + attributes)["duration" := Num(duration as real)])
  }

  class Tracer {
    const config: MonitoringConfig
    const maxSpanRetention: int
    var spans: map<string, Span>
    var currentSpanId: Option<string>

    /** Span ids are generated UUIDs, so the empty id that an unsampled `startSpan` returns names no span. */
    ghost predicate Valid()
      reads this
    {
      "" !in spans
    }

    constructor (config: MonitoringConfig)
      ensures this.config == config
      ensures maxSpanRetention == OrElse(config.maxSpanRetention, DefaultMaxSpanRetention)
      ensures spans == map[] && currentSpanId == None && Valid()
    {
      this.config := config;
      maxSpanRetention := OrElse(config.maxSpanRetention, DefaultMaxSpanRetention);
      spans := map[];
      currentSpanId := None;
    }

    /**
     * `startSpan`: when sampled, records a new span under `spanId` whose parent
     * is the current span, and makes it current; otherwise returns `""` and
     * changes nothing.
     */
    method StartSpan(name: string, attributes: Attributes, sampled: bool, spanId: string, traceId: string, now: int)
      returns (id: string)
      requires Valid() && spanId != ""
      modifies this
      ensures Valid()
      ensures !sampled ==> id == "" && spans == old(spans) && currentSpanId == old(currentSpanId)
      ensures sampled ==> id == spanId && currentSpanId == Some(spanId)
      ensures sampled ==> spans == old(spans)[spanId := Span(spanId, now, None, name,
                                   Stamp(attributes, config)["traceId" := Str(traceId)], [], old(currentSpanId), None)]
    {
      if sampled {
        var span := Span(spanId, now, None, name, Stamp(attributes, config)["traceId" := Str(traceId)], [], currentSpanId, None);
        spans := spans[spanId := span];
        currentSpanId := Some(spanId);
        return spanId;
      }
      return "";
    }

    /**
     * `endSpan`: a known span is ended at `now` and the current pointer moves
     * to its parent (or to none); an unknown id changes nothing.
     */
    method EndSpan(spanId: string, attributes: Attributes, now: int)
      requires Valid()
      modifies this
      ensures Valid()
      ensures spanId !in old(spans) ==> spans == old(spans) && currentSpanId == old(currentSpanId)
      ensures spanId in old(spans) ==>
        && spans == old(spans)[spanId := Ended(old(spans)[spanId], attributes, now)]
        && currentSpanId == ParentOf(old(spans)[spanId])
    {
      if spanId in spans {
        var span := spans[spanId];
        spans := spans[spanId := Ended(span, attributes, now)];
        currentSpanId := ParentOf(span);
      }
    }

    /** `addEvent`: appends an event to a known span only. */
    method AddEvent(spanId: string, name: string, attributes: Attributes, now: int)
      requires Valid()
      modifies this
      ensures Valid()
      ensures currentSpanId == old(currentSpanId) && spans.Keys == old(spans).Keys
      ensures spanId !in old(spans) ==> spans == old(spans)
      ensures spanId in old(spans) ==>
        spans == old(spans)[spanId := old(spans)[spanId].(events := old(spans)[spanId].events
                   + [SpanEvent(name, now, attributes["environment" := Str(config.environment)])])]
    {
      if spanId in spans {
        var span := spans[spanId];
        var event := SpanEvent(name, now, attributes["environment" := Str(config.environment)]);
        spans := spans[spanId := span.(events := span.events + [event])];
      }
    }

    /** `cleanup`: drops exactly the spans that ended more than `maxSpanRetention` before `now`. */
    method Cleanup(now: int)
      requires Valid()
      modifies this
      ensures Valid()
      ensures spans == Retained(old(spans), now, maxSpanRetention)
      ensures currentSpanId == old(currentSpanId)
    {
      var pending := spans.Keys;
      ghost var start := spans;
      while pending != {}
        invariant pending <= start.Keys
        invariant currentSpanId == old(currentSpanId)
        invariant spans == map id | id in start && (id in pending || !Stale(start[id], now, maxSpanRetention)) :: start[id]
        decreases pending
      {
        var id :| id in pending;
        if Stale(spans[id], now, maxSpanRetention) {
          spans := spans - {id};
        }
        pending := pending - {id};
      }
    }

    method Clear()
      modifies this
      ensures spans == map[] && currentSpanId == None && Valid()
    {
      spans := map[];
      currentSpanId := None;
    }
  }

  /**
   * A span started and then ended with no other tracer call in between is
   * recorded as ended, and the current pointer returns to where it was (when
   * that was none or a non-empty id).
   */
  lemma StartEndRestoresCurrent(before: Option<string>, span: Span, attributes: Attributes, now: int)
    requires span.parent == before
    requires before.None? || before.value != ""
    ensures ParentOf(span) == before
    ensures Ended(span, attributes, now).end == Some(now)
  {
  }

  /** Sweeping twice at the same instant removes nothing more. */
  lemma RetainedIdempotent(spans: map<string, Span>, now: int, retention: int)
    ensures Retained(Retained(spans, now, retention), now, retention) == Retained(spans, now, retention)
  {
    var once := Retained(spans, now, retention);
    var twice := Retained(once, now, retention);
    assert twice.Keys == once.Keys;
  }

  // ----- Metrics -----

  datatype MetricMetadata = MetricMetadata(timestamp: int, labels: map<string, string>)

  /** One named series: every recorded value, in order, and its metadata. */
  datatype Series = Series(values: seq<int>, metadata: MetricMetadata)

  datatype MetricValue = MetricValue(avg: real, min: int, max: int, count: nat, p95: int, sum: int, metadata: MetricMetadata)

  function Sum(s: seq<int>): int {
    if s == [] then 0 else Sum(s[..|s| - 1]) + s[|s| - 1]
  }

  function Minimum(s: seq<int>): (r: int)
    requires s != []
    ensures r in s && forall x :: x in s ==> r <= x
  {
    if |s| == 1 then s[0]
    else
      var rest := Minimum(s[1..]);
      assert forall x :: x in s ==> x == s[0] || x in s[1..];
      if s[0] <= rest then s[0] else rest
  }

  function Maximum(s: seq<int>): (r: int)
    requires s != []
    ensures r in s && forall x :: x in s ==> x <= r
  {
    if |s| == 1 then s[0]
    else
      var rest := Maximum(s[1..]);
      assert forall x :: x in s ==> x == s[0] || x in s[1..];
      if s[0] >= rest then s[0] else rest
  }

  predicate Ascending(s: seq<int>) {
    forall i, j :: 0 <= i < j < |s| ==> s[i] <= s[j]
  }

  function InsertAscending(x: int, s: seq<int>): (r: seq<int>)
    ensures |r| == |s| + 1
  {
    if s == [] || x <= s[0] then [x] + s else [s[0]] + InsertAscending(x, s[1..])
  }

  /** `[...values].sort((a, b) => a - b)`: the values in ascending numeric order. */
  function SortAscending(s: seq<int>): (r: seq<int>)
    ensures |r| == |s|
  {
    if s == [] then [] else InsertAscending(s[0], SortAscending(s[1..]))
  }

  /** Inserting a value no smaller than `low` into values no smaller than `low` keeps them all no smaller. */
  lemma {:induction false} InsertAscendingAbove(x: int, s: seq<int>, low: int)
    requires low <= x && forall k :: 0 <= k < |s| ==> low <= s[k]
    ensures forall k :: 0 <= k < |InsertAscending(x, s)| ==> low <= InsertAscending(x, s)[k]
  {
    if s != [] && x > s[0] {
      InsertAscendingAbove(x, s[1..], low);
    }
  }

  /** Inserting adds exactly one occurrence of `x`. */
  lemma {:induction false} InsertAscendingPermutes(x: int, s: seq<int>)
    ensures multiset(InsertAscending(x, s)) == multiset(s) + multiset{x}
  {
    if s != [] && x > s[0] {
      InsertAscendingPermutes(x, s[1..]);
      assert s == [s[0]] + s[1..];
    }
  }

  /** Inserting into an ascending sequence keeps it ascending. */
  lemma {:induction false} InsertAscendingSorted(x: int, s: seq<int>)
    requires Ascending(s)
    ensures Ascending(InsertAscending(x, s))
  {
    if s == [] || x <= s[0] {
      assert forall k :: 0 <= k < |s| ==> x <= s[k] by {
        forall k | 0 <= k < |s| ensures x <= s[k] {
          assert s[0] <= s[k];
        }
      }
      ConsAscending(x, s);
    } else {
      var rest := InsertAscending(x, s[1..]);
      assert Ascending(s[1..]) by {
        forall i, j | 0 <= i < j < |s[1..]| ensures s[1..][i] <= s[1..][j] {
          assert s[1..][i] == s[i + 1] && s[1..][j] == s[j + 1];
        }
      }
      InsertAscendingSorted(x, s[1..]);
      assert forall k :: 0 <= k < |s[1..]| ==> s[0] <= s[1..][k] by {
        forall k | 0 <= k < |s[1..]| ensures s[0] <= s[1..][k] {
          assert s[1..][k] == s[k + 1];
        }
      }
      InsertAscendingAbove(x, s[1..], s[0]);
      ConsAscending(s[0], rest);
    }
  }

  /** A value no larger than every element of an ascending sequence may be put in front of it. */
  lemma ConsAscending(a: int, t: seq<int>)
    requires Ascending(t) && forall k :: 0 <= k < |t| ==> a <= t[k]
    ensures Ascending([a] + t)
  {
    var u := [a] + t;
    forall i, j | 0 <= i < j < |u| ensures u[i] <= u[j] {
      assert u[j] == t[j - 1];
      if i > 0 {
        assert u[i] == t[i - 1];
      }
    }
  }

  /** The sorted copy is ascending and holds exactly the recorded values. */
  lemma SortAscendingCorrect(s: seq<int>)
    ensures Ascending(SortAscending(s))
    ensures multiset(SortAscending(s)) == multiset(s)
    ensures |SortAscending(s)| == |s|
  {
    SortAscendingSorted(s);
    SortAscendingPermutes(s);
  }

  lemma {:induction false} SortAscendingSorted(s: seq<int>)
    ensures Ascending(SortAscending(s))
  {
    if s != [] {
      SortAscendingSorted(s[1..]);
      InsertAscendingSorted(s[0], SortAscending(s[1..]));
    }
  }

  lemma {:induction false} SortAscendingPermutes(s: seq<int>)
    ensures multiset(SortAscending(s)) == multiset(s)
  {
    if s != [] {
      SortAscendingPermutes(s[1..]);
      InsertAscendingPermutes(s[0], SortAscending(s[1..]));
      assert s == [s[0]] + s[1..];
    }
  }

  /** `Math.floor(count * 0.95)`, taken in exact arithmetic. */
  function P95Index(count: nat): (r: nat)
    requires count >= 1
    ensures r < count
  {
    count * 95 / 100
  }

  /** `getMetric`: the summary of a non-empty series; none for an unknown or empty one. */
  function Summarize(series: Series): (r: Option<MetricValue>)
    ensures r.None? <==> series.values == []
    ensures r.Some? ==> r.value.count == |series.values| && r.value.sum == Sum(series.values)
    ensures r.Some? ==> r.value.min in series.values && r.value.max in series.values
    ensures r.Some? ==> forall x :: x in series.values ==> r.value.min <= x <= r.value.max
    ensures r.Some? ==> r.value.metadata == series.metadata
  {
    var values := series.values;
    if values == [] then None
    else
      var sorted := SortAscending(values);
      SortAscendingCorrect(values);
      var count := |values|;
      Some(MetricValue(Sum(values) as real / count as real, Minimum(values), Maximum(values), count,
                       sorted[P95Index(count)], Sum(values), series.metadata))
  }

  /** The 95th percentile is a recorded value, between the minimum and the maximum, at or above the sorted values before its index. */
  lemma P95Bounded(series: Series)
    requires series.values != []
    ensures var m := Summarize(series).value;
      && m.p95 in series.values && m.min <= m.p95 <= m.max
      && m.p95 == SortAscending(series.values)[P95Index(|series.values|)]
  {
    var sorted := SortAscending(series.values);
    SortAscendingCorrect(series.values);
    var i := P95Index(|series.values|);
    assert sorted[i] in multiset(sorted);
  }

  lemma {:induction false} SumAppend(s: seq<int>, x: int)
    ensures Sum(s + [x]) == Sum(s) + x
  {
    assert (s + [x])[..|s + [x]| - 1] == s;
  }

  class Metrics {
    const config: MonitoringConfig
    var metrics: map<string, Series>

    constructor (config: MonitoringConfig)
      ensures this.config == config && metrics == map[]
    {
      this.config := config;
      metrics := map[];
    }

    /**
     * `record`: appends `value` to the named series, creating it on first use
     * with the given labels stamped with environment and version; the labels
     * of an existing series are kept and only its timestamp moves to `now`.
     */
    method Record(name: string, value: int, labels: map<string, string>, now: int)
      modifies this
      ensures name in old(metrics) ==>
        metrics == old(metrics)[name := Series(old(metrics)[name].values + [value],
                                               old(metrics)[name].metadata.(timestamp := now))]
      ensures name !in old(metrics) ==>
        metrics == old(metrics)[name := Series([value], MetricMetadata(now,
                     labels["environment" := config.environment]["version" := config.version]))]
    {
      if name in metrics {
        var series := metrics[name];
        metrics := metrics[name := Series(series.values + [value], series.metadata.(timestamp := now))];
      } else {
        var stamped := labels["environment" := config.environment]["version" := config.version];
        metrics := metrics[name := Series([value], MetricMetadata(now, stamped))];
      }
    }

    function GetMetric(name: string): (r: Option<MetricValue>)
      reads this
      ensures name !in metrics ==> r.None?
      ensures name in metrics ==> r == Summarize(metrics[name])
    {
      if name in metrics then Summarize(metrics[name]) else None
    }

    method Clear()
      modifies this
      ensures metrics == map[]
    {
      metrics := map[];
    }
  }

  /** After recording `value`, the series counts one more value and its sum grows by `value`. */
  lemma RecordCounts(before: Series, value: int, now: int)
    ensures var after := Series(before.values + [value], before.metadata.(timestamp := now));
      && Summarize(after).Some?
      && Summarize(after).value.count == |before.values| + 1
      && Summarize(after).value.sum == (if before.values == [] then 0 else Summarize(before).value.sum) + value
  {
    SumAppend(before.values, value);
  }

  // ----- Logger -----

  datatype LogLevel = Debug | Info | Warn | ErrorLevel | Fatal

  datatype LogEntry = LogEntry(timestamp: int, level: LogLevel, message: string, context: Attributes)

  /** The last `n` elements of `s` (all of it when shorter, none when `n <= 0`). */
  function LastN<T>(s: seq<T>, n: int): (r: seq<T>)
    ensures |r| == if n <= 0 then 0 else if |s| <= n then |s| else n
    ensures r == s[|s| - |r|..]
  {
    if n <= 0 then [] else if |s| <= n then s else s[|s| - n..]
  }

  /** One push then at most one shift: the buffer step of `log`. */
  function PushBounded<T>(buffer: seq<T>, x: T, limit: int): seq<T> {
    var pushed := buffer + [x];
    if |pushed| > limit then pushed[1..] else pushed
  }

  /** Keeping the last `limit` entries is preserved by a push and a single shift. */
  lemma PushKeepsLast<T>(history: seq<T>, x: T, limit: int)
    ensures PushBounded(LastN(history, limit), x, limit) == LastN(history + [x], limit)
  {
    var h := history + [x];
    if limit > 0 && |history| >= limit {
      assert LastN(history, limit) + [x] == h[|h| - limit - 1..];
    }
  }

  class Logger {
    const config: MonitoringConfig
    const maxLogs: int
    var logs: seq<LogEntry>
    /** Every entry logged since construction or the last `clear`. */
    ghost var history: seq<LogEntry>

    ghost predicate Valid()
      reads this
    {
      logs == LastN(history, maxLogs)
    }

    constructor (config: MonitoringConfig)
      ensures this.config == config && maxLogs == OrElse(config.maxLogRetention, DefaultMaxLogs)
      ensures logs == [] && Valid()
    {
      this.config := config;
      maxLogs := OrElse(config.maxLogRetention, DefaultMaxLogs);
      logs := [];
      history := [];
    }

    /**
     * `log`: appends an entry stamped with environment and version; the
     * buffer then holds the last `maxLogs` entries logged, oldest first.
     */
    method Log(level: LogLevel, message: string, context: Attributes, now: int)
      requires Valid()
      modifies this
      ensures Valid() && history == old(history) + [LogEntry(now, level, message, Stamp(context, config))]
      ensures logs == PushBounded(old(logs), LogEntry(now, level, message, Stamp(context, config)), maxLogs)
    {
      var entry := LogEntry(now, level, message, Stamp(context, config));
      PushKeepsLast(history, entry, maxLogs);
      logs := logs + [entry];
      if |logs| > maxLogs {
        logs := logs[1..];
      }
      history := history + [entry];
    }

    /** `getLogs`: a copy of the buffer. */
    method GetLogs() returns (r: seq<LogEntry>)
      requires Valid()
      ensures r == LastN(history, maxLogs)
    {
      r := logs;
    }

    method Clear()
      modifies this
      ensures logs == [] && history == [] && Valid()
    {
      logs := [];
      history := [];
    }
  }

  /** The buffer never holds more than `maxLogs` entries, and the newest entry is always kept when `maxLogs >= 1`. */
  lemma LogBufferBounded(history: seq<LogEntry>, entry: LogEntry, limit: int)
    requires limit >= 1
    ensures |LastN(history + [entry], limit)| <= limit
    ensures LastN(history + [entry], limit)[|LastN(history + [entry], limit)| - 1] == entry
  {
  }
}
