# oteltest telemetry model

A Dafny model of the telemetry that the `oteltest` harness captures while an
instrumented script runs, and of the queries a test's `on_stop` callback asks
of it (`util/oteltest/src/oteltest/__init__.py`).

- A **`Request`** is one received OTLP export request: the decoded message,
  the transport headers it came with, and the milliseconds since the test
  started. It offers `get_header` (a header's value, or `None`) and `to_dict`
  (a dictionary with the three fixed keys `request`, `headers`,
  `test_elapsed_ms`).
- A **`Telemetry`** keeps three append-only lists of requests, for logs,
  metrics and traces, each in order of arrival. `add_log`, `add_metric` and
  `add_trace` append; `num_metrics` and `num_spans` count the entries of the
  OTLP shapes `resourceMetrics[].scopeMetrics[].metrics[]` and
  `resourceSpans[].scopeSpans[].spans[]`; `metric_names` collects the metric
  names of the same walk as a set; `has_trace_header` asks whether some trace
  request has a header with a given value; `to_dict` gives the three lists in
  dictionary form.

The model is functional. A decoded message is a `JValue` (dict, list, str,
int or None). `Telemetry` is a datatype of three sequences, and the appends
are functions that return the new collection. The queries return a `Result`
that fails where Python raises `KeyError` or `TypeError`. The Python
operations the queries apply to a message live in module `Json`:

- `v[key]`: fails with `KeyError` on a dict without the key and with
  `TypeError` on anything else.
- `for x in v`: the loop body always subscripts `x` with a string, so a list
  yields its items, an empty dict or str runs no rounds, a non-empty dict or
  str fails on its first item (a str key or character), and an int or None is
  not iterable.
- `len(v)`: works on dicts, lists and strs.
- `set.add(v)`: refuses dicts and lists.

The loops of `num_metrics`, `metric_names` and `num_spans` are all one generic
fold, `FoldAll`, that stops at the first error. The loops over one request's resource and scope entries are one walk, `Otlp.Walk`, with a visitor
applied to each `sm[leaf]`. `len` gives the counts, and collecting the
`name` of each entry gives the names.

The source has no inverse of `to_dict`. The model adds one,
`RequestFromDict` and `FromDict`, so that the dictionary form can be shown to
lose nothing. A collection can be seeded from given lists, and that is how a
collection would be rebuilt from its dictionary form.

Files: `results.dfy` (Option, Result), `json.dfy` (payload values, Python
access, the fold), `otlp.dfy` (the OTLP walk and its instances),
`telemetry.dfy` (Request, Telemetry and their properties), `scenarios.dfy`
(concrete cases).

In these corner cases the model follows the code:

- `has_trace_header(key, None)` is true when some trace request lacks `key`.
  The comparison is `expected == headers.get(key)`, so this is not a "header
  present with value" test.
- `num_metrics` and `num_spans` take `len` of the leaf collection. A `metrics`
  value that is a dict or a str is counted, by its number of keys or
  characters. `metric_names` loops over the same value and fails on it when it is non-empty. So
  `num_metrics` can succeed where `metric_names` fails.
- `test_elapsed_ms` is not checked to be non-negative, and a malformed message
  is stored as it is.

## Model

| member | source | states |
|---|---|---|
| `Json.Subscript` | util/oteltest/src/oteltest/__init__.py:131-142 | `v[key]` succeeds exactly on a dict holding the key and gives its value; it raises `KeyError` on a dict without the key and a `TypeError` on anything else |
| `Json.Records` | util/oteltest/src/oteltest/__init__.py:131-141 | a loop whose body subscripts each item with a string runs over a list's items; a dict or str lets the loop run exactly when its `len` is 0; whenever the loop can run, `len` of the value is its number of rounds; an int or None is not iterable |
| `Json.Len` | util/oteltest/src/oteltest/__init__.py:133 | `len(v)` succeeds exactly on a dict, list or str |
| `Json.Hashable` | util/oteltest/src/oteltest/__init__.py:142 | `set.add` refuses a dict or a list; its contract is in `Otlp.NameOf` and `Otlp.NamesOfEntries` |
| `Json.FoldAll` | util/oteltest/src/oteltest/__init__.py:128-134 | an accumulating loop over requests or entries succeeds exactly when every item's step succeeds; on failure its error is the error of one of the items |
| `Json.FoldAllConcat` | util/oteltest/src/oteltest/__init__.py:128-134 | looping over `xs + ys` reports the first error of `xs`, else that of `ys`, else the sum of the two totals |
| `Json.FoldAllAppend` | util/oteltest/src/oteltest/__init__.py:128-134 | one more item at the end of the loop combines the old result with that item's result |
| `Json.FoldAllRelated` | util/oteltest/src/oteltest/__init__.py:128-143 | two loops over the same items whose per-item results are related end related, and if the first succeeds so does the second |
| `Otlp.Walk` | util/oteltest/src/oteltest/__init__.py:130-133 | the nested walk fails, instead of giving a partial total, exactly when the request lacks the resource key or holds something there it cannot loop over, or some resource entry fails |
| `Otlp.WalkResource` | util/oteltest/src/oteltest/__init__.py:131-133 | one resource entry's walk succeeds exactly when it is a dict holding the scope key, whose value can be looped over, and every scope entry succeeds |
| `Otlp.WalkScope` | util/oteltest/src/oteltest/__init__.py:132-133 | one scope entry's visit succeeds exactly when it is a dict holding the leaf key and the visit accepts the value; a dict without the key raises `KeyError` |
| `Otlp.CountIn` | util/oteltest/src/oteltest/__init__.py:130-133 | one request's count of metrics or spans; its contract is in `Otlp.CountIsLeafTotal` |
| `Otlp.NameOf` | util/oteltest/src/oteltest/__init__.py:142 | one metric entry contributes exactly its `name` when it is a dict with a hashable `name`, and fails otherwise |
| `Otlp.NamesIn` | util/oteltest/src/oteltest/__init__.py:141-142 | the names of one `metrics` collection; its contract is in `Otlp.NamesOfEntries` |
| `Otlp.MetricNamesIn` | util/oteltest/src/oteltest/__init__.py:139-142 | one request's metric names; its contract is in `Otlp.NamesAreLeafNames` and `Otlp.NamesWithinCount` |
| `Otlp.WalkRelated` | util/oteltest/src/oteltest/__init__.py:131-142 | two walks over one request with related visits succeed together in one direction and give related totals |
| `Otlp.CountIsLeafTotal` | util/oteltest/src/oteltest/__init__.py:131-133 | whenever a request's leaf entries can be listed in visiting order, its count is their number |
| `Otlp.NamesOfEntries` | util/oteltest/src/oteltest/__init__.py:141-142 | collecting the names of a list of metric entries succeeds exactly when every entry has a hashable `name`, and then gives the set of those names |
| `Otlp.NamesAreLeafNames` | util/oteltest/src/oteltest/__init__.py:136-143 | a request's metric names, when they can be collected, are exactly the names of its leaf entries, each of which has a name |
| `Otlp.NameSetBound` | util/oteltest/src/oteltest/__init__.py:136-143 | duplicate names collapse, so a list of entries never has more distinct names than entries |
| `Otlp.NamesWithinCount` | util/oteltest/src/oteltest/__init__.py:128-143 | if a request's names can be collected, its count succeeds too and is at least the number of names |
| `TelemetryModel.GetHeader` | util/oteltest/src/oteltest/__init__.py:87-88 | `get_header` gives a value exactly when the request has the header, and then the header's value; otherwise None |
| `TelemetryModel.RequestToDict` | util/oteltest/src/oteltest/__init__.py:93-98 | a request's dictionary form has exactly the keys `request`, `headers`, `test_elapsed_ms`, carrying message, headers and elapsed time unchanged |
| `TelemetryModel.RequestDictRoundTrip` | util/oteltest/src/oteltest/__init__.py:93-98 | a request rebuilt from its dictionary form is the same request |
| `TelemetryModel.Add` | util/oteltest/src/oteltest/__init__.py:116-123 | receiving a request of one kind puts it at the end of that kind's list, keeps the earlier entries in order, and leaves the other two lists unchanged |
| `TelemetryModel.AddLog` | util/oteltest/src/oteltest/__init__.py:116-117 | `add_log` appends `Request(log, headers, ms)` to the log list only |
| `TelemetryModel.AddMetric` | util/oteltest/src/oteltest/__init__.py:119-120 | `add_metric` appends `Request(metric, headers, ms)` to the metric list only |
| `TelemetryModel.AddTrace` | util/oteltest/src/oteltest/__init__.py:122-123 | `add_trace` appends `Request(trace, headers, ms)` to the trace list only |
| `TelemetryModel.ArrivalOrder` | util/oteltest/src/oteltest/__init__.py:116-126 | after any run of arrivals of one kind, that kind's list (and `get_trace_requests` for traces) is the old list followed by the arrivals in order, and the other lists are unchanged |
| `TelemetryModel.AnyHeaderMatches` | util/oteltest/src/oteltest/__init__.py:154-158 | the early-return loop finds a match exactly when some request's header lookup equals the expected value |
| `TelemetryModel.HasTraceHeader` | util/oteltest/src/oteltest/__init__.py:153-158 | `has_trace_header(key, expected)` is true exactly when some trace request's `get_header(key)` equals `expected` |
| `TelemetryModel.HasTraceHeaderAfterAdd` | util/oteltest/src/oteltest/__init__.py:153-158 | log and metric arrivals never change `has_trace_header`; a trace arrival makes it true exactly when it already was or the new request matches |
| `TelemetryModel.NoneMatchesMissingHeader` | util/oteltest/src/oteltest/__init__.py:87-88 | because a missing header reads as None, `has_trace_header(key, None)` asks whether some trace request lacks `key` |
| `TelemetryModel.RequestsToJson` | util/oteltest/src/oteltest/__init__.py:165-167 | a list's dictionary form has the same length and holds each request's dictionary form at the same position |
| `TelemetryModel.ToDict` | util/oteltest/src/oteltest/__init__.py:163-168 | `to_dict` has exactly the keys `log_requests`, `metric_requests`, `trace_requests`, each the order- and length-preserving dictionary form of its list |
| `TelemetryModel.RequestsFromJson` | util/oteltest/src/oteltest/__init__.py:165-167 | a list rebuilt from dictionary forms has one request per form |
| `TelemetryModel.RequestsRoundTrip` | util/oteltest/src/oteltest/__init__.py:165-167 | a list of requests rebuilt from its dictionary form is the same list |
| `TelemetryModel.DictRoundTrip` | util/oteltest/src/oteltest/__init__.py:163-168 | a collection rebuilt from `to_dict` is the same collection and reports the same `num_metrics`, `num_spans` and `metric_names` |
| `TelemetryModel.FreshTelemetry` | util/oteltest/src/oteltest/__init__.py:106-114 | a fresh collection has three empty lists, no metrics, no spans, no names, and `has_trace_header` is false for every key and expected value |
| `TelemetryModel.NewTelemetry` | util/oteltest/src/oteltest/__init__.py:106-114 | `Telemetry(...)` keeps each given list and starts an absent one empty; its contract is in `TelemetryModel.FreshTelemetry` |
| `TelemetryModel.GetTraceRequests` | util/oteltest/src/oteltest/__init__.py:125-126 | the trace requests in arrival order; its contract is in `TelemetryModel.ArrivalOrder` |
| `TelemetryModel.NumMetrics` | util/oteltest/src/oteltest/__init__.py:128-134 | `num_metrics` fails, rather than returning a partial count, exactly when some metric request lacks `resourceMetrics`, `scopeMetrics` or `metrics`, or holds at one of them something it cannot loop over or take the length of |
| `TelemetryModel.MetricNames` | util/oteltest/src/oteltest/__init__.py:136-143 | `metric_names` fails exactly when some metric request lacks a level of the shape or a metric entry lacks a hashable `name` |
| `TelemetryModel.MetricNamesAreLeafNames` | util/oteltest/src/oteltest/__init__.py:136-143 | over the whole collection, `metric_names` when it succeeds is exactly the set of `name` fields of the metric entries the walk reaches, each of which has a name |
| `TelemetryModel.NumMetricsIsAllLeaves` | util/oteltest/src/oteltest/__init__.py:128-134 | whenever the metric entries of the whole collection can be listed in visiting order, `num_metrics` is their number |
| `TelemetryModel.NumSpansIsAllLeaves` | util/oteltest/src/oteltest/__init__.py:145-151 | whenever the span entries of the whole collection can be listed in visiting order, `num_spans` is their number |
| `TelemetryModel.NumSpans` | util/oteltest/src/oteltest/__init__.py:145-151 | `num_spans` fails exactly when some trace request lacks `resourceSpans`, `scopeSpans` or `spans`, or holds at one of them something it cannot loop over or take the length of |
| `TelemetryModel.NumMetricsAfterAdd` | util/oteltest/src/oteltest/__init__.py:128-134 | `num_metrics` is additive: a metric arrival adds that request's count (or brings its error), and log or trace arrivals leave it unchanged |
| `TelemetryModel.NumSpansAfterAdd` | util/oteltest/src/oteltest/__init__.py:145-151 | `num_spans` is additive under trace arrivals and unchanged by log or metric arrivals |
| `TelemetryModel.MetricNamesAfterAdd` | util/oteltest/src/oteltest/__init__.py:136-143 | a metric arrival adds its names to `metric_names` (or brings its error); log or trace arrivals leave it unchanged |
| `TelemetryModel.NamesWithinNumMetrics` | util/oteltest/src/oteltest/__init__.py:128-143 | whenever `metric_names` succeeds, `num_metrics` succeeds and is at least the number of names |
| `Scenarios.TwelveMetrics` | util/oteltest/src/oteltest/__init__.py:128-134 | 2 resource entries of 2 scope entries of 3 metrics count 12 |
| `Scenarios.DuplicateNamesCollapse` | util/oteltest/src/oteltest/__init__.py:136-143 | two metric requests that both name `latency` give the one-element set of names |
| `Scenarios.TraceHeaderCases` | util/oteltest/src/oteltest/__init__.py:153-158 | a matching header is found; a wrong value, a missing key and an empty collection are not; None matches a missing key |
| `Scenarios.CountWithoutNames` | util/oteltest/src/oteltest/__init__.py:131-142 | with `"metrics": "ab"` a request counts 2 metrics while collecting its names raises `TypeError` |
| `Scenarios.MissingKeyFails` | util/oteltest/src/oteltest/__init__.py:131-139 | a metric request without `resourceMetrics` makes both `num_metrics` and `metric_names` fail, whatever else was received |
| `Scenarios.MissingKeyIsKeyError` | util/oteltest/src/oteltest/__init__.py:131-139 | when the earlier requests give `num_metrics` and `metric_names` a value, adding a metric request without `resourceMetrics` makes each fail with a `KeyError` for `resourceMetrics` |

## Left out

- The `OtelTest` abstract base class (lines 22-74): it is an interface with no behaviour, and the harness that calls it is not part of this model.
- `Request.to_json`, `Telemetry.to_json` and `Telemetry.__str__` (lines 90-91, 160-161, 170-171): they only render `to_dict` with `json.dumps`, whose formatting is library behaviour. The model stops at the dictionary form.
- The aliasing of `log_requests or []` (lines 112-114): in a value model an empty list given by the caller and a list made fresh cannot be told apart, so `NewTelemetry` simply keeps a given list or starts empty.
- The aliasing of `get_trace_requests` (lines 125-126): Python hands out the live list, so a caller's append changes the collection. A value model returns a copy and cannot show this.
- Concurrency: appends arriving from several receiving threads are not modelled. The source has no locking.
- Floating point: the wait time `on_start` returns belongs to the interface left out above.
- Payload values: floats and booleans are not modelled. An OTLP message decoded to plain mappings does not need them on the paths the queries walk.
- Dict iteration order: iterating a non-empty dict or str fails on its first item whatever that item is, so the model does not fix an order for dict keys.
- TelemetryModel.HasTraceHeader: the expected value is a string or None. Python would accept any object there, and one of another type never equals a header lookup.
