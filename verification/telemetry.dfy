/** The telemetry captured during one test run: each received export request
    as a `Request`, and the three lists of them that `Telemetry` keeps, with
    the queries a test's completion callback asks of them. */
module TelemetryModel {
  import opened Results
  import opened Json
  import opened Otlp

  /** One received export request: the decoded message, the transport headers
      it came with, and the milliseconds between the start of the test and its
      receipt. No field is checked: a malformed message is kept as it is. */
  datatype Request = Request(message: JValue, headers: map<string, string>, testElapsedMs: int)

  /** `get_header`: the header's value, or None when the request lacks it. */
  function GetHeader(r: Request, name: string): (v: Option<string>)
    ensures v.Some? <==> name in r.headers
    ensures v.Some? ==> v.value == r.headers[name]
  {
    if name in r.headers then Some(r.headers[name]) else None
  }

  const RequestKey := "request"
  const HeadersKey := "headers"
  const ElapsedKey := "test_elapsed_ms"

  function HeadersToJson(headers: map<string, string>): JValue {
    JObject(map k | k in headers :: JString(headers[k]))
  }

  /** The header map an object of strings spells, if it is one. */
  function HeadersFromJson(v: JValue): Option<map<string, string>> {
    if v.JObject? && forall k :: k in v.fields ==> v.fields[k].JString? then
      Some(map k | k in v.fields :: v.fields[k].str)
    else
      None
  }

  /** `Request.to_dict`: the three fixed keys, carrying the fields unchanged. */
  function RequestToDict(r: Request): (d: JValue)
    ensures d.JObject? && d.fields.Keys == {RequestKey, HeadersKey, ElapsedKey}
    ensures d.fields[RequestKey] == r.message
    ensures d.fields[ElapsedKey] == JInt(r.testElapsedMs)
    ensures d.fields[HeadersKey].JObject? && d.fields[HeadersKey].fields.Keys == r.headers.Keys
    ensures forall k :: k in r.headers ==> d.fields[HeadersKey].fields[k] == JString(r.headers[k])
  {
    JObject(map[
      RequestKey := r.message,
      HeadersKey := HeadersToJson(r.headers),
      ElapsedKey := JInt(r.testElapsedMs)])
  }

  /** Rebuilds a request from its dictionary form; None when the form has not
      got the three keys with values of the right kinds. */
  function RequestFromDict(d: JValue): Option<Request> {
    if d.JObject? && RequestKey in d.fields && HeadersKey in d.fields && ElapsedKey in d.fields
       && d.fields[ElapsedKey].JInt? && HeadersFromJson(d.fields[HeadersKey]).Some?
    then Some(Request(d.fields[RequestKey], HeadersFromJson(d.fields[HeadersKey]).value, d.fields[ElapsedKey].num))
    else None
  }

  /** The dictionary form of a request loses nothing. */
  lemma RequestDictRoundTrip(r: Request)
    ensures RequestFromDict(RequestToDict(r)) == Some(r)
  {
    var h := RequestToDict(r).fields[HeadersKey];
    assert HeadersFromJson(h).Some?;
    assert HeadersFromJson(h).value == r.headers;
  }

  /** The three kinds of signal a test run receives. */
  datatype Signal = Logs | Metrics | Traces

  /** The requests received during one test run, one list per signal, each
      in order of arrival. */
  datatype Telemetry = Telemetry(logRequests: seq<Request>, metricRequests: seq<Request>, traceRequests: seq<Request>)

  /** The list that keeps requests of kind `k`. */
  function Requests(t: Telemetry, k: Signal): seq<Request> {
    match k
    case Logs => t.logRequests
    case Metrics => t.metricRequests
    case Traces => t.traceRequests
  }

  /** `Telemetry(log_requests, metric_requests, trace_requests)`: an absent
      list starts empty. */
  function NewTelemetry(logs: Option<seq<Request>>, metrics: Option<seq<Request>>, traces: Option<seq<Request>>): Telemetry {
    Telemetry(logs.GetOr([]), metrics.GetOr([]), traces.GetOr([]))
  }

  /** `Telemetry()`, the collection a test run starts with. */
  const Empty := NewTelemetry(None, None, None)

  /** Receives one request of kind `k`: it goes at the end of that kind's
      list, and the other two lists stay as they were. */
  function Add(t: Telemetry, k: Signal, message: JValue, headers: map<string, string>, ms: int): (r: Telemetry)
    ensures Requests(r, k) == Requests(t, k) + [Request(message, headers, ms)]
    ensures forall other :: other != k ==> Requests(r, other) == Requests(t, other)
  {
    var req := Request(message, headers, ms);
    match k
    case Logs => t.(logRequests := t.logRequests + [req])
    case Metrics => t.(metricRequests := t.metricRequests + [req])
    case Traces => t.(traceRequests := t.traceRequests + [req])
  }

  /** `add_log`. */
  function AddLog(t: Telemetry, log: JValue, headers: map<string, string>, ms: int): (r: Telemetry)
    ensures r.logRequests == t.logRequests + [Request(log, headers, ms)]
    ensures r.metricRequests == t.metricRequests && r.traceRequests == t.traceRequests
  {
    Add(t, Logs, log, headers, ms)
  }

  /** `add_metric`. */
  function AddMetric(t: Telemetry, metric: JValue, headers: map<string, string>, ms: int): (r: Telemetry)
    ensures r.metricRequests == t.metricRequests + [Request(metric, headers, ms)]
    ensures r.logRequests == t.logRequests && r.traceRequests == t.traceRequests
  {
    Add(t, Metrics, metric, headers, ms)
  }

  /** `add_trace`. */
  function AddTrace(t: Telemetry, trace: JValue, headers: map<string, string>, ms: int): (r: Telemetry)
    ensures r.traceRequests == t.traceRequests + [Request(trace, headers, ms)]
    ensures r.logRequests == t.logRequests && r.metricRequests == t.metricRequests
  {
    Add(t, Traces, trace, headers, ms)
  }

  /** `get_trace_requests`. */
  function GetTraceRequests(t: Telemetry): seq<Request> {
    t.traceRequests
  }

  /** Receives `arrivals`, all of kind `k`, one after the other. */
  ghost function Receive(t: Telemetry, k: Signal, arrivals: seq<Request>): Telemetry
    decreases |arrivals|
  {
    if |arrivals| == 0 then t
    else
      var last := arrivals[|arrivals| - 1];
      Add(Receive(t, k, arrivals[..|arrivals| - 1]), k, last.message, last.headers, last.testElapsedMs)
  }

  /** Requests are kept in exact order of arrival, and receiving one kind
      leaves the other kinds' lists alone. */
  lemma {:induction false} ArrivalOrder(t: Telemetry, k: Signal, arrivals: seq<Request>)
    ensures Requests(Receive(t, k, arrivals), k) == Requests(t, k) + arrivals
    ensures forall other :: other != k ==> Requests(Receive(t, k, arrivals), other) == Requests(t, other)
    ensures k == Traces ==> GetTraceRequests(Receive(t, k, arrivals)) == t.traceRequests + arrivals
    decreases |arrivals|
  {
    if |arrivals| > 0 {
      var n := |arrivals| - 1;
      var last := arrivals[n];
      ArrivalOrder(t, k, arrivals[..n]);
      var before := Receive(t, k, arrivals[..n]);
      var after := Add(before, k, last.message, last.headers, last.testElapsedMs);
      assert Receive(t, k, arrivals) == after;
      assert Requests(after, k) == Requests(before, k) + [last];
      assert arrivals == arrivals[..n] + [last];
    }
  }

  function MetricCountOf(r: Request): Access<nat> {
    CountIn(MetricSchema, r.message)
  }

  function SpanCountOf(r: Request): Access<nat> {
    CountIn(SpanSchema, r.message)
  }

  function MetricNamesOf(r: Request): Access<set<JValue>> {
    MetricNamesIn(r.message)
  }

  /** `num_metrics`: the number of metrics over all metric requests. It
      fails, rather than returning a partial count, exactly when some metric
      request does not have the OTLP metrics shape down to a `metrics`
      collection with a length. */
  function NumMetrics(t: Telemetry): (r: Access<nat>)
    ensures r.Ok? <==>
              forall i :: 0 <= i < |t.metricRequests| ==> Conforms(MetricSchema, t.metricRequests[i].message, Len)
  {
    FoldAll(t.metricRequests, MetricCountOf, 0, Plus)
  }

  /** `metric_names`: the distinct metric names over all metric requests. It
      fails exactly when some metric request does not have the OTLP metrics
      shape down to `metrics` collections whose every entry has a hashable
      `name`. */
  function MetricNames(t: Telemetry): (r: Access<set<JValue>>)
    ensures r.Ok? <==>
              forall i :: 0 <= i < |t.metricRequests| ==> Conforms(MetricSchema, t.metricRequests[i].message, NamesIn)
  {
    FoldAll(t.metricRequests, MetricNamesOf, {}, Union)
  }

  /** `num_spans`: the number of spans over all trace requests. It fails
      exactly when some trace request does not have the OTLP traces shape
      down to a `spans` collection with a length. */
  function NumSpans(t: Telemetry): (r: Access<nat>)
    ensures r.Ok? <==>
              forall i :: 0 <= i < |t.traceRequests| ==> Conforms(SpanSchema, t.traceRequests[i].message, Len)
  {
    FoldAll(t.traceRequests, SpanCountOf, 0, Plus)
  }

  /** The loop of `has_trace_header`: true at the first request whose header
      `key` looks up to `expected`. */
  function AnyHeaderMatches(reqs: seq<Request>, key: string, expected: Option<string>): (found: bool)
    ensures found <==> exists i :: 0 <= i < |reqs| && GetHeader(reqs[i], key) == expected
    decreases |reqs|
  {
    if |reqs| == 0 then false
    else if expected == GetHeader(reqs[0], key) then true
    else
      var rest := AnyHeaderMatches(reqs[1..], key, expected);
      assert forall i :: 1 <= i < |reqs| ==> reqs[i] == reqs[1..][i - 1];
      rest
  }

  /** `has_trace_header(key, expected)`. A missing header looks up to None, so
      `expected == None` asks whether some trace request lacks the header. */
  function HasTraceHeader(t: Telemetry, key: string, expected: Option<string>): (found: bool)
    ensures found <==> exists i :: 0 <= i < |t.traceRequests| && GetHeader(t.traceRequests[i], key) == expected
  {
    AnyHeaderMatches(t.traceRequests, key, expected)
  }

  const LogRequestsKey := "log_requests"
  const MetricRequestsKey := "metric_requests"
  const TraceRequestsKey := "trace_requests"

  function RequestsToJson(reqs: seq<Request>): (v: JValue)
    ensures v.JArray? && |v.items| == |reqs|
    ensures forall i :: 0 <= i < |reqs| ==> v.items[i] == RequestToDict(reqs[i])
  {
    JArray(seq(|reqs|, i requires 0 <= i < |reqs| => RequestToDict(reqs[i])))
  }

  /** `Telemetry.to_dict`: the three fixed keys, each holding its list in
      dictionary form, in the same order and of the same length. */
  function ToDict(t: Telemetry): (d: JValue)
    ensures d.JObject? && d.fields.Keys == {LogRequestsKey, MetricRequestsKey, TraceRequestsKey}
    ensures d.fields[LogRequestsKey] == RequestsToJson(t.logRequests)
    ensures d.fields[MetricRequestsKey] == RequestsToJson(t.metricRequests)
    ensures d.fields[TraceRequestsKey] == RequestsToJson(t.traceRequests)
  {
    JObject(map[
      LogRequestsKey := RequestsToJson(t.logRequests),
      MetricRequestsKey := RequestsToJson(t.metricRequests),
      TraceRequestsKey := RequestsToJson(t.traceRequests)])
  }

  /** Rebuilds a list of requests from their dictionary forms, if every one
      is such a form. */
  function RequestsFromJson(items: seq<JValue>): (r: Option<seq<Request>>)
    ensures r.Some? ==> |r.value| == |items|
    decreases |items|
  {
    if |items| == 0 then Some([])
    else
      match (RequestFromDict(items[0]), RequestsFromJson(items[1..]))
      case (Some(first), Some(rest)) => Some([first] + rest)
      case _ => None
  }

  /** Rebuilds a collection from its dictionary form, as a collection is
      seeded from persisted data. */
  function FromDict(d: JValue): Option<Telemetry> {
    if d.JObject? && LogRequestsKey in d.fields && MetricRequestsKey in d.fields && TraceRequestsKey in d.fields
       && d.fields[LogRequestsKey].JArray? && d.fields[MetricRequestsKey].JArray? && d.fields[TraceRequestsKey].JArray?
    then
      match (RequestsFromJson(d.fields[LogRequestsKey].items),
             RequestsFromJson(d.fields[MetricRequestsKey].items),
             RequestsFromJson(d.fields[TraceRequestsKey].items))
      case (Some(logs), Some(metrics), Some(traces)) => Some(NewTelemetry(Some(logs), Some(metrics), Some(traces)))
      case _ => None
    else None
  }

  lemma {:induction false} RequestsRoundTrip(reqs: seq<Request>)
    ensures RequestsFromJson(RequestsToJson(reqs).items) == Some(reqs)
    decreases |reqs|
  {
    if |reqs| > 0 {
      var items := RequestsToJson(reqs).items;
      assert items[1..] == RequestsToJson(reqs[1..]).items;
      RequestsRoundTrip(reqs[1..]);
      RequestDictRoundTrip(reqs[0]);
      assert reqs == [reqs[0]] + reqs[1..];
    }
  }

  /** A collection rebuilt from the dictionary form of another is the same
      collection, so it answers every query alike. */
  lemma DictRoundTrip(t: Telemetry)
    ensures FromDict(ToDict(t)) == Some(t)
    ensures NumMetrics(FromDict(ToDict(t)).value) == NumMetrics(t)
    ensures NumSpans(FromDict(ToDict(t)).value) == NumSpans(t)
    ensures MetricNames(FromDict(ToDict(t)).value) == MetricNames(t)
  {
    RequestsRoundTrip(t.logRequests);
    RequestsRoundTrip(t.metricRequests);
    RequestsRoundTrip(t.traceRequests);
  }

  /** A fresh collection has nothing to count, no names, and no trace request
      to carry any header. */
  lemma FreshTelemetry(key: string, expected: Option<string>)
    ensures Empty.logRequests == [] && Empty.metricRequests == [] && Empty.traceRequests == []
    ensures NumMetrics(Empty) == Ok(0)
    ensures NumSpans(Empty) == Ok(0)
    ensures MetricNames(Empty) == Ok({})
    ensures !HasTraceHeader(Empty, key, expected)
  {
  }

  /** `num_metrics` is additive: receiving a metric request adds that
      request's count (or its error), and receiving logs or traces changes
      nothing. */
  lemma NumMetricsAfterAdd(t: Telemetry, k: Signal, message: JValue, headers: map<string, string>, ms: int)
    ensures NumMetrics(Add(t, k, message, headers, ms)) ==
              if k == Metrics then Combine(NumMetrics(t), CountIn(MetricSchema, message), Plus) else NumMetrics(t)
  {
    if k == Metrics {
      FoldAllAppend(t.metricRequests, Request(message, headers, ms), MetricCountOf, 0, Plus);
    }
  }

  /** `num_spans` is additive in the same way, and changes only when a trace
      request is received. */
  lemma NumSpansAfterAdd(t: Telemetry, k: Signal, message: JValue, headers: map<string, string>, ms: int)
    ensures NumSpans(Add(t, k, message, headers, ms)) ==
              if k == Traces then Combine(NumSpans(t), CountIn(SpanSchema, message), Plus) else NumSpans(t)
  {
    if k == Traces {
      FoldAllAppend(t.traceRequests, Request(message, headers, ms), SpanCountOf, 0, Plus);
    }
  }

  /** Receiving a metric request adds its names to `metric_names`; receiving
      logs or traces changes nothing. */
  lemma MetricNamesAfterAdd(t: Telemetry, k: Signal, message: JValue, headers: map<string, string>, ms: int)
    ensures MetricNames(Add(t, k, message, headers, ms)) ==
              if k == Metrics then Combine(MetricNames(t), MetricNamesIn(message), Union) else MetricNames(t)
  {
    if k == Metrics {
      UnionLaws();
      FoldAllAppend(t.metricRequests, Request(message, headers, ms), MetricNamesOf, {}, Union);
    }
  }

  /** Whenever `metric_names` succeeds so does `num_metrics`, and duplicate
      names collapse, so there are never more names than metrics. */
  lemma NamesWithinNumMetrics(t: Telemetry)
    ensures MetricNames(t).Ok? ==> NumMetrics(t).Ok? && |MetricNames(t).value| <= NumMetrics(t).value
  {
    var rel := (names: set<JValue>, n: nat) => |names| <= n;
    forall i | 0 <= i < |t.metricRequests| && MetricNamesOf(t.metricRequests[i]).Ok?
      ensures MetricCountOf(t.metricRequests[i]).Ok?
      ensures rel(MetricNamesOf(t.metricRequests[i]).value, MetricCountOf(t.metricRequests[i]).value)
    {
      NamesWithinCount(t.metricRequests[i].message);
    }
    forall n1, c1, n2, c2 | rel(n1, c1) && rel(n2, c2)
      ensures rel(Union(n1, n2), Plus(c1, c2))
    {
      assert |n1 + n2| <= |n1| + |n2|;
    }
    FoldAllRelated(t.metricRequests, MetricNamesOf, {}, Union, MetricCountOf, 0, Plus, rel);
  }

  function MetricLeafItemsOf(r: Request): Access<seq<JValue>> {
    LeafItems(MetricSchema, r.message)
  }

  /** The metric entries of all metric requests, in the order `metric_names`
      visits them, where every leaf collection can be looped over. */
  function AllMetricLeafItems(t: Telemetry): Access<seq<JValue>> {
    FoldAll(t.metricRequests, MetricLeafItemsOf, [], Concat)
  }

  function SpanLeafItemsOf(r: Request): Access<seq<JValue>> {
    LeafItems(SpanSchema, r.message)
  }

  /** The span entries of all trace requests, in the order `num_spans`
      visits them, where every leaf collection can be looped over. */
  function AllSpanLeafItems(t: Telemetry): Access<seq<JValue>> {
    FoldAll(t.traceRequests, SpanLeafItemsOf, [], Concat)
  }

  /** Whenever the metric entries of the whole collection can be listed,
      `num_metrics` is their number. */
  lemma NumMetricsIsAllLeaves(t: Telemetry)
    ensures AllMetricLeafItems(t).Ok? ==> NumMetrics(t) == Ok(|AllMetricLeafItems(t).value|)
  {
    var rel := (items: seq<JValue>, n: nat) => n == |items|;
    forall i | 0 <= i < |t.metricRequests| && MetricLeafItemsOf(t.metricRequests[i]).Ok?
      ensures MetricCountOf(t.metricRequests[i]).Ok?
      ensures rel(MetricLeafItemsOf(t.metricRequests[i]).value, MetricCountOf(t.metricRequests[i]).value)
    {
      CountIsLeafTotal(MetricSchema, t.metricRequests[i].message);
    }
    FoldAllRelated(t.metricRequests, MetricLeafItemsOf, [], Concat, MetricCountOf, 0, Plus, rel);
  }

  /** Whenever the span entries of the whole collection can be listed,
      `num_spans` is their number. */
  lemma NumSpansIsAllLeaves(t: Telemetry)
    ensures AllSpanLeafItems(t).Ok? ==> NumSpans(t) == Ok(|AllSpanLeafItems(t).value|)
  {
    var rel := (items: seq<JValue>, n: nat) => n == |items|;
    forall i | 0 <= i < |t.traceRequests| && SpanLeafItemsOf(t.traceRequests[i]).Ok?
      ensures SpanCountOf(t.traceRequests[i]).Ok?
      ensures rel(SpanLeafItemsOf(t.traceRequests[i]).value, SpanCountOf(t.traceRequests[i]).value)
    {
      CountIsLeafTotal(SpanSchema, t.traceRequests[i].message);
    }
    FoldAllRelated(t.traceRequests, SpanLeafItemsOf, [], Concat, SpanCountOf, 0, Plus, rel);
  }

  /** `metric_names`, when it succeeds, is exactly the set of `name` fields of
      the metric entries the walk reaches over the whole collection, and every
      one of those entries has a name. */
  lemma MetricNamesAreLeafNames(t: Telemetry)
    ensures MetricNames(t).Ok? ==>
              && AllMetricLeafItems(t).Ok?
              && (forall i :: 0 <= i < |AllMetricLeafItems(t).value| ==> Named(AllMetricLeafItems(t).value[i]))
              && MetricNames(t).value == NameSet(AllMetricLeafItems(t).value)
  {
    var rel := (names: set<JValue>, items: seq<JValue>) =>
      (forall i :: 0 <= i < |items| ==> Named(items[i])) && names == NameSet(items);
    forall i | 0 <= i < |t.metricRequests| && MetricNamesOf(t.metricRequests[i]).Ok?
      ensures MetricLeafItemsOf(t.metricRequests[i]).Ok?
      ensures rel(MetricNamesOf(t.metricRequests[i]).value, MetricLeafItemsOf(t.metricRequests[i]).value)
    {
      NamesAreLeafNames(t.metricRequests[i].message);
    }
    forall n1, i1, n2, i2 | rel(n1, i1) && rel(n2, i2)
      ensures rel(Union(n1, n2), Concat(i1, i2))
    {
      NameSetConcat(i1, i2);
    }
    FoldAllRelated(t.metricRequests, MetricNamesOf, {}, Union, MetricLeafItemsOf, [], Concat, rel);
  }

  /** `has_trace_header` looks at trace requests only: receiving a log or a
      metric request never changes its answer, and receiving a trace request
      makes it true exactly when it was already or the new request matches. */
  lemma HasTraceHeaderAfterAdd(t: Telemetry, k: Signal, message: JValue, headers: map<string, string>, ms: int,
                               key: string, expected: Option<string>)
    ensures HasTraceHeader(Add(t, k, message, headers, ms), key, expected) <==>
              HasTraceHeader(t, key, expected) || (k == Traces && GetHeader(Request(message, headers, ms), key) == expected)
  {
    var after := Add(t, k, message, headers, ms);
    if k == Traces {
      assert forall i :: 0 <= i < |t.traceRequests| ==> after.traceRequests[i] == t.traceRequests[i];
      assert after.traceRequests[|t.traceRequests|] == Request(message, headers, ms);
    }
  }

  /** Asking for None asks whether some trace request lacks the header. */
  lemma NoneMatchesMissingHeader(t: Telemetry, key: string)
    ensures HasTraceHeader(t, key, None) <==> exists i :: 0 <= i < |t.traceRequests| && key !in t.traceRequests[i].headers
  {
  }
}
