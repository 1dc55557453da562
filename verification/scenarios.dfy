/** Concrete collections: the worked cases of the telemetry queries, and one
    payload on which counting and naming the metrics disagree. */
module Scenarios {
  import opened Results
  import opened Json
  import opened Otlp
  import opened TelemetryModel

  function Metric(name: string): JValue {
    JObject(map[NameKey := JString(name)])
  }

  function ScopeOf(metrics: seq<JValue>): JValue {
    JObject(map[MetricSchema.leaf := JArray(metrics)])
  }

  function ResourceOf(scopes: seq<JValue>): JValue {
    JObject(map[MetricSchema.scope := JArray(scopes)])
  }

  function MetricsRequest(resources: seq<JValue>): JValue {
    JObject(map[MetricSchema.resource := JArray(resources)])
  }

  /** 2 resourceMetrics of 2 scopeMetrics of 3 metrics each count 12. */
  lemma TwelveMetrics()
    ensures
      var scope := ScopeOf([Metric("a"), Metric("b"), Metric("c")]);
      var resource := ResourceOf([scope, scope]);
      NumMetrics(AddMetric(Empty, MetricsRequest([resource, resource]), map[], 5)) == Ok(12)
  {
    var scope := ScopeOf([Metric("a"), Metric("b"), Metric("c")]);
    var resource := ResourceOf([scope, scope]);
    var msg := MetricsRequest([resource, resource]);
    var perScope := sm => WalkScope(MetricSchema, sm, Len);
    assert perScope(scope) == Ok(3);
    assert [scope, scope][1..] == [scope] && [scope][1..] == [];
    assert FoldAll([scope], perScope, 0, Plus) == Ok(3);
    assert FoldAll([scope, scope], perScope, 0, Plus) == Ok(6);
    var perResource := rm => WalkResource(MetricSchema, rm, Len, 0, Plus);
    assert perResource(resource) == Ok(6);
    assert [resource, resource][1..] == [resource] && [resource][1..] == [];
    assert FoldAll([resource], perResource, 0, Plus) == Ok(6);
    assert FoldAll([resource, resource], perResource, 0, Plus) == Ok(12);
    assert CountIn(MetricSchema, msg) == Ok(12);
    NumMetricsAfterAdd(Empty, Metrics, msg, map[], 5);
  }

  /** Two metric requests that both report "latency" give one name. */
  lemma DuplicateNamesCollapse()
    ensures
      var msg := MetricsRequest([ResourceOf([ScopeOf([Metric("latency")])])]);
      var t := AddMetric(AddMetric(Empty, msg, map[], 1), msg, map[], 2);
      MetricNames(t) == Ok({JString("latency")}) && |MetricNames(t).value| == 1
  {
    var scope := ScopeOf([Metric("latency")]);
    var msg := MetricsRequest([ResourceOf([scope])]);
    var latency := {JString("latency")};
    assert [Metric("latency")][1..] == [];
    assert NameOf(Metric("latency")) == Ok(latency);
    assert Union(latency, {}) == latency;
    assert FoldAll([Metric("latency")], NameOf, {}, Union) == Ok(latency);
    assert NamesIn(scope.fields[MetricSchema.leaf]) == Ok(latency);
    var perScope := sm => WalkScope(MetricSchema, sm, NamesIn);
    assert [scope][1..] == [];
    assert FoldAll([scope], perScope, {}, Union) == Ok(latency);
    var resource := ResourceOf([scope]);
    var perResource := rm => WalkResource(MetricSchema, rm, NamesIn, {}, Union);
    assert perResource(resource) == Ok(latency);
    assert [resource][1..] == [];
    assert FoldAll([resource], perResource, {}, Union) == Ok(latency);
    assert MetricNamesIn(msg) == Ok(latency);
    var once := AddMetric(Empty, msg, map[], 1);
    MetricNamesAfterAdd(Empty, Metrics, msg, map[], 1);
    MetricNamesAfterAdd(once, Metrics, msg, map[], 2);
  }

  /** A trace request carrying `x-test: abc` matches "abc" but neither a
      wrong value nor a header it lacks; an empty collection matches nothing. */
  lemma TraceHeaderCases()
    ensures
      var t := AddTrace(Empty, JObject(map[]), map["x-test" := "abc"], 3);
      && HasTraceHeader(t, "x-test", Some("abc"))
      && !HasTraceHeader(t, "x-test", Some("abd"))
      && !HasTraceHeader(t, "x-other", Some("abc"))
      && HasTraceHeader(t, "x-other", None)
      && !HasTraceHeader(Empty, "x-test", Some("abc"))
  {
    var t := AddTrace(Empty, JObject(map[]), map["x-test" := "abc"], 3);
    assert t.traceRequests[0].headers == map["x-test" := "abc"];
  }

  /** `len` accepts a string where looping over its entries does not: with
      `"metrics": "ab"` the request counts 2 metrics, yet its names cannot be
      collected, because the loop subscripts the character "a" with "name". */
  lemma CountWithoutNames()
    ensures
      var msg := MetricsRequest([ResourceOf([JObject(map[MetricSchema.leaf := JString("ab")])])]);
      CountIn(MetricSchema, msg) == Ok(2) && MetricNamesIn(msg) == Err(NotSubscriptable)
  {
    var scope := JObject(map[MetricSchema.leaf := JString("ab")]);
    var msg := MetricsRequest([ResourceOf([scope])]);
    var resource := ResourceOf([scope]);
    assert [scope][1..] == [] && [resource][1..] == [];
    var countScope := sm => WalkScope(MetricSchema, sm, Len);
    assert countScope(scope) == Ok(2);
    assert FoldAll([scope], countScope, 0, Plus) == Ok(2);
    var countResource := rm => WalkResource(MetricSchema, rm, Len, 0, Plus);
    assert countResource(resource) == Ok(2);
    assert FoldAll([resource], countResource, 0, Plus) == Ok(2);
    var nameScope := sm => WalkScope(MetricSchema, sm, NamesIn);
    assert nameScope(scope) == Err(NotSubscriptable);
    assert FoldAll([scope], nameScope, {}, Union) == Err(NotSubscriptable);
    var nameResource := rm => WalkResource(MetricSchema, rm, NamesIn, {}, Union);
    assert nameResource(resource) == Err(NotSubscriptable);
    assert FoldAll([resource], nameResource, {}, Union) == Err(NotSubscriptable);
  }

  /** A metric request without `resourceMetrics` makes both metric queries
      fail, whatever the other requests hold. */
  lemma MissingKeyFails(t: Telemetry, headers: map<string, string>, ms: int)
    ensures NumMetrics(AddMetric(t, JObject(map[]), headers, ms)).Err?
    ensures MetricNames(AddMetric(t, JObject(map[]), headers, ms)).Err?
  {
    NumMetricsAfterAdd(t, Metrics, JObject(map[]), headers, ms);
    MetricNamesAfterAdd(t, Metrics, JObject(map[]), headers, ms);
  }

  /** When the requests before it were fine, the failure is a KeyError for
      `resourceMetrics`. */
  lemma MissingKeyIsKeyError(t: Telemetry, headers: map<string, string>, ms: int)
    ensures NumMetrics(t).Ok? ==>
              NumMetrics(AddMetric(t, JObject(map[]), headers, ms)) == Err(KeyError(MetricSchema.resource))
    ensures MetricNames(t).Ok? ==>
              MetricNames(AddMetric(t, JObject(map[]), headers, ms)) == Err(KeyError(MetricSchema.resource))
  {
    NumMetricsAfterAdd(t, Metrics, JObject(map[]), headers, ms);
    MetricNamesAfterAdd(t, Metrics, JObject(map[]), headers, ms);
  }
}
