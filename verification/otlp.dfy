/** The OTLP export request shape the telemetry queries walk:
    `resourceMetrics[].scopeMetrics[].metrics[]` for metrics and
    `resourceSpans[].scopeSpans[].spans[]` for traces. */
module Otlp {
  import opened Results
  import opened Json

  /** The keys of the three nested levels: `request[resource][i][scope][j][leaf]`. */
  datatype Schema = Schema(resource: string, scope: string, leaf: string)

  const MetricSchema := Schema("resourceMetrics", "scopeMetrics", "metrics")
  const SpanSchema := Schema("resourceSpans", "scopeSpans", "spans")

  /** The key of a metric's name inside a `metrics` entry. */
  const NameKey := "name"

  function Plus(a: nat, b: nat): nat { a + b }

  function Concat(a: seq<JValue>, b: seq<JValue>): seq<JValue> { a + b }

  function Union(a: set<JValue>, b: set<JValue>): set<JValue> { a + b }

  /** Adding to a set starts from the empty set and does not depend on how
      the additions are grouped. */
  lemma UnionLaws()
    ensures forall a :: Union({}, a) == a && Union(a, {}) == a
    ensures forall a, b, c :: Union(Union(a, b), c) == Union(a, Union(b, c))
  {
    forall a: set<JValue> ensures Union({}, a) == a && Union(a, {}) == a {
      assert {} + a == a;
    }
    forall a: set<JValue>, b: set<JValue>, c: set<JValue> ensures Union(Union(a, b), c) == Union(a, Union(b, c)) {
      assert (a + b) + c == a + (b + c);
    }
  }

  /** The nested loops
        for rm in msg[resource]:
          for sm in rm[scope]:
            visit(sm[leaf])
      adding up the visits in order and stopping at the first exception. It
      fails, instead of returning a partial total, exactly when some level of
      the request lacks its key or holds something it cannot loop over, or
      `visit` rejects some leaf collection. */
  function Walk<A>(s: Schema, msg: JValue, visit: JValue -> Access<A>, zero: A, plus: (A, A) -> A): (r: Access<A>)
    ensures r.Ok? <==> Conforms(s, msg, visit)
  {
    var resources :- Subscript(msg, s.resource);
    var rms :- Records(resources);
    FoldAll(rms, rm => WalkResource(s, rm, visit, zero, plus), zero, plus)
  }

  /** The inner loop of `Walk`, over one resource entry `rm`. */
  function WalkResource<A>(s: Schema, rm: JValue, visit: JValue -> Access<A>, zero: A, plus: (A, A) -> A): (r: Access<A>)
    ensures r.Ok? <==> ResourceConforms(s, rm, visit)
  {
    var scopes :- Subscript(rm, s.scope);
    var sms :- Records(scopes);
    FoldAll(sms, sm => WalkScope(s, sm, visit), zero, plus)
  }

  /** The body of the inner loop, on one scope entry `sm`. */
  function WalkScope<A>(s: Schema, sm: JValue, visit: JValue -> Access<A>): (r: Access<A>)
    ensures r.Ok? <==> ScopeConforms(s, sm, visit)
    ensures r.Err? && sm.JObject? && s.leaf !in sm.fields ==> r.error == KeyError(s.leaf)
  {
    var leaves :- Subscript(sm, s.leaf);
    visit(leaves)
  }

  /** A scope entry the inner loop body gets through: a dict holding the leaf
      key, whose value `visit` accepts. */
  ghost predicate ScopeConforms<A>(s: Schema, sm: JValue, visit: JValue -> Access<A>) {
    sm.JObject? && s.leaf in sm.fields && visit(sm.fields[s.leaf]).Ok?
  }

  /** A resource entry whose scope key holds a loopable collection of
      conforming scope entries. */
  ghost predicate ResourceConforms<A>(s: Schema, rm: JValue, visit: JValue -> Access<A>) {
    && rm.JObject?
    && s.scope in rm.fields
    && var sms := Records(rm.fields[s.scope]);
    && sms.Ok?
    && forall j :: 0 <= j < |sms.value| ==> ScopeConforms(s, sms.value[j], visit)
  }

  /** A request whose every level has the key the walk subscripts with, and
      whose leaves `visit` accepts. */
  ghost predicate Conforms<A>(s: Schema, msg: JValue, visit: JValue -> Access<A>) {
    && msg.JObject?
    && s.resource in msg.fields
    && var rms := Records(msg.fields[s.resource]);
    && rms.Ok?
    && forall i :: 0 <= i < |rms.value| ==> ResourceConforms(s, rms.value[i], visit)
  }

  /** Two walks over the same request with visits related by `rel`: when the
      first succeeds, so does the second, and the totals are related too. */
  lemma WalkRelated<A, B>(
    s: Schema, msg: JValue,
    va: JValue -> Access<A>, za: A, pa: (A, A) -> A,
    vb: JValue -> Access<B>, zb: B, pb: (B, B) -> B,
    rel: (A, B) -> bool)
    requires rel(za, zb)
    requires forall a1, b1, a2, b2 :: rel(a1, b1) && rel(a2, b2) ==> rel(pa(a1, a2), pb(b1, b2))
    requires forall v :: va(v).Ok? ==> vb(v).Ok? && rel(va(v).value, vb(v).value)
    ensures Walk(s, msg, va, za, pa).Ok? ==>
              Walk(s, msg, vb, zb, pb).Ok? && rel(Walk(s, msg, va, za, pa).value, Walk(s, msg, vb, zb, pb).value)
  {
    if Walk(s, msg, va, za, pa).Ok? {
      var rms := Records(msg.fields[s.resource]).value;
      forall i | 0 <= i < |rms| && WalkResource(s, rms[i], va, za, pa).Ok?
        ensures WalkResource(s, rms[i], vb, zb, pb).Ok?
        ensures rel(WalkResource(s, rms[i], va, za, pa).value, WalkResource(s, rms[i], vb, zb, pb).value)
      {
        var sms := Records(rms[i].fields[s.scope]).value;
        FoldAllRelated(sms, sm => WalkScope(s, sm, va), za, pa, sm => WalkScope(s, sm, vb), zb, pb, rel);
      }
      FoldAllRelated(rms, rm => WalkResource(s, rm, va, za, pa), za, pa,
                     rm => WalkResource(s, rm, vb, zb, pb), zb, pb, rel);
    }
  }

  /** `sum(len(sm[leaf]))` over one request: its number of metrics or spans. */
  function CountIn(s: Schema, msg: JValue): Access<nat> {
    Walk(s, msg, Len, 0, Plus)
  }

  /** The leaf entries of one request, in the order the loops visit them,
      where every leaf collection can be looped over. */
  function LeafItems(s: Schema, msg: JValue): Access<seq<JValue>> {
    Walk(s, msg, Records, [], Concat)
  }

  /** `{metric["name"]}`: one metric entry's contribution to the name set. */
  function NameOf(metric: JValue): (r: Access<set<JValue>>)
    ensures r.Ok? <==> Named(metric)
    ensures r.Ok? ==> r.value == {metric.fields[NameKey]}
  {
    var name :- Subscript(metric, NameKey);
    if Hashable(name) then Ok({name}) else Err(Unhashable)
  }

  /** The names of the metrics in one `metrics` collection, looped over in order. */
  function NamesIn(leaves: JValue): Access<set<JValue>> {
    var metrics :- Records(leaves);
    FoldAll(metrics, NameOf, {}, Union)
  }

  /** The metric names of one request. */
  function MetricNamesIn(msg: JValue): Access<set<JValue>> {
    Walk(MetricSchema, msg, NamesIn, {}, Union)
  }

  /** A leaf entry that has a name a set accepts. */
  ghost predicate Named(item: JValue) {
    item.JObject? && NameKey in item.fields && Hashable(item.fields[NameKey])
  }

  /** The distinct names of the named entries among `items`. */
  ghost function NameSet(items: seq<JValue>): set<JValue> {
    set i | i in items && Named(i) :: i.fields[NameKey]
  }

  lemma NameSetConcat(a: seq<JValue>, b: seq<JValue>)
    ensures NameSet(a + b) == NameSet(a) + NameSet(b)
  {
    assert forall i :: i in a + b <==> i in a || i in b;
  }

  /** Duplicates collapse, so there are never more names than entries. */
  lemma {:induction false} NameSetBound(items: seq<JValue>)
    ensures |NameSet(items)| <= |items|
    decreases |items|
  {
    if |items| > 0 {
      assert items == [items[0]] + items[1..];
      NameSetConcat([items[0]], items[1..]);
      NameSetBound(items[1..]);
      var first := NameSet([items[0]]);
      if Named(items[0]) {
        assert first == {items[0].fields[NameKey]};
      } else {
        assert first == {};
      }
      assert |first + NameSet(items[1..])| <= |first| + |NameSet(items[1..])|;
    }
  }

  /** Collecting names over a list of entries succeeds exactly when every
      entry is named, and then collects the set of their names. */
  lemma {:induction false} NamesOfEntries(metrics: seq<JValue>)
    ensures FoldAll(metrics, NameOf, {}, Union).Ok? <==> forall i :: 0 <= i < |metrics| ==> Named(metrics[i])
    ensures FoldAll(metrics, NameOf, {}, Union).Ok? ==> FoldAll(metrics, NameOf, {}, Union).value == NameSet(metrics)
    decreases |metrics|
  {
    assert forall i :: 0 <= i < |metrics| ==> (NameOf(metrics[i]).Ok? <==> Named(metrics[i]));
    if |metrics| > 0 && FoldAll(metrics, NameOf, {}, Union).Ok? {
      NamesOfEntries(metrics[1..]);
      assert metrics == [metrics[0]] + metrics[1..];
      NameSetConcat([metrics[0]], metrics[1..]);
      assert NameSet([metrics[0]]) == {metrics[0].fields[NameKey]};
    }
  }

  /** Whenever the leaf entries of a request can be looped over, the count is
      their number. */
  lemma CountIsLeafTotal(s: Schema, msg: JValue)
    ensures LeafItems(s, msg).Ok? ==> CountIn(s, msg) == Ok(|LeafItems(s, msg).value|)
  {
    var rel := (items: seq<JValue>, n: nat) => n == |items|;
    forall v | Records(v).Ok?
      ensures Len(v).Ok? && rel(Records(v).value, Len(v).value)
    {
    }
    WalkRelated(s, msg, Records, [], Concat, Len, 0, Plus, rel);
  }

  /** The metric names of a request, when they can be collected, are exactly
      the names of its leaf entries, every one of which is named. */
  lemma NamesAreLeafNames(msg: JValue)
    ensures MetricNamesIn(msg).Ok? ==>
              && LeafItems(MetricSchema, msg).Ok?
              && (forall i :: 0 <= i < |LeafItems(MetricSchema, msg).value| ==> Named(LeafItems(MetricSchema, msg).value[i]))
              && MetricNamesIn(msg).value == NameSet(LeafItems(MetricSchema, msg).value)
  {
    var rel := (names: set<JValue>, items: seq<JValue>) =>
      (forall i :: 0 <= i < |items| ==> Named(items[i])) && names == NameSet(items);
    forall v | NamesIn(v).Ok?
      ensures Records(v).Ok? && rel(NamesIn(v).value, Records(v).value)
    {
      NamesOfEntries(Records(v).value);
    }
    forall n1, i1, n2, i2 | rel(n1, i1) && rel(n2, i2)
      ensures rel(Union(n1, n2), Concat(i1, i2))
    {
      NameSetConcat(i1, i2);
    }
    WalkRelated(MetricSchema, msg, NamesIn, {}, Union, Records, [], Concat, rel);
  }

  /** When the names of a request can be collected, so can its count, and
      there are no more names than metrics. */
  lemma NamesWithinCount(msg: JValue)
    ensures MetricNamesIn(msg).Ok? ==>
              CountIn(MetricSchema, msg).Ok? && |MetricNamesIn(msg).value| <= CountIn(MetricSchema, msg).value
  {
    NamesAreLeafNames(msg);
    CountIsLeafTotal(MetricSchema, msg);
    if MetricNamesIn(msg).Ok? {
      NameSetBound(LeafItems(MetricSchema, msg).value);
    }
  }
}
