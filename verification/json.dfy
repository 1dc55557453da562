/** Decoded telemetry payloads, and the few Python operations the telemetry
    queries apply to them: subscripting with a string key, iterating, `len`
    and adding to a set. Each operation fails exactly where Python raises. */
module Json {
  import opened Results

  /** A decoded OTLP export request: nested dicts and lists of strings and
      integers, as a protocol-buffer message rendered to plain mappings. */
  datatype JValue =
    | JObject(fields: map<string, JValue>)
    | JArray(items: seq<JValue>)
    | JString(str: string)
    | JInt(num: int)
    | JNull

  /** The exceptions raised while walking a payload. `KeyError` is raised by a
      dict that lacks the key; all the others are Python `TypeError`s. */
  datatype AccessError =
    | KeyError(key: string)
    | NotSubscriptable  // `v[key]` where v is a list, str, int or None
    | NotIterable       // `for x in v` where v is an int or None
    | NoLength          // `len(v)` where v is an int or None
    | Unhashable        // `set.add(v)` where v is a dict or list

  type Access<T> = Result<T, AccessError>

  /** Python's `v[key]` for a string key. */
  function Subscript(v: JValue, key: string): (r: Access<JValue>)
    ensures r.Ok? <==> v.JObject? && key in v.fields
    ensures r.Ok? ==> r.value == v.fields[key]
    ensures r.Err? ==> (r.error == KeyError(key) <==> v.JObject?)
  {
    match v
    case JObject(fields) => if key in fields then Ok(fields[key]) else Err(KeyError(key))
    case _ => Err(NotSubscriptable)
  }

  /** The items a loop `for x in v:` hands to a body that starts by
      subscripting `x` with a string key, which every loop of the telemetry
      queries does. A list yields its items. A dict yields its keys and a str
      yields one-character strs; subscripting a str with a str raises, so a
      non-empty dict or str fails on its first item whatever the iteration
      order, and an empty one runs the body zero times. Whenever the loop can
      run, `len(v)` is its number of rounds. */
  function Records(v: JValue): (r: Access<seq<JValue>>)
    ensures v.JArray? ==> r == Ok(v.items)
    ensures (v.JObject? || v.JString?) ==> (r.Ok? <==> Len(v) == Ok(0))
    ensures r.Ok? ==> Len(v) == Ok(|r.value|)
    ensures Len(v).Err? ==> r == Err(NotIterable)
  {
    match v
    case JArray(items) => Ok(items)
    case JObject(fields) => if |fields| == 0 then Ok([]) else Err(NotSubscriptable)
    case JString(s) => if |s| == 0 then Ok([]) else Err(NotSubscriptable)
    case _ => Err(NotIterable)
  }

  /** Python's `len(v)`. */
  function Len(v: JValue): (r: Access<nat>)
    ensures r.Ok? <==> !v.JInt? && !v.JNull?
  {
    match v
    case JObject(fields) => Ok(|fields|)
    case JArray(items) => Ok(|items|)
    case JString(s) => Ok(|s|)
    case _ => Err(NoLength)
  }

  /** Values a Python set accepts: dicts and lists are unhashable. */
  predicate Hashable(v: JValue) {
    !v.JObject? && !v.JArray?
  }

  /** The first error, or else both values combined: what a loop that adds
      two partial results reports. */
  function Combine<A>(x: Access<A>, y: Access<A>, plus: (A, A) -> A): Access<A> {
    var a :- x;
    var b :- y;
    Ok(plus(a, b))
  }

  /** A loop over `xs` that adds up `f` of each item, leaving at the first
      item whose `f` raises with that item's error. */
  function FoldAll<X, A>(xs: seq<X>, f: X -> Access<A>, zero: A, plus: (A, A) -> A): (r: Access<A>)
    ensures r.Ok? <==> forall i :: 0 <= i < |xs| ==> f(xs[i]).Ok?
    ensures r.Err? ==> exists i :: 0 <= i < |xs| && f(xs[i]) == Err(r.error)
    decreases |xs|
  {
    if |xs| == 0 then Ok(zero)
    else
      var head :- f(xs[0]);
      var rest :- FoldAll(xs[1..], f, zero, plus);
      Ok(plus(head, rest))
  }

  // The helpers below apply a quantified premise to values read out of a
  // function application, which the verifier does not do unaided.

  lemma Associate<A>(plus: (A, A) -> A, a: A, b: A, c: A)
    requires forall x, y, z :: plus(plus(x, y), z) == plus(x, plus(y, z))
    ensures plus(plus(a, b), c) == plus(a, plus(b, c))
  {
  }

  lemma RightIdentity<A>(plus: (A, A) -> A, zero: A, a: A)
    requires forall x :: plus(x, zero) == x
    ensures plus(a, zero) == a
  {
  }

  lemma RelatedSums<A, B>(rel: (A, B) -> bool, pa: (A, A) -> A, pb: (B, B) -> B, a1: A, b1: B, a2: A, b2: B)
    requires forall x1, y1, x2, y2 :: rel(x1, y1) && rel(x2, y2) ==> rel(pa(x1, x2), pb(y1, y2))
    requires rel(a1, b1) && rel(a2, b2)
    ensures rel(pa(a1, a2), pb(b1, b2))
  {
  }

  /** Splitting the loop: running it over `xs + ys` reports what running it
      over `xs` and then over `ys` reports. */
  lemma {:induction false} FoldAllConcat<X, A>(xs: seq<X>, ys: seq<X>, f: X -> Access<A>, zero: A, plus: (A, A) -> A)
    requires forall a :: plus(zero, a) == a
    requires forall a, b, c :: plus(plus(a, b), c) == plus(a, plus(b, c))
    ensures FoldAll(xs + ys, f, zero, plus) == Combine(FoldAll(xs, f, zero, plus), FoldAll(ys, f, zero, plus), plus)
    decreases |xs|
  {
    if |xs| == 0 {
      assert xs + ys == ys;
    } else {
      assert (xs + ys)[0] == xs[0];
      assert (xs + ys)[1..] == xs[1..] + ys;
      FoldAllConcat(xs[1..], ys, f, zero, plus);
      var tail, right := FoldAll(xs[1..], f, zero, plus), FoldAll(ys, f, zero, plus);
      if f(xs[0]).Ok? && tail.Ok? && right.Ok? {
        Associate(plus, f(xs[0]).value, tail.value, right.value);
      }
    }
  }

  /** Adding one more item at the end of the loop: the old result combined
      with the new item's. */
  lemma FoldAllAppend<X, A>(xs: seq<X>, x: X, f: X -> Access<A>, zero: A, plus: (A, A) -> A)
    requires forall a :: plus(zero, a) == a
    requires forall a :: plus(a, zero) == a
    requires forall a, b, c :: plus(plus(a, b), c) == plus(a, plus(b, c))
    ensures FoldAll(xs + [x], f, zero, plus) == Combine(FoldAll(xs, f, zero, plus), f(x), plus)
  {
    FoldAllConcat(xs, [x], f, zero, plus);
    assert [x][1..] == [];
    if f(x).Ok? {
      RightIdentity(plus, zero, f(x).value);
    }
  }

  /** Two loops over the same items, whose per-item results are related by
      `rel` whenever the first succeeds, end related the same way: if the
      first succeeds, so does the second. `rel` must hold of the two starting
      values and be kept by adding. */
  lemma {:induction false} FoldAllRelated<X, A, B>(
    xs: seq<X>,
    f: X -> Access<A>, za: A, pa: (A, A) -> A,
    g: X -> Access<B>, zb: B, pb: (B, B) -> B,
    rel: (A, B) -> bool)
    requires rel(za, zb)
    requires forall a1, b1, a2, b2 :: rel(a1, b1) && rel(a2, b2) ==> rel(pa(a1, a2), pb(b1, b2))
    requires forall i :: 0 <= i < |xs| && f(xs[i]).Ok? ==> g(xs[i]).Ok? && rel(f(xs[i]).value, g(xs[i]).value)
    ensures FoldAll(xs, f, za, pa).Ok? ==>
              FoldAll(xs, g, zb, pb).Ok? && rel(FoldAll(xs, f, za, pa).value, FoldAll(xs, g, zb, pb).value)
    decreases |xs|
  {
    if |xs| > 0 && FoldAll(xs, f, za, pa).Ok? {
      assert f(xs[0]).Ok? && g(xs[0]).Ok?;
      FoldAllRelated(xs[1..], f, za, pa, g, zb, pb, rel);
      var a1, b1 := f(xs[0]).value, g(xs[0]).value;
      var a2, b2 := FoldAll(xs[1..], f, za, pa).value, FoldAll(xs[1..], g, zb, pb).value;
      RelatedSums(rel, pa, pb, a1, b1, a2, b2);
    }
  }
}
