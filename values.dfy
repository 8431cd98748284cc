/**
 * JavaScript values as the search API sees them: the JSON data that request
 * parameters, geometries and index hits are made of, `undefined` as `None`,
 * and the few pieces of JavaScript semantics the API relies on (truthiness,
 * property access that throws on `null`, string conversion in template
 * literals).
 */
module Values {

  datatype Option<+T> = None | Some(value: T)

  datatype Result<+T, +E> = Ok(value: T) | Err(error: E)

  /** The errors the modelled code can raise. */
  datatype Error =
    | InvalidGeojson        // thrown by intersectsToObj on unparseable text
    | TypeError             // a JavaScript TypeError (property of null, forEach of a non-array)
    | QueryBuildFailure     // the query-DSL builder threw
    | EngineFailure         // the search engine rejected the request (carried by the engine's answer)

  /** A JSON value. Numbers are finite reals (JSON has no NaN or Infinity). */
  datatype Value =
    | Null
    | Bool(b: bool)
    | Num(n: real)
    | Str(s: string)
    | Arr(elems: seq<Value>)
    | Obj(fields: map<string, Value>)

  /** JavaScript's ToBoolean on a defined value. */
  predicate Truthy(v: Value) {
    match v
    case Null => false
    case Bool(b) => b
    case Num(n) => n != 0.0
    case Str(s) => s != ""
    case Arr(_) => true
    case Obj(_) => true
  }

  /** ToBoolean on a possibly-undefined value: `undefined` is falsy. */
  predicate TruthyOpt(o: Option<Value>) {
    o.Some? && Truthy(o.value)
  }

  /** `m[k]` on a plain object: `undefined` when the key is absent. */
  function Prop(m: map<string, Value>, k: string): (o: Option<Value>)
    ensures o.Some? <==> k in m
    ensures o.Some? ==> o.value == m[k]
  {
    if k in m then Some(m[k]) else None
  }

  /**
   * `v.k` for one of the keys the API reads (`type`, `features`, `geometry`,
   * `data_geometry`, `rel`): a TypeError on `null`, the own property of an
   * object, and `undefined` on every other value, which has no such property.
   */
  function Member(v: Value, k: string): (r: Result<Option<Value>, Error>)
    ensures r.Err? <==> v.Null?
    ensures r.Err? ==> r.error == TypeError
    ensures v.Obj? ==> r == Ok(Prop(v.fields, k))
    ensures !v.Obj? && !v.Null? ==> r == Ok(None)
  {
    match v
    case Null => Err(TypeError)
    case Obj(f) => Ok(Prop(f, k))
    case _ => Ok(None)
  }

  /** `_.omit(m, keys)`: a copy of the object without the given keys. */
  function Omit(m: map<string, Value>, keys: set<string>): (r: map<string, Value>)
    ensures r.Keys == m.Keys - keys
    ensures forall k :: k in r ==> r[k] == m[k]
  {
    m - keys
  }

  /** The strings of `ss` separated by commas, as `Array.prototype.join` does. */
  function JoinWithCommas(ss: seq<string>): string
  {
    if |ss| == 0 then ""
    else if |ss| == 1 then ss[0]
    else JoinWithCommas(ss[..|ss| - 1]) + "," + ss[|ss| - 1]
  }

  /**
   * The string a template literal makes of a defined value. Number formatting
   * is the engine's own algorithm and is passed in as `showNumber`.
   */
  function JsString(showNumber: real -> string, v: Value): string
    decreases v
  {
    match v
    case Null => "null"
    case Bool(b) => if b then "true" else "false"
    case Num(n) => showNumber(n)
    case Str(s) => s
    case Arr(es) =>
      JoinWithCommas(seq(|es|, i requires 0 <= i < |es| =>
        if es[i].Null? then "" else JsString(showNumber, es[i])))
    case Obj(_) => "[object Object]"
  }

  /** The string a template literal makes of a possibly-undefined value. */
  function JsStringOpt(showNumber: real -> string, o: Option<Value>): (s: string)
    ensures o.None? ==> s == "undefined"
    ensures o.Some? && o.value.Str? ==> s == o.value.s
  {
    match o
    case None => "undefined"
    case Some(v) => JsString(showNumber, v)
  }

  /**
   * A `forEach` whose body may throw: `f` applied to each element in order,
   * collecting the results, and stopping at the first error.
   */
  function MapEach<A, B>(f: A -> Result<B, Error>, xs: seq<A>): Result<seq<B>, Error>
    decreases |xs|
  {
    if xs == [] then Ok([])
    else
      match MapEach(f, xs[..|xs| - 1])
      case Err(e) => Err(e)
      case Ok(done) =>
        match f(xs[|xs| - 1])
        case Err(e) => Err(e)
        case Ok(y) => Ok(done + [y])
  }

  /** Once a prefix has thrown, the rest of the elements are never visited. */
  lemma {:induction false} MapEachPrefixError<A, B>(f: A -> Result<B, Error>, xs: seq<A>, k: nat)
    requires k <= |xs|
    requires MapEach(f, xs[..k]).Err?
    ensures MapEach(f, xs) == MapEach(f, xs[..k])
    decreases |xs| - k
  {
    if k < |xs| {
      var n := |xs|;
      assert xs[..n - 1][..k] == xs[..k];
      MapEachPrefixError(f, xs[..n - 1], k);
    } else {
      assert xs[..k] == xs;
    }
  }

  /**
   * The loop throws exactly when the body throws on some element; otherwise
   * it yields one result per element, in order.
   */
  lemma {:induction false} MapEachAll<A, B>(f: A -> Result<B, Error>, xs: seq<A>)
    ensures MapEach(f, xs).Err? <==> exists i :: 0 <= i < |xs| && f(xs[i]).Err?
    ensures MapEach(f, xs).Ok? ==>
              && |MapEach(f, xs).value| == |xs|
              && forall i :: 0 <= i < |xs| ==> f(xs[i]) == Ok(MapEach(f, xs).value[i])
    decreases |xs|
  {
    if xs != [] {
      var n := |xs|;
      var init := xs[..n - 1];
      MapEachAll(f, init);
      assert forall i :: 0 <= i < n - 1 ==> init[i] == xs[i];
      if MapEach(f, init).Err? {
        var i :| 0 <= i < n - 1 && f(init[i]).Err?;
        assert f(xs[i]).Err?;
      }
    }
  }

  /**
   * A `forEach` that pushes each element passing `test` onto a new list,
   * where the test may throw: the passing elements in order, or the first error.
   */
  function FilterEach<T>(test: T -> Result<bool, Error>, xs: seq<T>): Result<seq<T>, Error>
    decreases |xs|
  {
    if xs == [] then Ok([])
    else
      match FilterEach(test, xs[..|xs| - 1])
      case Err(e) => Err(e)
      case Ok(kept) =>
        var x := xs[|xs| - 1];
        match test(x)
        case Err(e) => Err(e)
        case Ok(pass) => Ok(if pass then kept + [x] else kept)
  }

  /** Once a prefix has thrown, the rest of the elements are never tested. */
  lemma {:induction false} FilterEachPrefixError<T>(test: T -> Result<bool, Error>, xs: seq<T>, k: nat)
    requires k <= |xs|
    requires FilterEach(test, xs[..k]).Err?
    ensures FilterEach(test, xs) == FilterEach(test, xs[..k])
    decreases |xs| - k
  {
    if k < |xs| {
      var n := |xs|;
      assert xs[..n - 1][..k] == xs[..k];
      FilterEachPrefixError(test, xs[..n - 1], k);
    } else {
      assert xs[..k] == xs;
    }
  }

  /** The loop throws exactly when the test throws on some element. */
  lemma {:induction false} FilterEachError<T>(test: T -> Result<bool, Error>, xs: seq<T>)
    ensures FilterEach(test, xs).Err? <==> exists i :: 0 <= i < |xs| && test(xs[i]).Err?
    decreases |xs|
  {
    if xs != [] {
      var n := |xs|;
      var init := xs[..n - 1];
      FilterEachError(test, init);
      assert forall i :: 0 <= i < n - 1 ==> init[i] == xs[i];
      if FilterEach(test, init).Err? {
        var i :| 0 <= i < n - 1 && test(init[i]).Err?;
        assert test(xs[i]).Err?;
      }
    }
  }

  /**
   * `idx` lists, in increasing order, the positions in `xs` that `out` is
   * made of, and a position is listed exactly when `test` passes its element.
   */
  ghost predicate Selects<T>(test: T -> Result<bool, Error>, out: seq<T>, xs: seq<T>, idx: seq<nat>) {
    && |idx| == |out|
    && (forall k :: 0 <= k < |out| ==> idx[k] < |xs| && out[k] == xs[idx[k]])
    && (forall k, l :: 0 <= k < l < |out| ==> idx[k] < idx[l])
    && (forall i :: 0 <= i < |xs| ==> (i in idx <==> test(xs[i]) == Ok(true)))
  }

  /** A passing element extends a selection by its own position. */
  lemma SelectsPass<T>(test: T -> Result<bool, Error>, out: seq<T>, xs: seq<T>, idx: seq<nat>, x: T)
    requires Selects(test, out, xs, idx) && test(x) == Ok(true)
    ensures Selects(test, out + [x], xs + [x], idx + [|xs|])
  {
    var out', xs', idx' := out + [x], xs + [x], idx + [|xs|];
    forall k | 0 <= k < |out'|
      ensures idx'[k] < |xs'| && out'[k] == xs'[idx'[k]]
    {
      if k < |out| {
        assert idx'[k] == idx[k] && out'[k] == out[k] && xs'[idx[k]] == xs[idx[k]];
      }
    }
    forall k, l | 0 <= k < l < |out'|
      ensures idx'[k] < idx'[l]
    {
      if l < |out| {
        assert idx'[k] == idx[k] && idx'[l] == idx[l];
      } else {
        assert idx'[k] == idx[k] < |xs|;
      }
    }
    forall i | 0 <= i < |xs'|
      ensures i in idx' <==> test(xs'[i]) == Ok(true)
    {
      if i < |xs| {
        assert i in idx' <==> i in idx;
        assert xs'[i] == xs[i];
      } else {
        assert idx'[|idx|] == i;
      }
    }
  }

  /** A failing element leaves a selection as it was, over the longer input. */
  lemma SelectsSkip<T>(test: T -> Result<bool, Error>, out: seq<T>, xs: seq<T>, idx: seq<nat>, x: T)
    requires Selects(test, out, xs, idx) && test(x) == Ok(false)
    ensures Selects(test, out, xs + [x], idx)
  {
    var xs' := xs + [x];
    forall k | 0 <= k < |out|
      ensures idx[k] < |xs'| && out[k] == xs'[idx[k]]
    {
      assert xs'[idx[k]] == xs[idx[k]];
    }
    forall i | 0 <= i < |xs'|
      ensures i in idx <==> test(xs'[i]) == Ok(true)
    {
      if i < |xs| {
        assert xs'[i] == xs[i];
      } else {
        assert i !in idx;
      }
    }
  }

  /** One more element: the loop keeps what it kept of the others, then this one if it passes. */
  lemma FilterEachStep<T>(test: T -> Result<bool, Error>, xs: seq<T>)
    requires xs != [] && FilterEach(test, xs).Ok?
    ensures var init, x := xs[..|xs| - 1], xs[|xs| - 1];
            && FilterEach(test, init).Ok? && test(x).Ok?
            && FilterEach(test, xs).value
               == if test(x).value then FilterEach(test, init).value + [x] else FilterEach(test, init).value
  {
  }

  /** The positions of the output for all elements, from those for all but the last. */
  lemma SelectsStep<T>(test: T -> Result<bool, Error>, xs: seq<T>, prev: seq<nat>) returns (idx: seq<nat>)
    requires xs != [] && FilterEach(test, xs).Ok?
    requires Selects(test, FilterEach(test, xs[..|xs| - 1]).value, xs[..|xs| - 1], prev)
    ensures Selects(test, FilterEach(test, xs).value, xs, idx)
  {
    var init, x := xs[..|xs| - 1], xs[|xs| - 1];
    FilterEachStep(test, xs);
    var kept := FilterEach(test, init).value;
    assert init + [x] == xs;
    if test(x).value {
      SelectsPass(test, kept, init, prev, x);
      idx := prev + [|init|];
    } else {
      SelectsSkip(test, kept, init, prev, x);
      idx := prev;
    }
  }

  /** Where the loop does not throw, its output is the passing elements, position by position. */
  lemma {:induction false} FilterEachPositions<T>(test: T -> Result<bool, Error>, xs: seq<T>) returns (idx: seq<nat>)
    requires FilterEach(test, xs).Ok?
    ensures Selects(test, FilterEach(test, xs).value, xs, idx)
    decreases |xs|
  {
    if xs == [] {
      idx := [];
    } else {
      FilterEachStep(test, xs);
      var prev := FilterEachPositions(test, xs[..|xs| - 1]);
      idx := SelectsStep(test, xs, prev);
    }
  }

  /** An element is in the output exactly when it is in the input and passes the test. */
  lemma FilterEachMembership<T>(test: T -> Result<bool, Error>, xs: seq<T>, x: T)
    requires FilterEach(test, xs).Ok?
    ensures x in FilterEach(test, xs).value <==> x in xs && test(x) == Ok(true)
  {
    var out := FilterEach(test, xs).value;
    var idx := FilterEachPositions(test, xs);
    if x in out {
      var k :| 0 <= k < |out| && out[k] == x;
      assert idx[k] in idx;
    }
    if x in xs && test(x) == Ok(true) {
      var i :| 0 <= i < |xs| && xs[i] == x;
      assert i in idx;
      var k :| 0 <= k < |idx| && idx[k] == i;
      assert out[k] == x;
    }
  }

  /** When every element passes, the loop returns the input unchanged. */
  lemma {:induction false} FilterEachKeepsAll<T>(test: T -> Result<bool, Error>, xs: seq<T>)
    requires forall i :: 0 <= i < |xs| ==> test(xs[i]) == Ok(true)
    ensures FilterEach(test, xs) == Ok(xs)
    decreases |xs|
  {
    if xs != [] {
      var n := |xs|;
      assert forall i :: 0 <= i < n - 1 ==> xs[..n - 1][i] == xs[i];
      FilterEachKeepsAll(test, xs[..n - 1]);
      assert xs[..n - 1] + [xs[n - 1]] == xs;
    }
  }
}
