/**
 * The `Search` object of libs/api.js: the constructor that reads the request
 * parameters and works out paging, the AOI coverage filter, the construction
 * of the query sent to the search engine, and the two search entry points.
 *
 * The engine client is not modelled: what its promise settles with is a
 * parameter (`answer`) of the search methods.
 */
module Api {
  import opened Values
  import opened Numbers
  import opened Externals
  import opened Coverage
  import opened Response

  /** A Lambda/API-Gateway event: its `query` and `body` objects, when present. */
  datatype Event = Event(query: Option<map<string, Value>>, body: Option<map<string, Value>>)

  /** Page size, offset of the first hit, and the page number reported back. */
  datatype Paging = Paging(size: Double, frm: Double, page: Double)

  /** The request handed to the engine client. `source` is `_source`, the field projection. */
  datatype Query = Query(index: string, body: Value, size: Double, from: Double, source: Option<Value>)

  /** The request parameters: the query string when non-empty, else the body when non-empty, else `{}`. */
  function SelectParams(event: Event): map<string, Value>
  {
    if event.query.Some? && event.query.value != map[] then event.query.value
    else if event.body.Some? && event.body.value != map[] then event.body.value
    else map[]
  }

  /** The coverage threshold as given (`null` when the parameter is absent). */
  function CoverageDirective(params: map<string, Value>): Value
  {
    if "coverage" in params then params["coverage"] else Null
  }

  /** `o ? o : default` on a possibly-undefined value. */
  function OrDefault(o: Option<Value>, default: Value): Value
  {
    if TruthyOpt(o) then o.value else default
  }

  /**
   * The paging the constructor computes from the `page`, `limit` and `skip`
   * parameters: `page` and `limit` default to 1, the offset is
   * `(page - 1) * limit`, and the page reported back is `skip` when given.
   */
  function PagingOf(page: Option<Value>, limit: Option<Value>, skip: Option<Value>): Paging
  {
    var requested := ParseInt(OrDefault(page, Num(1.0)));
    var size := ParseInt(OrDefault(limit, Num(1.0)));
    Paging(size, Offset(requested, size), Reported(skip, requested))
  }

  /** `(page - 1) * size`. */
  function Offset(page: Double, size: Double): Double
  {
    Mul(Sub(page, Finite(1.0)), size)
  }

  /** `parseInt(skip ? skip : page)`. */
  function Reported(skip: Option<Value>, page: Double): Double
  {
    if TruthyOpt(skip) then ParseInt(skip.value) else ParseIntNumber(page)
  }

  function Paginate(params: map<string, Value>): Paging
  {
    PagingOf(Prop(params, "page"), Prop(params, "limit"), Prop(params, "skip"))
  }

  /** What `calculateAoiCoverage` returns. */
  function FilterResponse(host: Host, aoiCoverage: Value, params: map<string, Value>, response: seq<Value>)
    : Result<seq<Value>, Error>
  {
    if Truthy(aoiCoverage) && "intersects" in params then
      match IntersectsToObj(host, params["intersects"])
      case Err(e) => Err(e)
      case Ok(gj) => CoverageFilter(host, gj, ParseFloat(aoiCoverage), host.area(gj), response)
    else Ok(response)
  }

  /** The parameters after `calculateAoiCoverage`: a parsed `intersects` replaces the text. */
  function ParamsAfterFilter(host: Host, aoiCoverage: Value, params: map<string, Value>): map<string, Value>
  {
    if Truthy(aoiCoverage) && "intersects" in params then
      match IntersectsToObj(host, params["intersects"])
      case Err(_) => params
      case Ok(gj) => params["intersects" := gj]
    else params
  }

  /** The query `buildSearch` returns: `fields` becomes the projection and is not given to the query builder. */
  function SearchQuery(host: Host, index: string, params: map<string, Value>, size: Double, frm: Double)
    : Result<Query, Error>
  {
    match host.queries(Omit(params, {"fields"}))
    case None => Err(QueryBuildFailure)
    case Some(body) => Ok(Query(index, body, size, frm, Prop(params, "fields")))
  }

  /**
   * What `search` passes to its callback, given what the engine answers, or
   * `None` when the callback is never called: a throw while assembling the
   * response happens inside the promise's success handler, which the
   * failure handler beside it does not catch.
   */
  function SearchOutcome(host: Host, index: string, params: map<string, Value>, size: Double, frm: Double,
                         page: Double, answer: Result<Hits, Error>): Option<Result<Envelope, Error>>
  {
    match SearchQuery(host, index, params, size, frm)
    case Err(e) => Some(Err(e))
    case Ok(_) =>
      match answer
      case Err(e) => Some(Err(e))
      case Ok(hits) =>
        match Assemble(host, index, hits, size, page)
        case Err(_) => None
        case Ok(env) => Some(Ok(env))
  }

  class Search {
    const host: Host
    var aoiCoverage: Value
    var params: map<string, Value>
    var size: Double
    var frm: Double
    var page: Double

    /** The coverage threshold never stays among the parameters given to the query builder. */
    ghost predicate Valid()
      reads this
    {
      "coverage" !in params
    }

    constructor(host: Host, event: Event)
      ensures this.host == host
      ensures aoiCoverage == CoverageDirective(SelectParams(event))
      ensures params == Omit(SelectParams(event), {"coverage"})
      ensures Paging(size, frm, page) == Paginate(params)
      ensures Valid()
    {
      var p: map<string, Value>;
      if event.query.Some? && event.query.value != map[] {
        p := event.query.value;
      } else if event.body.Some? && event.body.value != map[] {
        p := event.body.value;
      } else {
        p := map[];
      }
      this.host := host;
      var coverage := Null;
      if "coverage" in p {
        coverage := p["coverage"];
        p := Omit(p, {"coverage"});
      } else {
        assert p == Omit(p, {"coverage"});
      }
      var pg := ParseInt(if TruthyOpt(Prop(p, "page")) then p["page"] else Num(1.0));
      aoiCoverage := coverage;
      params := p;
      var sz := ParseInt(if TruthyOpt(Prop(p, "limit")) then p["limit"] else Num(1.0));
      size := sz;
      frm := Mul(Sub(pg, Finite(1.0)), sz);
      page := if TruthyOpt(Prop(p, "skip")) then ParseInt(p["skip"]) else ParseIntNumber(pg);
    }

    /**
     * `calculateAoiCoverage`: when a truthy coverage and an `intersects` geometry
     * were given, parse the geometry into the parameters and keep only the
     * results it covers at least `parseFloat(coverage)` percent of.
     */
    method CalculateAoiCoverage(response: seq<Value>) returns (r: Result<seq<Value>, Error>)
      requires Valid()
      modifies this`params
      ensures r == FilterResponse(host, aoiCoverage, old(params), response)
      ensures params == ParamsAfterFilter(host, aoiCoverage, old(params))
      ensures Valid()
    {
      if Truthy(aoiCoverage) && "intersects" in params {
        var gj := IntersectsToObj(host, params["intersects"]);
        if gj.Err? {
          return Err(gj.error);
        }
        params := params["intersects" := gj.value];
        var coverage := ParseFloat(aoiCoverage);
        var aoiArea := host.area(params["intersects"]);
        r := FilterByCoverage(host, params["intersects"], coverage, aoiArea, response);
      } else {
        r := Ok(response);
      }
    }

    /** `buildSearch`: takes `fields` out of the parameters for good and builds the query. */
    method BuildSearch(index: string) returns (q: Result<Query, Error>)
      requires Valid()
      modifies this`params
      ensures params == Omit(old(params), {"fields"})
      ensures q == SearchQuery(host, index, old(params), size, frm)
      ensures "coverage" !in params && "fields" !in params
      ensures q.Ok? ==> host.queries(params) == Some(q.value.body)
      ensures Valid()
    {
      var fields := None;
      if "fields" in params {
        fields := Some(params["fields"]);
        params := Omit(params, {"fields"});
      } else {
        assert params == Omit(params, {"fields"});
      }
      var body := host.queries(params);
      if body.None? {
        return Err(QueryBuildFailure);
      }
      q := Ok(Query(index, body.value, size, frm, fields));
    }

    /** The success handler of `search`: one feature per hit, in hit order. */
    method AssembleResponse(index: string, hits: Hits) returns (r: Result<Envelope, Error>)
      ensures r == Assemble(host, index, hits, size, page)
    {
      var sources := hits.sources;
      var features := [];
      var i := 0;
      while i < |sources|
        invariant 0 <= i <= |sources|
        invariant AssembleFeatures(host, index, sources[..i]) == Ok(features)
      {
        assert sources[..i + 1][..i] == sources[..i];
        var feature := AssembleHit(host, index, sources[i]);
        if feature.Err? {
          MapEachPrefixError(FeatureOf(host, index), sources, i + 1);
          return Err(feature.error);
        }
        features := features + [feature.value];
        i := i + 1;
      }
      assert sources[..i] == sources;
      r := Ok(Envelope(hits.total, size, page, features));
    }

    /**
     * `search(index, callback)`: build the query (a failure is reported at
     * once), send it, and assemble the response from the engine's answer.
     * `q` is the query sent; `r` is what the callback is called with, `None` if it never is.
     */
    method SearchIndex(index: string, answer: Result<Hits, Error>)
      returns (q: Result<Query, Error>, r: Option<Result<Envelope, Error>>)
      requires Valid()
      modifies this`params
      ensures params == Omit(old(params), {"fields"})
      ensures q == SearchQuery(host, index, old(params), size, frm)
      ensures r == SearchOutcome(host, index, old(params), size, frm, page, answer)
      ensures Valid()
    {
      q := BuildSearch(index);
      if q.Err? {
        return q, Some(Err(q.error));
      }
      if answer.Err? {
        return q, Some(Err(answer.error));
      }
      var response := AssembleResponse(index, answer.value);
      if response.Err? {
        return q, None;
      }
      r := Some(response);
    }

    /**
     * `search_items`: search the collections index and, from its callback,
     * whatever that callback is given, search the items index and report that
     * outcome. When the collections callback is never called, neither is the
     * items search run: `q` and `r` are then `None`.
     */
    method SearchItems(collectionsAnswer: Result<Hits, Error>, itemsAnswer: Result<Hits, Error>)
      returns (q: Option<Result<Query, Error>>, r: Option<Result<Envelope, Error>>)
      requires Valid()
      modifies this`params
      ensures params == Omit(old(params), {"fields"})
      ensures SearchOutcome(host, "collections", old(params), size, frm, page, collectionsAnswer).None? ==>
                q.None? && r.None?
      ensures SearchOutcome(host, "collections", old(params), size, frm, page, collectionsAnswer).Some? ==>
                && q == Some(SearchQuery(host, "items", Omit(old(params), {"fields"}), size, frm))
                && r == SearchOutcome(host, "items", Omit(old(params), {"fields"}), size, frm, page, itemsAnswer)
      ensures Valid()
    {
      var _, first := SearchIndex("collections", collectionsAnswer);
      if first.None? {
        return None, None;
      }
      var sent;
      sent, r := SearchIndex("items", itemsAnswer);
      q := Some(sent);
      assert Omit(Omit(old(params), {"fields"}), {"fields"}) == Omit(old(params), {"fields"});
    }
  }

  // ---------------------------------------------------------------------
  // Paging

  /** With no usable `page`, `limit` or `skip`, a search returns one hit from the start and reports page 1. */
  lemma DefaultPaging(page: Option<Value>, limit: Option<Value>, skip: Option<Value>)
    requires !TruthyOpt(page) && !TruthyOpt(limit) && !TruthyOpt(skip)
    ensures PagingOf(page, limit, skip) == Paging(Finite(1.0), Finite(0.0), Finite(1.0))
  {
  }

  /**
   * Without a truthy `page` the search reads page 1: it starts at the first hit
   * whatever the page size (once that is a number), and reports page 1 unless
   * `skip` is given.
   */
  lemma DefaultPage(page: Option<Value>, limit: Option<Value>, skip: Option<Value>)
    requires !TruthyOpt(page)
    ensures var g := PagingOf(page, limit, skip);
            && g.frm == Offset(Finite(1.0), g.size)
            && (g.size.Finite? ==> g.frm == Finite(0.0))
            && (!TruthyOpt(skip) ==> g.page == Finite(1.0))
  {
    var one := ParseInt(Num(1.0));
    assert one == Finite(1.0);
    assert OrDefault(page, Num(1.0)) == Num(1.0);
    var size := ParseInt(OrDefault(limit, Num(1.0)));
    assert PagingOf(page, limit, skip) == Paging(size, Offset(one, size), Reported(skip, one));
    assert ParseIntNumber(Finite(1.0)) == Finite(1.0);
  }

  /** Without a truthy `limit` a page holds one hit, whatever `page` and `skip` are. */
  lemma DefaultLimit(page: Option<Value>, limit: Option<Value>, skip: Option<Value>)
    requires !TruthyOpt(limit)
    ensures PagingOf(page, limit, skip).size == Finite(1.0)
  {
    assert ParseInt(Num(1.0)) == Finite(1.0);
  }

  /**
   * Query-string paging: `page=n&limit=m` gives pages of `m` hits, the n-th
   * starting at hit `(n - 1) * m` (never negative from page 1 on), and reports
   * page `n` unless `skip` is given. Page "0" is not rejected: the search starts `m` hits before the first.
   */
  lemma PagingOfText(n: nat, m: nat, skip: Option<Value>)
    ensures var g := PagingOf(Some(Str(ShowInt(n))), Some(Str(ShowInt(m))), skip);
            && g.size == Finite(m as real)
            && g.frm == Finite(((n - 1) * m) as real)
            && (n == 0 ==> g.frm == Finite(-(m as real)))
            && (n >= 1 ==> g.frm.r >= 0.0)
            && (!TruthyOpt(skip) ==> g.page == Finite(n as real))
  {
    assert ShowInt(n) + [] == ShowInt(n) && ShowInt(m) + [] == ShowInt(m);
    ParseIntShowInt(n, []);
    ParseIntShowInt(m, []);
    PagingOfTruthy(Str(ShowInt(n)), Str(ShowInt(m)), skip);
    IntegerOffset(n, m);
    assert IsInteger(Finite(n as real));
  }

  /** A truthy page and a truthy limit are read as given, with no default. */
  lemma PagingOfTruthy(page: Value, limit: Value, skip: Option<Value>)
    requires Truthy(page) && Truthy(limit)
    ensures PagingOf(Some(page), Some(limit), skip)
            == Paging(ParseInt(limit), Offset(ParseInt(page), ParseInt(limit)), Reported(skip, ParseInt(page)))
  {
    assert OrDefault(Some(page), Num(1.0)) == page && OrDefault(Some(limit), Num(1.0)) == limit;
  }

  /** The offset of integer page `n` and size `m` is the integer `(n - 1) * m`. */
  lemma IntegerOffset(n: int, m: int)
    ensures Offset(Finite(n as real), Finite(m as real)) == Finite(((n - 1) * m) as real)
    ensures n == 0 ==> Offset(Finite(n as real), Finite(m as real)) == Finite(-(m as real))
    ensures n >= 1 && m >= 0 ==> (n - 1) * m >= 0
  {
    assert (n - 1) as real == n as real - 1.0;
    assert ((n - 1) as real) * (m as real) == ((n - 1) * m) as real;
  }

  /** Page 0 given as a number is falsy and reads as page 1: the search starts at the first hit. */
  lemma PageZeroNumber(limit: Value, m: int, skip: Option<Value>)
    requires Truthy(limit) && ParseInt(limit) == Finite(m as real)
    ensures PagingOf(Some(Num(0.0)), Some(limit), skip).frm == Finite(0.0)
  {
    assert OrDefault(Some(Num(0.0)), Num(1.0)) == Num(1.0) && OrDefault(Some(limit), Num(1.0)) == limit;
    assert IsInteger(Finite(1.0));
    assert ParseInt(Num(1.0)) == Finite(1.0);
    IntegerOffset(1, m);
  }

  /** A page that is not a number and does not start with a numeral makes the offset (and, without `skip`, the reported page) NaN. */
  lemma UnreadablePage(page: Option<Value>, limit: Option<Value>, skip: Option<Value>)
    requires TruthyOpt(page) && ParseInt(page.value).NaN?
    ensures PagingOf(page, limit, skip).frm.NaN?
    ensures !TruthyOpt(skip) ==> PagingOf(page, limit, skip).page.NaN?
  {
    var requested := ParseInt(OrDefault(page, Num(1.0)));
    assert requested.NaN?;
    assert Sub(requested, Finite(1.0)).NaN?;
    assert Offset(requested, ParseInt(OrDefault(limit, Num(1.0)))).NaN?;
    assert ParseIntNumber(requested).NaN?;
  }

  /** Size, offset and reported page are whole numbers whenever they are numbers at all. */
  lemma PagingIntegral(page: Option<Value>, limit: Option<Value>, skip: Option<Value>)
    ensures var g := PagingOf(page, limit, skip);
            && (g.size.NaN? || IsInteger(g.size))
            && (g.page.NaN? || IsInteger(g.page))
            && (g.frm.NaN? || IsInteger(g.frm))
  {
    OffsetIntegral(ParseInt(OrDefault(page, Num(1.0))), ParseInt(OrDefault(limit, Num(1.0))));
  }

  lemma OffsetIntegral(page: Double, size: Double)
    requires page.NaN? || IsInteger(page)
    requires size.NaN? || IsInteger(size)
    ensures Offset(page, size).NaN? || IsInteger(Offset(page, size))
  {
    if page.Finite? && size.Finite? {
      IntegerOffset(page.r.Floor, size.r.Floor);
    }
  }

  /** `skip` changes only the page number reported back, never which hits are fetched. */
  lemma SkipOnlyReported(page: Option<Value>, limit: Option<Value>, skip: Option<Value>)
    ensures PagingOf(page, limit, skip).size == PagingOf(page, limit, None).size
    ensures PagingOf(page, limit, skip).frm == PagingOf(page, limit, None).frm
    ensures TruthyOpt(skip) ==> PagingOf(page, limit, skip).page == ParseInt(skip.value)
    ensures !TruthyOpt(skip) ==> PagingOf(page, limit, skip) == PagingOf(page, limit, None)
  {
  }

  // ---------------------------------------------------------------------
  // The coverage filter

  /** Coverage given as the number 0 is falsy: the filter is off and the results come back unchanged. */
  lemma ZeroCoverageNumber(host: Host, params: map<string, Value>, response: seq<Value>)
    ensures FilterResponse(host, Num(0.0), params, response) == Ok(response)
    ensures ParamsAfterFilter(host, Num(0.0), params) == params
  {
  }

  /**
   * Coverage given as the text of an integer `n` (including "0", which is
   * truthy) filters at `n` percent.
   */
  lemma CoverageOfText(host: Host, params: map<string, Value>, response: seq<Value>, n: int)
    requires "intersects" in params && IntersectsToObj(host, params["intersects"]).Ok?
    ensures var gj := IntersectsToObj(host, params["intersects"]).value;
            FilterResponse(host, Str(ShowInt(n)), params, response)
            == CoverageFilter(host, gj, Finite(n as real), host.area(gj), response)
  {
    var text := ShowInt(n);
    ParseFloatShowInt(n);
    assert ParseFloat(Str(text)) == Finite(n as real);
    FilterAtThreshold(host, Str(text), params, response);
  }

  lemma FilterAtThreshold(host: Host, aoiCoverage: Value, params: map<string, Value>, response: seq<Value>)
    requires Truthy(aoiCoverage) && "intersects" in params && IntersectsToObj(host, params["intersects"]).Ok?
    ensures var gj := IntersectsToObj(host, params["intersects"]).value;
            FilterResponse(host, aoiCoverage, params, response)
            == CoverageFilter(host, gj, ParseFloat(aoiCoverage), host.area(gj), response)
  {
  }

  /** An `intersects` text that is not JSON is reported as invalid GeoJSON, and the parameters are left as they were. */
  lemma FilterInvalidGeojson(host: Host, aoiCoverage: Value, params: map<string, Value>, response: seq<Value>)
    requires Truthy(aoiCoverage) && "intersects" in params
    requires params["intersects"].Str? && host.parseJson(params["intersects"].s).None?
    ensures FilterResponse(host, aoiCoverage, params, response) == Err(InvalidGeojson)
    ensures ParamsAfterFilter(host, aoiCoverage, params) == params
  {
  }

  /**
   * When the filter applies, it keeps the results in order and drops some: a
   * result is kept exactly when the AOI covers at least the threshold of it.
   * It throws exactly when the geometry is unreadable or some result's
   * coverage cannot be computed.
   */
  lemma FilterKeepsCovered(host: Host, aoiCoverage: Value, params: map<string, Value>, response: seq<Value>)
    requires Truthy(aoiCoverage) && "intersects" in params
    requires IntersectsToObj(host, params["intersects"]).Ok?
    ensures var gj := IntersectsToObj(host, params["intersects"]).value;
            var out := FilterResponse(host, aoiCoverage, params, response);
            && (out.Err? <==> exists i :: 0 <= i < |response| && Coverage.Coverage(host, gj, response[i], host.area(gj)).Err?)
            && (out.Ok? ==> IsSubsequence(out.value, response))
            && (out.Ok? ==> forall x :: x in out.value <==>
                  x in response && Kept(host, gj, ParseFloat(aoiCoverage), host.area(gj), x))
            && (out.Ok? ==> exists idx: seq<nat> ::
                  && Selects(CoverageTest(host, gj, ParseFloat(aoiCoverage), host.area(gj)), out.value, response, idx)
                  && (forall i :: 0 <= i < |response| ==>
                        (i in idx <==> Kept(host, gj, ParseFloat(aoiCoverage), host.area(gj), response[i]))))
  {
    var gj := IntersectsToObj(host, params["intersects"]).value;
    var threshold := ParseFloat(aoiCoverage);
    assert FilterResponse(host, aoiCoverage, params, response) == CoverageFilter(host, gj, threshold, host.area(gj), response);
    FilterError(host, gj, threshold, host.area(gj), response);
    if CoverageFilter(host, gj, threshold, host.area(gj), response).Ok? {
      FilterIsSubsequence(host, gj, threshold, host.area(gj), response);
      var idx := FilterPositions(host, gj, threshold, host.area(gj), response);
      forall x {
        FilterKeepsExactly(host, gj, threshold, host.area(gj), response, x);
      }
    }
  }

  /** Without a truthy threshold or an `intersects` parameter, the filter returns the results and parameters untouched. */
  lemma NoDirectiveIdentity(host: Host, aoiCoverage: Value, params: map<string, Value>, response: seq<Value>)
    requires !Truthy(aoiCoverage) || "intersects" !in params
    ensures FilterResponse(host, aoiCoverage, params, response) == Ok(response)
    ensures ParamsAfterFilter(host, aoiCoverage, params) == params
  {
  }

  /**
   * A request without a `coverage` parameter gets a `null` threshold, so the
   * filter of the search built from it is the identity, whatever else was asked.
   */
  lemma NoCoverageNoFilter(host: Host, event: Event, response: seq<Value>)
    requires "coverage" !in SelectParams(event)
    ensures CoverageDirective(SelectParams(event)) == Null
    ensures var params := Omit(SelectParams(event), {"coverage"});
            && FilterResponse(host, Null, params, response) == Ok(response)
            && ParamsAfterFilter(host, Null, params) == params
  {
    NoDirectiveIdentity(host, Null, Omit(SelectParams(event), {"coverage"}), response);
  }

  /**
   * Calling the filter a second time on the same search gives the same
   * answer and leaves the parameters as the first call left them, unless
   * the geometry parsed from the text is itself text (which is parsed again).
   */
  lemma FilterRepeatable(host: Host, aoiCoverage: Value, params: map<string, Value>, response: seq<Value>)
    requires "intersects" in params && IntersectsToObj(host, params["intersects"]).Ok? ==>
               !IntersectsToObj(host, params["intersects"]).value.Str?
    ensures var after := ParamsAfterFilter(host, aoiCoverage, params);
            && ParamsAfterFilter(host, aoiCoverage, after) == after
            && FilterResponse(host, aoiCoverage, after, response) == FilterResponse(host, aoiCoverage, params, response)
  {
  }

  // ---------------------------------------------------------------------
  // The query

  /** `fields` only sets the projection: the query body and its success do not depend on it. */
  lemma FieldsOnlyProject(host: Host, index: string, params: map<string, Value>, v: Value, size: Double, frm: Double)
    ensures SearchQuery(host, index, params["fields" := v], size, frm).Ok? <==> SearchQuery(host, index, params, size, frm).Ok?
    ensures SearchQuery(host, index, params, size, frm).Ok? ==>
              var with := SearchQuery(host, index, params["fields" := v], size, frm).value;
              var without := SearchQuery(host, index, params, size, frm).value;
              with.body == without.body && with.source == Some(v)
              && with.index == index && with.size == size && with.from == frm
  {
    assert Omit(params["fields" := v], {"fields"}) == Omit(params, {"fields"});
  }

  /**
   * `search_items`: the items query has the same body as the collections
   * query before it but never a projection, because the first `buildSearch`
   * removed `fields` from the parameters.
   */
  lemma ItemsQueryHasNoProjection(host: Host, params: map<string, Value>, size: Double, frm: Double)
    ensures SearchQuery(host, "items", Omit(params, {"fields"}), size, frm).Ok?
            <==> SearchQuery(host, "collections", params, size, frm).Ok?
    ensures SearchQuery(host, "items", Omit(params, {"fields"}), size, frm).Ok? ==>
              var items := SearchQuery(host, "items", Omit(params, {"fields"}), size, frm).value;
              && items.source == None
              && items.body == SearchQuery(host, "collections", params, size, frm).value.body
  {
    assert Omit(Omit(params, {"fields"}), {"fields"}) == Omit(params, {"fields"});
  }

  // ---------------------------------------------------------------------
  // The search

  /**
   * A failed query build is reported as such and the engine is not asked; an
   * engine error is passed on; the callback is never called exactly when the
   * engine answers and some hit's links cannot be rewritten; otherwise the
   * response reports the engine's total, this search's size and page, and one
   * feature per hit.
   */
  lemma SearchOutcomeContents(host: Host, index: string, params: map<string, Value>, size: Double, frm: Double,
                              page: Double, answer: Result<Hits, Error>)
    ensures SearchQuery(host, index, params, size, frm).Err? ==>
              SearchOutcome(host, index, params, size, frm, page, answer) == Some(Err(QueryBuildFailure))
    ensures SearchQuery(host, index, params, size, frm).Ok? && answer.Err? ==>
              SearchOutcome(host, index, params, size, frm, page, answer) == Some(Err(answer.error))
    ensures SearchOutcome(host, index, params, size, frm, page, answer).None? <==>
              && SearchQuery(host, index, params, size, frm).Ok? && answer.Ok?
              && exists i :: 0 <= i < |answer.value.sources| && BadLinks(answer.value.sources[i])
    ensures SearchOutcome(host, index, params, size, frm, page, answer).Some? &&
            SearchOutcome(host, index, params, size, frm, page, answer).value.Ok? ==>
              var env := SearchOutcome(host, index, params, size, frm, page, answer).value.value;
              && answer.Ok?
              && env.found == answer.value.total && env.limit == size && env.page == page
              && |env.features| == |answer.value.sources|
              && forall i :: 0 <= i < |answer.value.sources| ==>
                   Ok(env.features[i]) == AssembleFeature(host, index, answer.value.sources[i])
  {
    if answer.Ok? {
      EnvelopeContents(host, index, answer.value, size, page);
    }
  }
}
