/**
 * The area-of-interest (AOI) coverage filter of libs/api.js: parsing the
 * `intersects` geometry, the overlap percentage of one AOI part with a
 * result's `data_geometry`, its sum over the members of a FeatureCollection,
 * and the filter that keeps the results covered at least as much as the
 * requested threshold.
 */
module Coverage {
  import opened Values
  import opened Numbers
  import opened Externals

  /** `intersectsToObj`: text is read as JSON, anything else is returned as it is. */
  function IntersectsToObj(host: Host, intersects: Value): (r: Result<Value, Error>)
    ensures !intersects.Str? ==> r == Ok(intersects)
    ensures r.Err? <==> intersects.Str? && host.parseJson(intersects.s).None?
    ensures r.Err? ==> r.error == InvalidGeojson
    ensures r.Ok? && intersects.Str? ==> Some(r.value) == host.parseJson(intersects.s)
  {
    match intersects
    case Str(text) =>
      (match host.parseJson(text)
       case None => Err(InvalidGeojson)
       case Some(g) => Ok(g))
    case _ => Ok(intersects)
  }

  /**
   * `aoiCoveragePercentage`: the area of the overlap of one AOI part with a
   * scene, as a percentage of the area of the whole AOI; 0 when they do not
   * overlap.
   */
  function AoiCoveragePercentage(host: Host, part: Option<Value>, scene: Option<Value>, aoiArea: real): (p: Double)
    ensures host.intersect(part, scene).None? ==> p == Finite(0.0)
    ensures aoiArea != 0.0 ==> p.Finite?
    ensures aoiArea > 0.0 && host.intersect(part, scene).Some?
            && 0.0 <= host.area(host.intersect(part, scene).value) <= aoiArea
            ==> 0.0 <= p.r <= 100.0
  {
    match host.intersect(part, scene)
    case None => Finite(0.0)
    case Some(x) =>
      var a := host.area(x);
      assert aoiArea > 0.0 && 0.0 <= a <= aoiArea ==> 0.0 <= a / aoiArea <= 1.0;
      Mul(Div(a, aoiArea), Finite(100.0))
  }

  /** One term of a result's coverage: `r.data_geometry` is read when the term is computed. */
  function Term(host: Host, part: Option<Value>, r: Value, aoiArea: real): (t: Result<Double, Error>)
    ensures t.Err? <==> r.Null?
  {
    match Member(r, "data_geometry")
    case Err(e) => Err(e)
    case Ok(scene) => Ok(AoiCoveragePercentage(host, part, scene, aoiArea))
  }

  /** The running sum `percentage += ...` over the members of a FeatureCollection, left to right. */
  function SumCoverage(host: Host, features: seq<Value>, r: Value, aoiArea: real): Result<Double, Error>
    decreases |features|
  {
    if features == [] then Ok(Finite(0.0))
    else
      match SumCoverage(host, features[..|features| - 1], r, aoiArea)
      case Err(e) => Err(e)
      case Ok(acc) =>
        match Member(features[|features| - 1], "geometry")
        case Err(e) => Err(e)
        case Ok(g) =>
          match Term(host, g, r, aoiArea)
          case Err(e) => Err(e)
          case Ok(t) => Ok(Add(acc, t))
  }

  predicate HasType(gj: Value, name: string) {
    Member(gj, "type") == Ok(Some(Str(name)))
  }

  /** The coverage percentage of result `r` against the AOI `gj`, as the body of the `forEach` computes it. */
  function Coverage(host: Host, gj: Value, r: Value, aoiArea: real): Result<Double, Error>
  {
    match Member(gj, "type")
    case Err(e) => Err(e)
    case Ok(t) =>
      if t == Some(Str("FeatureCollection")) then
        match Member(gj, "features")
        case Ok(Some(Arr(fs))) => SumCoverage(host, fs, r, aoiArea)
        case _ => Err(TypeError)
      else if t == Some(Str("Feature")) then
        Term(host, Prop(gj.fields, "geometry"), r, aoiArea)
      else if t == Some(Str("Polygon")) then
        Term(host, Some(gj), r, aoiArea)
      else
        Ok(Finite(0.0))
  }

  /** Whether result `r` is kept: its coverage is at least the threshold (`percentage >= coverage`). */
  predicate Kept(host: Host, gj: Value, threshold: Double, aoiArea: real, r: Value) {
    var c := Coverage(host, gj, r, aoiArea);
    c.Ok? && Ge(c.value, threshold)
  }

  /** The test inside the `forEach` over the results: whether `r`'s coverage reaches the threshold, or what it throws. */
  function CoverageTest(host: Host, gj: Value, threshold: Double, aoiArea: real): Value -> Result<bool, Error>
  {
    r => match Coverage(host, gj, r, aoiArea)
         case Err(e) => Err(e)
         case Ok(p) => Ok(Ge(p, threshold))
  }

  /** The list `newResponse` that the `forEach` over the results builds, or the error it throws. */
  function CoverageFilter(host: Host, gj: Value, threshold: Double, aoiArea: real, response: seq<Value>)
    : Result<seq<Value>, Error>
  {
    FilterEach(CoverageTest(host, gj, threshold, aoiArea), response)
  }

  // ---------------------------------------------------------------------
  // The loops

  /** The body of the `forEach` over the results: one result's coverage percentage. */
  method ComputeCoverage(host: Host, gj: Value, r: Value, aoiArea: real) returns (p: Result<Double, Error>)
    ensures p == Coverage(host, gj, r, aoiArea)
  {
    var t := Member(gj, "type");
    if t.Err? {
      return Err(t.error);
    }
    if t.value == Some(Str("FeatureCollection")) {
      var fs := Member(gj, "features");
      if !(fs.Ok? && fs.value.Some? && fs.value.value.Arr?) {
        return Err(TypeError);
      }
      p := SumOverFeatures(host, fs.value.value.elems, r, aoiArea);
    } else if t.value == Some(Str("Feature")) {
      p := Term(host, Prop(gj.fields, "geometry"), r, aoiArea);
    } else if t.value == Some(Str("Polygon")) {
      p := Term(host, Some(gj), r, aoiArea);
    } else {
      p := Ok(Finite(0.0));
    }
  }

  /** `gj.features.forEach(...)`: add up the coverage of each member of a FeatureCollection. */
  method SumOverFeatures(host: Host, features: seq<Value>, r: Value, aoiArea: real) returns (p: Result<Double, Error>)
    ensures p == SumCoverage(host, features, r, aoiArea)
  {
    var percentage := Finite(0.0);
    var j := 0;
    while j < |features|
      invariant 0 <= j <= |features|
      invariant SumCoverage(host, features[..j], r, aoiArea) == Ok(percentage)
    {
      SumCoverageStep(host, features, r, aoiArea, j);
      var g := Member(features[j], "geometry");
      if g.Err? {
        SumCoveragePrefixError(host, features, r, aoiArea, j + 1);
        return Err(g.error);
      }
      var term := Term(host, g.value, r, aoiArea);
      if term.Err? {
        SumCoveragePrefixError(host, features, r, aoiArea, j + 1);
        return Err(term.error);
      }
      percentage := Add(percentage, term.value);
      j := j + 1;
    }
    assert features[..j] == features;
    p := Ok(percentage);
  }

  /** The `forEach` over the results: push each result whose percentage reaches the threshold. */
  method FilterByCoverage(host: Host, gj: Value, threshold: Double, aoiArea: real, response: seq<Value>)
    returns (out: Result<seq<Value>, Error>)
    ensures out == CoverageFilter(host, gj, threshold, aoiArea, response)
  {
    var newResponse := [];
    var i := 0;
    while i < |response|
      invariant 0 <= i <= |response|
      invariant CoverageFilter(host, gj, threshold, aoiArea, response[..i]) == Ok(newResponse)
    {
      assert response[..i + 1][..i] == response[..i];
      var percentage := ComputeCoverage(host, gj, response[i], aoiArea);
      if percentage.Err? {
        FilterEachPrefixError(CoverageTest(host, gj, threshold, aoiArea), response, i + 1);
        return Err(percentage.error);
      }
      if Ge(percentage.value, threshold) {
        newResponse := newResponse + [response[i]];
      }
      i := i + 1;
    }
    assert response[..i] == response;
    out := Ok(newResponse);
  }

  // ---------------------------------------------------------------------
  // Errors stop the loops

  /** One more member: the running sum adds that member's term to the sum of those before it. */
  lemma SumCoverageStep(host: Host, features: seq<Value>, r: Value, aoiArea: real, j: nat)
    requires j < |features|
    ensures var before := SumCoverage(host, features[..j], r, aoiArea);
            var g := Member(features[j], "geometry");
            SumCoverage(host, features[..j + 1], r, aoiArea)
            == if before.Err? then before
               else if g.Err? then Err(g.error)
               else match Term(host, g.value, r, aoiArea)
                    case Err(e) => Err(e)
                    case Ok(t) => Ok(Add(before.value, t))
  {
    assert features[..j + 1][..j] == features[..j];
  }

  /** Once the running sum has thrown, the whole `forEach` throws the same error. */
  lemma {:induction false} SumCoveragePrefixError(host: Host, features: seq<Value>, r: Value, aoiArea: real, k: nat)
    requires k <= |features|
    requires SumCoverage(host, features[..k], r, aoiArea).Err?
    ensures SumCoverage(host, features, r, aoiArea) == SumCoverage(host, features[..k], r, aoiArea)
    decreases |features| - k
  {
    if k < |features| {
      var n := |features|;
      assert features[..n - 1][..k] == features[..k];
      SumCoveragePrefixError(host, features[..n - 1], r, aoiArea, k);
    } else {
      assert features[..k] == features;
    }
  }

  // ---------------------------------------------------------------------
  // What a result's coverage is, by AOI type

  /** The geometry of a FeatureCollection member (`f.geometry`), `undefined` on a non-object. */
  function GeometryOf(f: Value): Option<Value> {
    if f.Obj? then Prop(f.fields, "geometry") else None
  }

  /** The percentage one AOI part contributes for a scene, in plain real arithmetic. */
  function PartPercent(host: Host, part: Option<Value>, scene: Option<Value>, aoiArea: real): real
    requires aoiArea != 0.0
  {
    match host.intersect(part, scene)
    case None => 0.0
    case Some(x) => host.area(x) / aoiArea * 100.0
  }

  /** On an object result and a non-degenerate AOI, one term of the coverage is the part's percentage. */
  lemma TermIsPart(host: Host, part: Option<Value>, r: Value, aoiArea: real)
    requires aoiArea != 0.0 && r.Obj?
    ensures Term(host, part, r, aoiArea) == Ok(Finite(PartPercent(host, part, Prop(r.fields, "data_geometry"), aoiArea)))
  {
    var scene := Prop(r.fields, "data_geometry");
    if host.intersect(part, scene).Some? {
      var a := host.area(host.intersect(part, scene).value);
      assert Div(a, aoiArea) == Finite(a / aoiArea);
    }
  }

  /** The sum, over the members of a FeatureCollection, of what each contributes. */
  function TotalPercent(host: Host, fs: seq<Value>, scene: Option<Value>, aoiArea: real): real
    requires aoiArea != 0.0
  {
    if fs == [] then 0.0
    else PartPercent(host, GeometryOf(fs[0]), scene, aoiArea) + TotalPercent(host, fs[1..], scene, aoiArea)
  }

  predicate NoNullMember(fs: seq<Value>) {
    forall i :: 0 <= i < |fs| ==> !fs[i].Null?
  }

  lemma {:induction false} TotalPercentLast(host: Host, fs: seq<Value>, scene: Option<Value>, aoiArea: real)
    requires aoiArea != 0.0 && fs != []
    ensures TotalPercent(host, fs, scene, aoiArea)
            == TotalPercent(host, fs[..|fs| - 1], scene, aoiArea)
               + PartPercent(host, GeometryOf(fs[|fs| - 1]), scene, aoiArea)
    decreases |fs|
  {
    if |fs| > 1 {
      assert fs[1..][..|fs| - 2] == fs[..|fs| - 1][1..];
      TotalPercentLast(host, fs[1..], scene, aoiArea);
    }
  }

  /**
   * The running sum over a FeatureCollection is the plain sum of what its
   * members contribute, each divided by the area of the whole AOI.
   */
  lemma {:induction false} SumCoverageIsTotal(host: Host, fs: seq<Value>, r: Value, aoiArea: real)
    requires aoiArea != 0.0 && r.Obj? && NoNullMember(fs)
    ensures SumCoverage(host, fs, r, aoiArea)
            == Ok(Finite(TotalPercent(host, fs, Prop(r.fields, "data_geometry"), aoiArea)))
    decreases |fs|
  {
    if fs != [] {
      var n := |fs|;
      var scene := Prop(r.fields, "data_geometry");
      var last := fs[n - 1];
      var init := fs[..n - 1];
      assert NoNullMember(init);
      SumCoverageIsTotal(host, init, r, aoiArea);
      TotalPercentLast(host, fs, scene, aoiArea);
      var before := TotalPercent(host, init, scene, aoiArea);
      var part := PartPercent(host, GeometryOf(last), scene, aoiArea);
      assert Member(last, "geometry") == Ok(GeometryOf(last));
      assert SumCoverage(host, init, r, aoiArea) == Ok(Finite(before));
      TermIsPart(host, GeometryOf(last), r, aoiArea);
      assert Term(host, GeometryOf(last), r, aoiArea) == Ok(Finite(part));
      assert SumCoverage(host, fs, r, aoiArea) == Ok(Add(Finite(before), Finite(part)));
    }
  }

  /** A FeatureCollection AOI: the coverage is the sum over its members, not their average. */
  lemma FeatureCollectionCoverage(host: Host, gj: Value, fs: seq<Value>, r: Value, aoiArea: real)
    requires HasType(gj, "FeatureCollection") && Member(gj, "features") == Ok(Some(Arr(fs)))
    requires aoiArea != 0.0 && r.Obj? && NoNullMember(fs)
    ensures Coverage(host, gj, r, aoiArea)
            == Ok(Finite(TotalPercent(host, fs, Prop(r.fields, "data_geometry"), aoiArea)))
  {
    SumCoverageIsTotal(host, fs, r, aoiArea);
  }

  /**
   * Two members of a FeatureCollection that each overlap a scene by half of
   * the AOI's area give a coverage of 100, not 50.
   */
  lemma TwoHalvesCoverFully(host: Host, gj: Value, f1: Value, f2: Value, r: Value, x1: Value, x2: Value)
    requires HasType(gj, "FeatureCollection") && Member(gj, "features") == Ok(Some(Arr([f1, f2])))
    requires f1.Obj? && f2.Obj? && r.Obj?
    requires host.area(gj) > 0.0
    requires host.intersect(GeometryOf(f1), Prop(r.fields, "data_geometry")) == Some(x1)
    requires host.intersect(GeometryOf(f2), Prop(r.fields, "data_geometry")) == Some(x2)
    requires host.area(x1) + host.area(x2) == host.area(gj)
    ensures Coverage(host, gj, r, host.area(gj)) == Ok(Finite(100.0))
  {
    var a := host.area(gj);
    var scene := Prop(r.fields, "data_geometry");
    FeatureCollectionCoverage(host, gj, [f1, f2], r, a);
    assert [f1, f2][1..] == [f2] && [f2][1..] == [];
    assert TotalPercent(host, [f2], scene, a) == host.area(x2) / a * 100.0;
    assert TotalPercent(host, [f1, f2], scene, a) == host.area(x1) / a * 100.0 + host.area(x2) / a * 100.0;
    HalvesMakeWhole(host.area(x1), host.area(x2), a);
  }

  lemma HalvesMakeWhole(a1: real, a2: real, a: real)
    requires a > 0.0 && a1 + a2 == a
    ensures a1 / a * 100.0 + a2 / a * 100.0 == 100.0
  {
    assert a1 / a + a2 / a == (a1 + a2) / a;
  }

  /** A Feature AOI: one term, computed with the Feature's geometry. */
  lemma FeatureCoverage(host: Host, gj: Value, r: Value, aoiArea: real)
    requires HasType(gj, "Feature") && r.Obj? && aoiArea != 0.0
    ensures Coverage(host, gj, r, aoiArea)
            == Ok(Finite(PartPercent(host, GeometryOf(gj), Prop(r.fields, "data_geometry"), aoiArea)))
  {
  }

  /** A Polygon AOI that contains the scene's overlap in full covers it 100%: threshold 100 keeps it, 100.01 does not. */
  lemma PolygonFullCoverage(host: Host, gj: Value, r: Value, x: Value)
    requires HasType(gj, "Polygon") && r.Obj?
    requires host.intersect(Some(gj), Prop(r.fields, "data_geometry")) == Some(x)
    requires host.area(x) == host.area(gj) > 0.0
    ensures Coverage(host, gj, r, host.area(gj)) == Ok(Finite(100.0))
    ensures Kept(host, gj, Finite(100.0), host.area(gj), r)
    ensures !Kept(host, gj, Finite(100.01), host.area(gj), r)
  {
    assert host.area(x) / host.area(gj) == 1.0;
  }

  /** Any AOI type other than FeatureCollection, Feature and Polygon contributes nothing. */
  lemma OtherTypeCoversNothing(host: Host, gj: Value, r: Value, threshold: Double, aoiArea: real)
    requires !gj.Null?
    requires !HasType(gj, "FeatureCollection") && !HasType(gj, "Feature") && !HasType(gj, "Polygon")
    ensures Coverage(host, gj, r, aoiArea) == Ok(Finite(0.0))
    ensures Kept(host, gj, threshold, aoiArea, r) <==> Ge(Finite(0.0), threshold)
  {
  }

  /** No member of the FeatureCollection intersects the scene. */
  predicate MissesAll(host: Host, fs: seq<Value>, scene: Option<Value>) {
    forall i :: 0 <= i < |fs| ==> host.intersect(GeometryOf(fs[i]), scene).None?
  }

  lemma {:induction false} TotalPercentNoOverlap(host: Host, fs: seq<Value>, scene: Option<Value>, aoiArea: real)
    requires aoiArea != 0.0
    requires MissesAll(host, fs, scene)
    ensures TotalPercent(host, fs, scene, aoiArea) == 0.0
    decreases |fs|
  {
    if fs != [] {
      assert forall i :: 0 <= i < |fs| - 1 ==> fs[1..][i] == fs[i + 1];
      TotalPercentNoOverlap(host, fs[1..], scene, aoiArea);
      assert host.intersect(GeometryOf(fs[0]), scene).None?;
    }
  }

  /**
   * The running sum over members that all miss the scene is 0, whatever the
   * AOI's area: a missing member's term is 0 before anything is divided.
   */
  lemma {:induction false} SumCoverageNoOverlap(host: Host, fs: seq<Value>, r: Value, aoiArea: real)
    requires r.Obj? && NoNullMember(fs)
    requires MissesAll(host, fs, Prop(r.fields, "data_geometry"))
    ensures SumCoverage(host, fs, r, aoiArea) == Ok(Finite(0.0))
    decreases |fs|
  {
    if fs != [] {
      var n := |fs|;
      var init, last := fs[..n - 1], fs[n - 1];
      assert forall i :: 0 <= i < n - 1 ==> init[i] == fs[i];
      SumCoverageNoOverlap(host, init, r, aoiArea);
      assert Member(last, "geometry") == Ok(GeometryOf(last));
      assert host.intersect(GeometryOf(last), Prop(r.fields, "data_geometry")).None?;
    }
  }

  /**
   * A scene that overlaps no part of the AOI (the Feature's geometry, the
   * Polygon, or each member of the FeatureCollection) is covered 0%, whatever
   * the AOI's area, 0 included: threshold 0 keeps it (the comparison is
   * inclusive), any positive threshold drops it.
   */
  lemma NoOverlapCoversNothing(host: Host, gj: Value, r: Value, aoiArea: real, threshold: real)
    requires r.Obj?
    requires HasType(gj, "Feature") || HasType(gj, "Polygon")
             || (HasType(gj, "FeatureCollection") && Member(gj, "features").Ok?
                 && Member(gj, "features").value.Some? && Member(gj, "features").value.value.Arr?
                 && NoNullMember(Member(gj, "features").value.value.elems))
    requires HasType(gj, "Feature") ==> host.intersect(GeometryOf(gj), Prop(r.fields, "data_geometry")).None?
    requires HasType(gj, "Polygon") ==> host.intersect(Some(gj), Prop(r.fields, "data_geometry")).None?
    requires HasType(gj, "FeatureCollection") ==>
               MissesAll(host, Member(gj, "features").value.value.elems, Prop(r.fields, "data_geometry"))
    ensures Coverage(host, gj, r, aoiArea) == Ok(Finite(0.0))
    ensures Kept(host, gj, Finite(threshold), aoiArea, r) <==> threshold <= 0.0
  {
    if HasType(gj, "FeatureCollection") {
      SumCoverageNoOverlap(host, Member(gj, "features").value.value.elems, r, aoiArea);
    }
  }

  /** An empty FeatureCollection covers every result 0%, so threshold 0 keeps every result. */
  lemma EmptyFeatureCollection(host: Host, gj: Value, r: Value, aoiArea: real)
    requires HasType(gj, "FeatureCollection") && Member(gj, "features") == Ok(Some(Arr([])))
    ensures Coverage(host, gj, r, aoiArea) == Ok(Finite(0.0))
    ensures Kept(host, gj, Finite(0.0), aoiArea, r)
  {
  }

  /**
   * A Feature or Polygon AOI of area zero (a Feature wrapping a Point or a
   * LineString, a degenerate Polygon): a result it misses is covered 0%,
   * kept exactly when 0 reaches the threshold; a result it overlaps,
   * necessarily in an overlap of area zero, gives `0 / 0 * 100`, NaN, which
   * no threshold keeps, not even 0. (A bare Point or LineString AOI is of
   * another type and covers every result 0%.)
   */
  lemma ZeroAreaAoi(host: Host, gj: Value, r: Value, threshold: Double)
    requires (HasType(gj, "Feature") || HasType(gj, "Polygon")) && r.Obj? && host.area(gj) == 0.0
    ensures var part := if HasType(gj, "Feature") then GeometryOf(gj) else Some(gj);
            var overlap := host.intersect(part, Prop(r.fields, "data_geometry"));
            overlap.None? ==>
              && Coverage(host, gj, r, host.area(gj)) == Ok(Finite(0.0))
              && (Kept(host, gj, threshold, host.area(gj), r) <==> Ge(Finite(0.0), threshold))
    ensures var part := if HasType(gj, "Feature") then GeometryOf(gj) else Some(gj);
            var overlap := host.intersect(part, Prop(r.fields, "data_geometry"));
            overlap.Some? && host.area(overlap.value) == 0.0 ==>
              && Coverage(host, gj, r, host.area(gj)) == Ok(NaN)
              && !Kept(host, gj, threshold, host.area(gj), r)
  {
  }

  /** Every member's overlap with the scene has an area between 0 and the AOI's. */
  predicate OverlapsWithin(host: Host, fs: seq<Value>, scene: Option<Value>, aoiArea: real) {
    forall i :: 0 <= i < |fs| && host.intersect(GeometryOf(fs[i]), scene).Some? ==>
      0.0 <= host.area(host.intersect(GeometryOf(fs[i]), scene).value) <= aoiArea
  }

  lemma {:induction false} TotalPercentBounds(host: Host, fs: seq<Value>, scene: Option<Value>, aoiArea: real)
    requires aoiArea > 0.0
    requires OverlapsWithin(host, fs, scene, aoiArea)
    ensures 0.0 <= TotalPercent(host, fs, scene, aoiArea) <= 100.0 * |fs| as real
    decreases |fs|
  {
    if fs != [] {
      assert forall i :: 0 <= i < |fs| - 1 ==> fs[1..][i] == fs[i + 1];
      TotalPercentBounds(host, fs[1..], scene, aoiArea);
      match host.intersect(GeometryOf(fs[0]), scene)
      case None =>
      case Some(x) =>
        assert 0.0 <= host.area(x) <= aoiArea;
        assert 0.0 <= host.area(x) / aoiArea <= 1.0;
    }
  }

  /**
   * With each member's overlap no larger than the AOI, a FeatureCollection of
   * n members covers a scene between 0 and 100 * n percent: the sum is not
   * capped at 100.
   */
  lemma FeatureCollectionBounds(host: Host, gj: Value, fs: seq<Value>, r: Value, aoiArea: real)
    requires HasType(gj, "FeatureCollection") && Member(gj, "features") == Ok(Some(Arr(fs)))
    requires aoiArea > 0.0 && r.Obj? && NoNullMember(fs)
    requires OverlapsWithin(host, fs, Prop(r.fields, "data_geometry"), aoiArea)
    ensures Coverage(host, gj, r, aoiArea).Ok? && Coverage(host, gj, r, aoiArea).value.Finite?
    ensures 0.0 <= Coverage(host, gj, r, aoiArea).value.r <= 100.0 * |fs| as real
  {
    FeatureCollectionCoverage(host, gj, fs, r, aoiArea);
    TotalPercentBounds(host, fs, Prop(r.fields, "data_geometry"), aoiArea);
  }

  lemma {:induction false} SumCoverageError(host: Host, fs: seq<Value>, r: Value, aoiArea: real)
    requires !r.Null?
    ensures SumCoverage(host, fs, r, aoiArea).Err? <==> !NoNullMember(fs)
    decreases |fs|
  {
    if fs != [] {
      var n := |fs|;
      SumCoverageError(host, fs[..n - 1], r, aoiArea);
      assert NoNullMember(fs) <==> NoNullMember(fs[..n - 1]) && !fs[n - 1].Null?;
    }
  }

  /**
   * For a result that is an object, computing its coverage throws exactly when
   * the AOI is `null`, or is a FeatureCollection whose `features` is not an
   * array or holds a `null`.
   */
  lemma CoverageError(host: Host, gj: Value, r: Value, aoiArea: real)
    requires !r.Null?
    ensures Coverage(host, gj, r, aoiArea).Err? <==>
            gj.Null?
            || (HasType(gj, "FeatureCollection")
                && !(Member(gj, "features").Ok? && Member(gj, "features").value.Some?
                     && Member(gj, "features").value.value.Arr?
                     && NoNullMember(Member(gj, "features").value.value.elems)))
  {
    if HasType(gj, "FeatureCollection") {
      var fs := Member(gj, "features");
      if fs.Ok? && fs.value.Some? && fs.value.value.Arr? {
        SumCoverageError(host, fs.value.value.elems, r, aoiArea);
      }
    }
  }

  // ---------------------------------------------------------------------
  // The filter

  /** The test passes a result exactly when the filter's condition holds of it. */
  lemma KeptPasses(host: Host, gj: Value, threshold: Double, aoiArea: real, r: Value)
    ensures Kept(host, gj, threshold, aoiArea, r) <==> CoverageTest(host, gj, threshold, aoiArea)(r) == Ok(true)
    ensures Coverage(host, gj, r, aoiArea).Err? <==> CoverageTest(host, gj, threshold, aoiArea)(r).Err?
  {
  }

  /**
   * The positions in `response` of the results the filter keeps, in order:
   * a position is listed exactly when its result's coverage reaches the threshold.
   */
  lemma FilterPositions(host: Host, gj: Value, threshold: Double, aoiArea: real, response: seq<Value>)
    returns (idx: seq<nat>)
    requires CoverageFilter(host, gj, threshold, aoiArea, response).Ok?
    ensures var out := CoverageFilter(host, gj, threshold, aoiArea, response).value;
            && Selects(CoverageTest(host, gj, threshold, aoiArea), out, response, idx)
            && (forall i :: 0 <= i < |response| ==> (i in idx <==> Kept(host, gj, threshold, aoiArea, response[i])))
  {
    idx := FilterEachPositions(CoverageTest(host, gj, threshold, aoiArea), response);
    forall i | 0 <= i < |response|
      ensures i in idx <==> Kept(host, gj, threshold, aoiArea, response[i])
    {
      KeptPasses(host, gj, threshold, aoiArea, response[i]);
    }
  }

  /** `a` is `b` with some elements left out: an order-preserving subsequence. */
  ghost predicate IsSubsequence<T>(a: seq<T>, b: seq<T>) {
    exists idx: seq<nat> ::
      && |idx| == |a|
      && (forall k :: 0 <= k < |a| ==> idx[k] < |b| && a[k] == b[idx[k]])
      && (forall k, l :: 0 <= k < l < |a| ==> idx[k] < idx[l])
  }

  /** The filter keeps the order of the results and only removes some of them. */
  lemma FilterIsSubsequence(host: Host, gj: Value, threshold: Double, aoiArea: real, response: seq<Value>)
    requires CoverageFilter(host, gj, threshold, aoiArea, response).Ok?
    ensures IsSubsequence(CoverageFilter(host, gj, threshold, aoiArea, response).value, response)
  {
    var idx := FilterPositions(host, gj, threshold, aoiArea, response);
  }

  /** A result is in the output exactly when it is in the input and its coverage reaches the threshold. */
  lemma FilterKeepsExactly(host: Host, gj: Value, threshold: Double, aoiArea: real, response: seq<Value>, x: Value)
    requires CoverageFilter(host, gj, threshold, aoiArea, response).Ok?
    ensures x in CoverageFilter(host, gj, threshold, aoiArea, response).value
            <==> x in response && Kept(host, gj, threshold, aoiArea, x)
  {
    FilterEachMembership(CoverageTest(host, gj, threshold, aoiArea), response, x);
    KeptPasses(host, gj, threshold, aoiArea, x);
  }

  /** The filter throws exactly when computing the coverage of some result throws. */
  lemma FilterError(host: Host, gj: Value, threshold: Double, aoiArea: real, response: seq<Value>)
    ensures CoverageFilter(host, gj, threshold, aoiArea, response).Err?
            <==> exists i :: 0 <= i < |response| && Coverage(host, gj, response[i], aoiArea).Err?
  {
    var test := CoverageTest(host, gj, threshold, aoiArea);
    FilterEachError(test, response);
    forall i | 0 <= i < |response|
      ensures Coverage(host, gj, response[i], aoiArea).Err? <==> test(response[i]).Err?
    {
      KeptPasses(host, gj, threshold, aoiArea, response[i]);
    }
  }

  /** When every result reaches the threshold, the filter returns the results unchanged. */
  lemma FilterKeepsAll(host: Host, gj: Value, threshold: Double, aoiArea: real, response: seq<Value>)
    requires forall i :: 0 <= i < |response| ==> Kept(host, gj, threshold, aoiArea, response[i])
    ensures CoverageFilter(host, gj, threshold, aoiArea, response) == Ok(response)
  {
    var test := CoverageTest(host, gj, threshold, aoiArea);
    forall i | 0 <= i < |response|
      ensures test(response[i]) == Ok(true)
    {
      KeptPasses(host, gj, threshold, aoiArea, response[i]);
    }
    FilterEachKeepsAll(test, response);
  }

  /** A threshold that is not a number (`parseFloat` of a non-numeral) drops every result. */
  lemma FilterNaNThreshold(host: Host, gj: Value, aoiArea: real, response: seq<Value>)
    requires CoverageFilter(host, gj, NaN, aoiArea, response).Ok?
    ensures CoverageFilter(host, gj, NaN, aoiArea, response) == Ok([])
  {
    var out := CoverageFilter(host, gj, NaN, aoiArea, response).value;
    if out != [] {
      FilterKeepsExactly(host, gj, NaN, aoiArea, response, out[0]);
      assert false;
    }
  }
}
