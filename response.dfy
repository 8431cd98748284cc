/**
 * Response assembly in the success handler of `Search.prototype.search`
 * (libs/api.js): each index hit becomes a STAC Feature whose `properties` are
 * the hit's `_source` without five keys, whose `collection` links are made
 * absolute with the API's base URL, and which gets one self link.
 */
module Response {
  import opened Values
  import opened Numbers
  import opened Externals

  /** The keys of a hit's `_source` that are not copied into `properties`. */
  const ExcludedKeys: set<string> := {"bbox", "geometry", "assets", "links", "eo:bands"}

  /** A Feature of the response (its `type` is always 'Feature'). */
  datatype Feature = Feature(
    properties: map<string, Value>,
    bbox: Option<Value>,
    geometry: Option<Value>,
    assets: Option<Value>,
    links: seq<Value>,
    bands: Option<Value>)   // the `eo:bands` key

  /** The response object (its `type` is always 'FeatureCollection'). */
  datatype Envelope = Envelope(found: Option<Value>, limit: Double, page: Double, features: seq<Feature>)

  /** What the index answers: `hits.total` and the `_source` of each of `hits.hits`. */
  datatype Hits = Hits(total: Option<Value>, sources: seq<map<string, Value>>)

  /** `_source.links || []`: a falsy or missing value gives no links; `forEach` needs an array. */
  function LinksOf(src: map<string, Value>): (r: Result<seq<Value>, Error>)
    ensures r.Err? <==> TruthyOpt(Prop(src, "links")) && !src["links"].Arr?
    ensures r.Ok? && TruthyOpt(Prop(src, "links")) ==> r.value == src["links"].elems
    ensures r.Ok? && !TruthyOpt(Prop(src, "links")) ==> r.value == []
  {
    match Prop(src, "links")
    case Some(v) =>
      if !Truthy(v) then Ok([])
      else if v.Arr? then Ok(v.elems)
      else Err(TypeError)
    case None => Ok([])
  }

  predicate IsCollectionLink(el: Value) {
    el.Obj? && Prop(el.fields, "rel") == Some(Str("collection"))
  }

  /** The body of `links.forEach`: a `collection` link gets `API_URL` in front of its href. */
  function RewriteLink(host: Host, el: Value): (r: Result<Value, Error>)
    ensures r.Err? <==> el.Null?
    ensures r.Ok? && !IsCollectionLink(el) ==> r.value == el
    ensures r.Ok? && IsCollectionLink(el) ==>
              && r.value.Obj?
              && r.value.fields.Keys == el.fields.Keys + {"href"}
              && r.value.fields["href"] == Str(host.apiUrl + JsStringOpt(host.showNumber, Prop(el.fields, "href")))
              && (forall k :: k in el.fields && k != "href" ==> r.value.fields[k] == el.fields[k])
  {
    match el
    case Null => Err(TypeError)
    case Obj(f) =>
      if Prop(f, "rel") == Some(Str("collection")) then
        Ok(Obj(f["href" := Str(host.apiUrl + JsStringOpt(host.showNumber, Prop(f, "href")))]))
      else Ok(el)
    case _ => Ok(el)
  }

  /** The `links.forEach` body as a function value, for the loop over the links. */
  function LinkRewriter(host: Host): Value -> Result<Value, Error>
  {
    el => RewriteLink(host, el)
  }

  /** All links of one hit rewritten in order; the first `null` link throws. */
  function RewriteLinks(host: Host, links: seq<Value>): Result<seq<Value>, Error>
  {
    MapEach(LinkRewriter(host), links)
  }

  /** The path of the self link: `/collections` for the collections index, else `/search/stac`. */
  function Prefix(index: string): (p: string)
    ensures p == "/collections" <==> index == "collections"
    ensures p != "/collections" ==> p == "/search/stac"
  {
    if index == "collections" then "/collections" else "/search/stac"
  }

  /** The link appended to every feature; its relation is stored under the key `ref`. */
  function SelfLink(host: Host, index: string, id: Option<Value>): Value
  {
    Obj(map["ref" := Str("self"),
            "href" := Str(host.apiUrl + Prefix(index) + "?id=" + JsStringOpt(host.showNumber, id))])
  }

  /** One iteration of the loop over the hits. */
  function AssembleFeature(host: Host, index: string, src: map<string, Value>): Result<Feature, Error>
  {
    var props := Omit(src, ExcludedKeys);
    match LinksOf(src)
    case Err(e) => Err(e)
    case Ok(links) =>
      match RewriteLinks(host, links)
      case Err(e) => Err(e)
      case Ok(rewritten) =>
        Ok(Feature(props, Prop(src, "bbox"), Prop(src, "geometry"), Prop(src, "assets"),
                   rewritten + [SelfLink(host, index, Prop(props, "id"))], Prop(src, "eo:bands")))
  }

  /** The body of the loop over the hits as a function value. */
  function FeatureOf(host: Host, index: string): map<string, Value> -> Result<Feature, Error>
  {
    src => AssembleFeature(host, index, src)
  }

  /** The features of the response, one per hit, or the error the loop throws. */
  function AssembleFeatures(host: Host, index: string, sources: seq<map<string, Value>>): Result<seq<Feature>, Error>
  {
    MapEach(FeatureOf(host, index), sources)
  }

  /** The response the success handler passes to its callback. */
  function Assemble(host: Host, index: string, hits: Hits, size: Double, page: Double): Result<Envelope, Error>
  {
    match AssembleFeatures(host, index, hits.sources)
    case Err(e) => Err(e)
    case Ok(fs) => Ok(Envelope(hits.total, size, page, fs))
  }

  // ---------------------------------------------------------------------
  // The loops

  /** `links.forEach(...)`: rewrite each `collection` link in turn. */
  method RewriteCollectionLinks(host: Host, links: seq<Value>) returns (r: Result<seq<Value>, Error>)
    ensures r == RewriteLinks(host, links)
  {
    var done := [];
    var j := 0;
    while j < |links|
      invariant 0 <= j <= |links|
      invariant RewriteLinks(host, links[..j]) == Ok(done)
    {
      assert links[..j + 1][..j] == links[..j];
      var l := RewriteLink(host, links[j]);
      if l.Err? {
        MapEachPrefixError(LinkRewriter(host), links, j + 1);
        return Err(l.error);
      }
      done := done + [l.value];
      j := j + 1;
    }
    assert links[..j] == links;
    r := Ok(done);
  }

  /** One pass of the loop over the hits: the feature made of one hit's `_source`. */
  method AssembleHit(host: Host, index: string, src: map<string, Value>) returns (f: Result<Feature, Error>)
    ensures f == AssembleFeature(host, index, src)
  {
    var props := Omit(src, ExcludedKeys);
    var links := LinksOf(src);
    if links.Err? {
      return Err(links.error);
    }
    var rewritten := RewriteCollectionLinks(host, links.value);
    if rewritten.Err? {
      return Err(rewritten.error);
    }
    var self := SelfLink(host, index, Prop(props, "id"));
    f := Ok(Feature(props, Prop(src, "bbox"), Prop(src, "geometry"), Prop(src, "assets"),
                    rewritten.value + [self], Prop(src, "eo:bands")));
  }

  // ---------------------------------------------------------------------
  // What the response holds

  predicate BadLinks(src: map<string, Value>) {
    LinksOf(src).Err? || exists j :: 0 <= j < |LinksOf(src).value| && LinksOf(src).value[j].Null?
  }

  /** Rewriting keeps the number and order of the links, rewriting each on its own; it throws exactly on a `null` link. */
  lemma RewriteLinksEach(host: Host, links: seq<Value>)
    ensures RewriteLinks(host, links).Err? <==> exists j :: 0 <= j < |links| && links[j].Null?
    ensures RewriteLinks(host, links).Ok? ==>
              && |RewriteLinks(host, links).value| == |links|
              && forall j :: 0 <= j < |links| ==> RewriteLink(host, links[j]) == Ok(RewriteLinks(host, links).value[j])
  {
    MapEachAll(LinkRewriter(host), links);
  }

  /**
   * One feature per hit: `properties` is `_source` without the five excluded
   * keys, `bbox`, `geometry`, `assets` and `eo:bands` are copied, and the links
   * are the hit's links with `collection` hrefs made absolute, followed by
   * exactly one self link.
   */
  lemma FeatureContents(host: Host, index: string, src: map<string, Value>)
    ensures AssembleFeature(host, index, src).Err? <==> BadLinks(src)
    ensures AssembleFeature(host, index, src).Ok? ==>
              var f := AssembleFeature(host, index, src).value;
              var links := LinksOf(src).value;
              && f.properties.Keys == src.Keys - ExcludedKeys
              && (forall k :: k in f.properties ==> f.properties[k] == src[k])
              && f.bbox == Prop(src, "bbox") && f.geometry == Prop(src, "geometry")
              && f.assets == Prop(src, "assets") && f.bands == Prop(src, "eo:bands")
              && |f.links| == |links| + 1
              && f.links[|links|] == SelfLink(host, index, Prop(src, "id"))
              && (forall j :: 0 <= j < |links| && !IsCollectionLink(links[j]) ==> f.links[j] == links[j])
              && (forall j :: 0 <= j < |links| && IsCollectionLink(links[j]) ==>
                    f.links[j] == Obj(links[j].fields["href" := Str(host.apiUrl + JsStringOpt(host.showNumber, Prop(links[j].fields, "href")))]))
  {
    if LinksOf(src).Ok? {
      RewriteLinksEach(host, LinksOf(src).value);
    }
  }

  /** The loop over the hits throws exactly when one hit does, and otherwise makes one feature per hit, in order. */
  lemma AssembleFeaturesEach(host: Host, index: string, sources: seq<map<string, Value>>)
    ensures AssembleFeatures(host, index, sources).Err? <==>
            exists i :: 0 <= i < |sources| && AssembleFeature(host, index, sources[i]).Err?
    ensures AssembleFeatures(host, index, sources).Ok? ==>
              && |AssembleFeatures(host, index, sources).value| == |sources|
              && forall i :: 0 <= i < |sources| ==>
                   AssembleFeature(host, index, sources[i]) == Ok(AssembleFeatures(host, index, sources).value[i])
  {
    MapEachAll(FeatureOf(host, index), sources);
  }

  /**
   * The envelope: `found` is the index's total, `limit` and `page` are the
   * search's, and there is one feature per hit, in hit order. The handler
   * throws exactly when some hit has unusable links.
   */
  lemma EnvelopeContents(host: Host, index: string, hits: Hits, size: Double, page: Double)
    ensures Assemble(host, index, hits, size, page).Err? <==>
            exists i :: 0 <= i < |hits.sources| && BadLinks(hits.sources[i])
    ensures Assemble(host, index, hits, size, page).Ok? ==>
              var env := Assemble(host, index, hits, size, page).value;
              && env.found == hits.total && env.limit == size && env.page == page
              && |env.features| == |hits.sources|
              && forall i :: 0 <= i < |hits.sources| ==>
                   Ok(env.features[i]) == AssembleFeature(host, index, hits.sources[i])
  {
    AssembleFeaturesEach(host, index, hits.sources);
    forall i | 0 <= i < |hits.sources|
      ensures AssembleFeature(host, index, hits.sources[i]).Err? <==> BadLinks(hits.sources[i])
    {
      FeatureContents(host, index, hits.sources[i]);
    }
  }

  /**
   * The appended link carries its relation under `ref`, not `rel`, and points
   * at `API_URL` + prefix + `?id=` + the hit's id.
   */
  lemma SelfLinkShape(host: Host, index: string, id: string)
    ensures var l := SelfLink(host, index, Some(Str(id)));
            && l.Obj? && l.fields.Keys == {"ref", "href"}
            && l.fields["ref"] == Str("self")
            && l.fields["href"] == Str(host.apiUrl + Prefix(index) + "?id=" + id)
            && !IsCollectionLink(l)
  {
  }

  /**
   * A relative `collection` link gets the API's base URL in front of its
   * href, and the links around it, none of them `null` or a `collection`
   * link, are left as they are.
   */
  lemma CollectionLinkMadeAbsolute(host: Host, before: seq<Value>, path: string, after: seq<Value>)
    requires forall j :: 0 <= j < |before| ==> !before[j].Null? && !IsCollectionLink(before[j])
    requires forall j :: 0 <= j < |after| ==> !after[j].Null? && !IsCollectionLink(after[j])
    ensures RewriteLinks(host, before + [Obj(map["rel" := Str("collection"), "href" := Str(path)])] + after)
            == Ok(before + [Obj(map["rel" := Str("collection"), "href" := Str(host.apiUrl + path)])] + after)
  {
    var link := Obj(map["rel" := Str("collection"), "href" := Str(path)]);
    var absolute := Obj(map["rel" := Str("collection"), "href" := Str(host.apiUrl + path)]);
    var links := before + [link] + after;
    var expected := before + [absolute] + after;
    assert link.fields["href" := Str(host.apiUrl + path)] == absolute.fields;
    assert RewriteLink(host, link) == Ok(absolute);
    RewriteLinksEach(host, links);
    assert forall j :: 0 <= j < |links| ==> RewriteLink(host, links[j]) == Ok(expected[j]);
    assert RewriteLinks(host, links).value == expected;
  }
}
