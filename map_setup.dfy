/**
 * The map viewer's click handling: which hit feature wins when several layers
 * are hit, the single highlighted selection, the style a geometry type gets,
 * the field list read from a DescribeFeatureType schema, and the click
 * handler that ties these to the WFS handler and the sidebar.
 */
module MapSetup {
  import opened Common
  import opened StableSort
  import opened GridHandler
  import opened WfsHandler
  import opened QueryString

  /** The one handler the viewer builds (mapSetup.js:17-20). */
  const ViewerHandler := Handler("2.0.0", "sketchup", "http://localhost:8080/geoserver/sketchup/ows")

  /**
   * The request `addWfsLayer(name)` loads a layer's GeoJSON with, as the server
   * reads it: a WFS 2.0.0 GetFeature of `sketchup:<name>` as JSON from the local
   * GeoServer (mapSetup.js:17-20, 91; wfsHandler.js:22).
   */
  lemma ViewerGetFeatureUrl(name: string)
    requires Verbatim(name)
    ensures ParseUrl(Url(ViewerHandler, GetFeature(name)))
         == ("http://localhost:8080/geoserver/sketchup/ows",
             [("service", "WFS"), ("version", "2.0.0"), ("request", "GetFeature"),
              ("typeName", "sketchup:" + name), ("outputFormat", "application/json")])
  {
    ViewerSpliceable(name);
    UrlReadsBack(ViewerHandler, GetFeature(name));
    ViewerParams(name);
  }

  lemma ViewerSpliceable(name: string)
    requires Verbatim(name)
    ensures Spliceable(ViewerHandler, GetFeature(name))
  {
    ViewerBaseUnqueried(ViewerHandler.baseUrl);
    ViewerBaseUnfragmented(ViewerHandler.baseUrl);
    ViewerBasePrintable(ViewerHandler.baseUrl);
    ViewerConfigVerbatim(ViewerHandler.version);
    ViewerConfigVerbatim(ViewerHandler.workspace);
  }

  lemma ViewerConfigVerbatim(v: string)
    requires v == "2.0.0" || v == "sketchup"
    ensures Verbatim(v)
  {
  }

  lemma ViewerBaseUnqueried(b: string)
    requires b == "http://localhost:8080/geoserver/sketchup/ows"
    ensures '?' !in b
  {
  }

  lemma ViewerBaseUnfragmented(b: string)
    requires b == "http://localhost:8080/geoserver/sketchup/ows"
    ensures '#' !in b
  {
  }

  lemma ViewerBasePrintable(b: string)
    requires b == "http://localhost:8080/geoserver/sketchup/ows"
    ensures Printable(b)
  {
  }

  lemma ViewerParams(name: string)
    ensures Params(ViewerHandler, GetFeature(name))
         == [("service", "WFS"), ("version", "2.0.0"), ("request", "GetFeature"),
             ("typeName", "sketchup:" + name), ("outputFormat", "application/json")]
  {
    assert "sketchup" + ":" == "sketchup:";
  }

  // ---------------------------------------------------------------------------
  // Layers, features and hits.

  /** A feature object: its identity, its geometry type and its properties. */
  datatype Feature = Feature(id: nat, geometryType: string, properties: map<string, Value>)

  /** A map layer: its identity and `layer.get("name")`, None when unset. */
  datatype Layer = Layer(id: nat, name: Option<string>)

  /** One pushed entry of `featuresAtPixel`: a layer and its hits. */
  datatype Candidate = Candidate(layer: Layer, features: seq<Feature>)

  /** The winning feature and its layer. */
  datatype Hit = Hit(feature: Feature, layer: Layer)

  /**
   * The layers at the clicked pixel, in map layer-array order, each with what
   * `map.getFeaturesAtPixel` returned for it.
   */
  type PixelHits = seq<(Layer, seq<Feature>)>

  /** The entries pushed by the `forEach` over the layers (mapSetup.js:203-214). */
  function Candidates(hits: PixelHits): (cs: seq<Candidate>)
    ensures |cs| <= |hits|
    ensures forall k :: 0 <= k < |cs| ==> |cs[k].features| > 0
  {
    if |hits| == 0 then []
    else
      var last := hits[|hits| - 1];
      Candidates(hits[..|hits| - 1]) + (if |last.1| > 0 then [Candidate(last.0, last.1)] else [])
  }

  lemma {:induction false} CandidatesConcat(a: PixelHits, b: PixelHits)
    ensures Candidates(a + b) == Candidates(a) + Candidates(b)
    decreases |b|
  {
    if |b| == 0 {
      assert a + b == a;
    } else {
      assert (a + b)[..|a + b| - 1] == a + b[..|b| - 1];
      CandidatesConcat(a, b[..|b| - 1]);
    }
  }

  /**
   * The candidates are exactly the layers with at least one hit, each with its
   * own hits, in layer-array order: collecting is a homomorphism over
   * concatenation that keeps a layer with hits and drops one without
   * (mapSetup.js:200-214).
   */
  lemma CandidatesExact(a: PixelHits, b: PixelHits, layer: Layer, fs: seq<Feature>)
    ensures Candidates(a + [(layer, fs)] + b)
         == Candidates(a) + (if |fs| > 0 then [Candidate(layer, fs)] else []) + Candidates(b)
  {
    CandidatesConcat(a + [(layer, fs)], b);
    CandidatesConcat(a, [(layer, fs)]);
    assert [(layer, fs)][..0] == [];
  }

  lemma {:induction false} NoCandidatesNoHits(hits: PixelHits)
    ensures |Candidates(hits)| == 0 <==> forall k :: 0 <= k < |hits| ==> |hits[k].1| == 0
  {
    if |hits| > 0 {
      NoCandidatesNoHits(hits[..|hits| - 1]);
      assert forall k :: 0 <= k < |hits| - 1 ==> hits[..|hits| - 1][k] == hits[k];
    }
  }

  // ---------------------------------------------------------------------------
  // The priority order.

  /**
   * One `.layer-item` element of the page's layer list: the layer it stands
   * for, the index its checkbox id carries, and its `data-*` attributes as
   * `element.dataset` sees them (camel-cased keys).
   */
  datatype LayerItem = LayerItem(layer: Layer, index: nat, dataset: map<string, string>)

  /**
   * The item `generateLayersList` builds for the layer at `index`: a checkbox,
   * a label and, for vector layers, a Zoom button, but no data attribute
   * (mapSetup.js:120-158).
   */
  function LayerItemFor(layer: Layer, index: nat): LayerItem {
    LayerItem(layer, index, map[])
  }

  /** The list's items after `generateLayersList(layers)`, in layer-array order. */
  function LayerList(layers: seq<Layer>): seq<LayerItem> {
    seq(|layers|, k requires 0 <= k < |layers| => LayerItemFor(layers[k], k))
  }

  /**
   * `generateLayersList(layers)`: the list is cleared, then one item per layer
   * is appended in turn (mapSetup.js:114-160).
   */
  method GenerateLayersList(layers: seq<Layer>) returns (items: seq<LayerItem>)
    ensures items == LayerList(layers)
    ensures forall k :: 0 <= k < |items| ==> items[k].layer == layers[k] && items[k].index == k
  {
    items := [];
    for i := 0 to |layers|
      invariant |items| == i
      invariant forall k :: 0 <= k < i ==> items[k] == LayerItemFor(layers[k], k)
    {
      items := items + [LayerItemFor(layers[i], i)];
    }
  }

  /** `element.dataset.layerName`: the `data-layer-name` attribute, undefined (None) when unset. */
  function DatasetLayerName(e: LayerItem): Option<string> {
    if "layerName" in e.dataset then Some(e.dataset["layerName"]) else None
  }

  /** `layersInHtmlOrder`: each `.layer-item`'s `dataset.layerName`, in document order (mapSetup.js:217-220). */
  function LayersInHtmlOrder(items: seq<LayerItem>): seq<Option<string>> {
    seq(|items|, k requires 0 <= k < |items| => DatasetLayerName(items[k]))
  }

  /**
   * On the page `generateLayersList` builds, `layersInHtmlOrder` has one entry
   * per layer and every entry is undefined, since no item has a
   * `data-layer-name` (mapSetup.js:114-160, 217-220).
   */
  lemma PageOrderUndefined(layers: seq<Layer>)
    ensures |LayersInHtmlOrder(LayerList(layers))| == |layers|
    ensures forall k :: 0 <= k < |layers| ==> LayersInHtmlOrder(LayerList(layers))[k] == None
  {
  }

  /** The sort key: `layersInHtmlOrder.indexOf(c.layer.get("name"))`, -1 when absent. */
  function KeyFn(order: seq<Option<string>>): Candidate -> int {
    (c: Candidate) => IndexOf(order, c.layer.name)
  }

  /** `getTopPriorityFeature`: the first feature of the first candidate after the stable sort (mapSetup.js:199-238). */
  function TopPriority(hits: PixelHits, order: seq<Option<string>>): Option<Hit> {
    var cs := Candidates(hits);
    if |cs| == 0 then None
    else
      var sorted := Sort(cs, KeyFn(order));
      SortedHeadHasHits(cs, KeyFn(order));
      Some(Hit(sorted[0].features[0], sorted[0].layer))
  }

  /**
   * `getTopPriorityFeature`, as the code runs it: push each layer with hits,
   * sort the array in place, and take the first feature of the first entry.
   */
  method GetTopPriorityFeature(hits: PixelHits, order: seq<Option<string>>) returns (r: Option<Hit>)
    ensures r == TopPriority(hits, order)
  {
    var found: seq<Candidate> := [];
    for i := 0 to |hits|
      invariant found == Candidates(hits[..i])
    {
      assert hits[..i + 1][..i] == hits[..i];
      if |hits[i].1| > 0 {
        found := found + [Candidate(hits[i].0, hits[i].1)];
      }
    }
    assert hits[..|hits|] == hits;
    if |found| == 0 {
      return None;
    }
    var a := new Candidate[|found|](k requires 0 <= k < |found| => found[k]);
    assert a[..] == found;
    SortInPlace(a, KeyFn(order));
    SortedHeadHasHits(found, KeyFn(order));
    r := Some(Hit(a[0].features[0], a[0].layer));
  }

  lemma SortedHeadHasHits(cs: seq<Candidate>, key: Candidate -> int)
    requires |cs| > 0 && forall k :: 0 <= k < |cs| ==> |cs[k].features| > 0
    ensures |Sort(cs, key)[0].features| > 0
  {
    SortPermutes(cs, key);
    assert Sort(cs, key)[0] in multiset(Sort(cs, key));
    assert Sort(cs, key)[0] in multiset(cs);
  }

  /** No layer hit, no result (mapSetup.js:216, 237). */
  lemma NoHitNoResult(hits: PixelHits, order: seq<Option<string>>)
    ensures TopPriority(hits, order).None? <==> forall k :: 0 <= k < |hits| ==> |hits[k].1| == 0
  {
    NoCandidatesNoHits(hits);
  }

  /**
   * The winner is the first feature of a candidate whose key is at most every
   * other candidate's, and no earlier candidate has that key: ties keep
   * layer-array order (mapSetup.js:217-234).
   */
  lemma WinnerHasEarliestMinimalKey(hits: PixelHits, order: seq<Option<string>>)
    requires |Candidates(hits)| > 0
    ensures var cs, key := Candidates(hits), KeyFn(order);
            var w := cs[EarliestMinIndex(cs, key)];
            && TopPriority(hits, order) == Some(Hit(w.features[0], w.layer))
            && (forall k :: 0 <= k < |cs| ==> key(w) <= key(cs[k]))
            && (forall k :: 0 <= k < EarliestMinIndex(cs, key) ==> key(w) < key(cs[k]))
  {
    TopPriorityIsEarliestMin(hits, order);
    EarliestMinIndexFacts(Candidates(hits), KeyFn(order));
  }

  lemma TopPriorityIsEarliestMin(hits: PixelHits, order: seq<Option<string>>)
    requires |Candidates(hits)| > 0
    ensures var cs := Candidates(hits);
            var w := cs[EarliestMinIndex(cs, KeyFn(order))];
            TopPriority(hits, order) == Some(Hit(w.features[0], w.layer))
  {
    SortedHeadWins(Candidates(hits), KeyFn(order));
  }

  lemma EarliestMinIndexFacts(cs: seq<Candidate>, key: Candidate -> int)
    requires |cs| > 0
    ensures forall k :: 0 <= k < |cs| ==> key(cs[EarliestMinIndex(cs, key)]) <= key(cs[k])
    ensures forall k :: 0 <= k < EarliestMinIndex(cs, key) ==> key(cs[EarliestMinIndex(cs, key)]) < key(cs[k])
  {
  }

  lemma SortedHeadWins(cs: seq<Candidate>, key: Candidate -> int)
    requires |cs| > 0 && forall k :: 0 <= k < |cs| ==> |cs[k].features| > 0
    ensures |Sort(cs, key)[0].features| > 0
    ensures Sort(cs, key)[0] == cs[EarliestMinIndex(cs, key)]
  {
    SortedHeadHasHits(cs, key);
    SortHead(cs, key);
  }

  /**
   * With the order the page actually builds, every named layer's key is -1, so
   * the first layer with a hit wins whenever the hit layers are named
   * (mapSetup.js:120-158, 218-229).
   */
  lemma FirstHitLayerWins(hits: PixelHits, layers: seq<Layer>, i: int)
    requires 0 <= i < |hits| && |hits[i].1| > 0
    requires forall k :: 0 <= k < i ==> |hits[k].1| == 0
    requires forall k :: 0 <= k < |hits| ==> hits[k].0.name.Some?
    ensures TopPriority(hits, LayersInHtmlOrder(LayerList(layers))) == Some(Hit(hits[i].1[0], hits[i].0))
  {
    var order := LayersInHtmlOrder(LayerList(layers));
    PageOrderUndefined(layers);
    var cs, key := Candidates(hits), KeyFn(order);
    assert hits == hits[..i] + [hits[i]] + hits[i + 1..];
    CandidatesExact(hits[..i], hits[i + 1..], hits[i].0, hits[i].1);
    NoCandidatesNoHits(hits[..i]);
    assert cs[0] == Candidate(hits[i].0, hits[i].1);
    CandidateLayersNamed(hits);
    forall k | 0 <= k < |cs|
      ensures key(cs[k]) == -1
    {
      assert cs[k].layer.name.Some?;
    }
    var m := EarliestMinIndex(cs, key);
    assert m == 0;
    SortHead(cs, key);
  }

  lemma {:induction false} CandidateLayersNamed(hits: PixelHits)
    requires forall k :: 0 <= k < |hits| ==> hits[k].0.name.Some?
    ensures forall k :: 0 <= k < |Candidates(hits)| ==> Candidates(hits)[k].layer.name.Some?
  {
    if |hits| > 0 {
      CandidateLayersNamed(hits[..|hits| - 1]);
    }
  }

  // ---------------------------------------------------------------------------
  // Styles.

  /** The style `createStyleFunction` gives a feature; NoStyle stands for `undefined`. */
  datatype StyleTag = CircleStyle | RedStroke | BlueStroke | NoStyle

  /** The geometry type → style mapping (mapSetup.js:47-87). */
  function StyleFor(geometryType: string): StyleTag {
    if geometryType == "Point" || geometryType == "MultiPoint" then CircleStyle
    else if geometryType == "LineString" || geometryType == "MultiLineString" then RedStroke
    else if geometryType == "Polygon" || geometryType == "MultiPolygon" then BlueStroke
    else NoStyle
  }

  /** The six OGC simple-feature types the style function knows. */
  predicate KnownGeometry(t: string) {
    t in {"Point", "MultiPoint", "LineString", "MultiLineString", "Polygon", "MultiPolygon"}
  }

  /** Exactly the six known types get a style; every other type, such as GeometryCollection, gets none. */
  lemma UnknownGeometryUnstyled(t: string)
    ensures StyleFor(t) == NoStyle <==> !KnownGeometry(t)
    ensures StyleFor(t) == CircleStyle <==> t == "Point" || t == "MultiPoint"
    ensures StyleFor(t) == RedStroke <==> t == "LineString" || t == "MultiLineString"
    ensures StyleFor(t) == BlueStroke <==> t == "Polygon" || t == "MultiPolygon"
  {
  }

  // ---------------------------------------------------------------------------
  // The selection.

  /**
   * The module-level `selectedFeature` and the style each feature was given
   * with `setStyle`: true for the highlight, false for `setStyle(null)`;
   * a feature never restyled is not in the map.
   */
  class Selection {
    var selected: Option<Feature>
    var styled: map<Feature, bool>

    /** The features currently drawn with the highlight. */
    function Highlighted(): set<Feature>
      reads this
    {
      set f | f in styled && styled[f]
    }

    /** Only the selected feature can be highlighted. */
    ghost predicate Valid()
      reads this
    {
      forall f :: f in styled && styled[f] ==> selected == Some(f)
    }

    constructor ()
      ensures Valid() && selected.None? && styled == map[]
    {
      selected, styled := None, map[];
    }

    /**
     * `selectFeature(f)`: the previous selection loses its style, then `f`, if
     * any, is highlighted and becomes the selection; nothing else is restyled.
     * The state is the one reached at mapSetup.js:193: line 195 then calls
     * `showFeatureModal`, which is never defined or imported, and throws
     * (mapSetup.js:162-193).
     */
    method Select(f: Option<Feature>)
      requires Valid()
      modifies this
      ensures Valid()
      ensures selected == f
      ensures Highlighted() == if f.Some? then {f.value} else {}
      ensures var reset := if old(selected).Some? then old(styled)[old(selected).value := false] else old(styled);
              styled == if f.Some? then reset[f.value := true] else reset
    {
      if selected.Some? {
        styled := styled[selected.value := false];
        selected := None;
      }
      if f.Some? {
        styled := styled[f.value := true];
        selected := f;
      }
    }
  }

  // ---------------------------------------------------------------------------
  // The schema's field list.

  /** An `xsd:element` of the DescribeFeatureType schema, by its attributes. */
  datatype XsdElement = XsdElement(attributes: map<string, string>)

  /** `element.getAttribute(key)`: `null` (None) when absent. */
  function Attribute(e: XsdElement, key: string): Option<string> {
    if key in e.attributes then Some(e.attributes[key]) else None
  }

  /** The `{name, type}` records read from `elements`, one per element in order. */
  function Fields(elements: seq<XsdElement>): seq<FieldDecl> {
    seq(|elements|, k requires 0 <= k < |elements| =>
      FieldDecl(Attribute(elements[k], "name"), Attribute(elements[k], "type")))
  }

  /**
   * `fieldType(layerName)`: on a settled DescribeFeatureType request, one
   * `{name, type}` per `xsd:element` of the parsed schema, in document order;
   * `undefined` (None) when the request was rejected (mapSetup.js:240-259).
   */
  method FieldTypes(schema: Settled, elements: seq<XsdElement>) returns (r: Option<seq<FieldDecl>>)
    ensures r.Some? <==> schema.Resolved?
    ensures r.Some? ==> r.value == Fields(elements)
    ensures r.Some? ==> |r.value| == |elements|
    ensures r.Some? ==> forall k :: 0 <= k < |elements| ==>
              r.value[k] == FieldDecl(Attribute(elements[k], "name"), Attribute(elements[k], "type"))
  {
    if schema.Rejected? {
      return None;
    }
    var fields: seq<FieldDecl> := [];
    var i := 0;
    while i < |elements|
      invariant 0 <= i <= |elements|
      invariant |fields| == i
      invariant forall k :: 0 <= k < i ==>
                  fields[k] == FieldDecl(Attribute(elements[k], "name"), Attribute(elements[k], "type"))
    {
      var name := Attribute(elements[i], "name");
      var xsdType := Attribute(elements[i], "type");
      fields := fields + [FieldDecl(name, xsdType)];
      i := i + 1;
    }
    assert fields == Fields(elements);
    r := Some(fields);
  }

  // ---------------------------------------------------------------------------
  // The click handler.

  /** A layer name in a template literal: `undefined` when unset. */
  function NameText(name: Option<string>): string {
    if name.Some? then name.value else "undefined"
  }

  datatype ClickOutcome =
    | Missed
    | Found(hit: Hit, schemaRequest: FetchRequest, shown: bool)

  /**
   * The map's click handler: on a miss the selection is cleared; on a hit the
   * layer's schema is requested, the sidebar shown, and the feature selected
   * only if the sidebar did not throw (mapSetup.js:261-288).  The schema reply
   * and its parsed elements are inputs.
   */
  method OnClick(selection: Selection, sidebar: Sidebar, hits: PixelHits, order: seq<Option<string>>,
                 schema: Settled, elements: seq<XsdElement>)
      returns (outcome: ClickOutcome)
    requires selection.Valid()
    modifies selection, sidebar
    ensures selection.Valid()
    ensures outcome.Missed? <==> TopPriority(hits, order).None?
    ensures outcome.Missed? ==> selection.selected.None? && selection.Highlighted() == {}
    ensures outcome.Missed? ==> unchanged(sidebar)
    ensures outcome.Found? ==>
              && outcome.hit == TopPriority(hits, order).value
              && outcome.schemaRequest == RequestFor(ViewerHandler, DescribeFeatureType(NameText(outcome.hit.layer.name)))
              && sidebar.open
    ensures outcome.Found? ==> sidebar.Valid()
    ensures outcome.Found? && outcome.shown ==>
              && sidebar.Shows(outcome.hit.feature.properties, Fields(elements))
              && sidebar.button == Some("Edit") && sidebar.closeBound
    ensures outcome.Found? && !outcome.shown ==> sidebar.names == [] && sidebar.button.None?
    ensures outcome.Found? && outcome.shown ==>
              selection.selected == Some(outcome.hit.feature) && selection.Highlighted() == {outcome.hit.feature}
    ensures outcome.Found? && !outcome.shown ==>
              selection.selected == old(selection.selected) && selection.styled == old(selection.styled)
    ensures outcome.Found? ==> (outcome.shown <==> schema.Resolved? && (forall e :: e in elements ==> "type" in e.attributes))
  {
    var top := GetTopPriorityFeature(hits, order);
    if top.None? {
      selection.Select(None);
      return Missed;
    }
    var hit := top.value;
    var request := RequestFor(ViewerHandler, DescribeFeatureType(NameText(hit.layer.name)));
    var fields := FieldTypes(schema, elements);
    var ok := sidebar.Show(hit.feature.properties, fields);
    if ok {
      selection.Select(Some(hit.feature));
    }
    outcome := Found(hit, request, ok);
  }
}
