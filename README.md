# OL_services map viewer: a Dafny model

The repository is a browser map viewer built on OpenLayers. It talks to a GeoServer over OGC Web
Feature Service (WFS). The model covers the three pieces of logic in it that can be stated exactly:

- **The WFS client** (`src/wfsHandler.js`). `WFSRequestHandler` holds a version, a workspace and a
  base URL. Each of its twelve request methods builds a URL by string concatenation and calls
  `sendRequest`, with GET by default and POST for the three modifying operations. `sendRequest`
  builds the `fetch` options, attaches a body only when the method is POST and the body is truthy,
  and sorts the reply by its `content-type` header: parsed JSON, or raw text that is logged.
- **Click handling on the map** (`src/mapSetup.js`):
  - picking the winning feature when several layers are hit (`getTopPriorityFeature`);
  - the single highlighted selection (`selectFeature`);
  - the geometry-type style table (`createStyleFunction`);
  - the field list read from a DescribeFeatureType schema (`fieldType`);
  - the click handler that ties these together (`layerHandler`).
- **The feature sidebar** (`src/gridHandler.js`). It holds one input per schema field, typed by an
  ordered substring test on the field's XSD type and filled with the property or "". The inputs
  start read-only, and an Edit button flips every input and relabels itself after the first.

## Modules

- `common.dfy` (`Common`) defines `Option`, prefixes and suffixes, and `Contains`, the model of
  `String.prototype.includes`. `Contains` is proved equal to the positional definition of a
  substring. The module also defines `IndexOf`, the model of `Array.prototype.indexOf`, which
  compares with strict equality and returns -1 when the value is absent.
- `query_string.dfy` (`QueryString`) models how a server splits a URL into its endpoint and its
  `key=value` parameters, and is used to state what each URL means. The endpoint is the part
  before the first `?`, the rest is split at `&`, and each piece is split at its first `=`. It does
  no URL decoding. The module also writes a list of parameters as a query string and proves the
  round trip between the two.
- `wfs_handler.dfy` (`WfsHandler`) defines the handler and one `Operation` constructor per request
  method. It holds the twelve URL templates and the parameters each URL carries. It also holds
  `sendRequest`'s options, which a method computes as the source does, the content-type
  classifier, and the settling of the promise.
- `stable_sort.dfy` (`StableSort`) models `Array.prototype.sort` with a numeric comparator, which
  ECMAScript 2019 requires to be stable. The result is specified by insertion sort and proved to be
  ordered, a permutation and stable. `SortInPlace` computes that result in place on an array.
- `grid_handler.dfy` (`GridHandler`) models the sidebar as a class. It holds the form's inputs,
  their `disabled` flags in an array, the button's text and whether the close handler is installed.
- `map_setup.dfy` (`MapSetup`) covers:
  - the viewer's handler;
  - the candidate list and the priority sort;
  - `Selection`, a class holding `selectedFeature` and the style each feature was given;
  - the style table, the schema field list and the click handler.

What the code does, and the model with it:

- Hit priority does not follow the page's layer list. `generateLayersList` never sets
  `data-layer-name`, so every entry of `layersInHtmlOrder` is `undefined` (`PageOrderUndefined`),
  and every named layer gets the sort key -1. The sort then changes nothing, and the first layer
  with a hit, in map layer-array order, wins (`FirstHitLayerWins`).
- An unnamed layer compares `undefined` with `undefined`. Strict equality makes that index 0, not
  -1, whenever the list is non-empty. The general lemmas allow any order and any names.
- The code has no layer registry, no reorder operation and no save request. The button labelled
  "Save" only flips the inputs back to read-only.
- A click on empty map clears the selection but leaves the sidebar open.

## Model

| member | source | states |
|---|---|---|
| Common.ContainsIffOccurs | src/wfsHandler.js:99 | the substring test holds exactly when the needle occurs at some position of the text |
| Common.Contains | src/wfsHandler.js:99 | the model of `includes`, used by the content-type and field-type tests; `ContainsIffOccurs` relates it to positions |
| Common.ContainsInContext | src/gridHandler.js:32-36 | a text that embeds the needle anywhere contains it |
| Common.IndexOf | src/mapSetup.js:226-227 | the result is -1 exactly when the value is absent, and otherwise the first position holding it |
| QueryString.DecodeEncode | src/wfsHandler.js:10-78 | a query string written from parameters without `&`, or `=` in a key, reads back as exactly those parameters, in order |
| QueryString.ParseBuiltUrl | src/wfsHandler.js:10-78 | `base?query` with no `?` in the base reads back as that endpoint and those parameters |
| QueryString.Lookup | src/wfsHandler.js:10-78 | a key is found exactly when some parameter has it |
| QueryString.LookupFirst | src/wfsHandler.js:10-78 | the value found for a key is that of its first occurrence |
| WfsHandler.Params | src/wfsHandler.js:10-78 | every request carries at least three parameters, and they are `service=WFS`, the version sent and the operation name, in that order |
| WfsHandler.Url | src/wfsHandler.js:9-79 | the twelve URL templates, one per request method; pinned down by `UrlEncodesParams`, `UrlStartsWithPrefix`, the three version lemmas and `UrlReadsBack` |
| WfsHandler.UrlEncodesParams | src/wfsHandler.js:10-78 | each of the twelve URLs is the base URL, `?`, and its parameter list written as a query string |
| WfsHandler.UrlStartsWithPrefix | src/wfsHandler.js:10-78 | every URL starts with `baseUrl?service=WFS&version=<v>&request=<operation name>` |
| WfsHandler.ConfiguredVersionSent | src/wfsHandler.js:10-34 | the five all-version operations send the configured version |
| WfsHandler.Wfs2VersionSent | src/wfsHandler.js:41-72 | the six WFS 2.0 operations put the literal `version=2.0.0` in the URL, whatever the configured version |
| WfsHandler.GmlObjectVersionSent | src/wfsHandler.js:77-79 | GetGMLObject puts the literal `version=1.1.0&request=GetGMLObject` in the URL |
| WfsHandler.PinnedVersionIgnoresConfiguration | src/wfsHandler.js:41-79 | for the seven operations with a hard-coded version, changing the handler's version changes neither the URL nor its parameters |
| WfsHandler.TypeNameIsQualified | src/wfsHandler.js:16-47 | every `typeName` parameter is `workspace:featureName`, and one is present exactly for the five operations naming a feature type |
| WfsHandler.GetFeatureAsksForJson | src/wfsHandler.js:22 | the GetFeature URL ends with `&outputFormat=application/json`, and a server reads the JSON output format from it |
| WfsHandler.UrlReadsBack | src/wfsHandler.js:10-78 | when no spliced value holds `&`, `%`, `+`, `#`, a space or a control character, and the base holds no `?`, `#`, space or control character, a server reads the URL as the base URL and the parameter list, with the request's operation name, the version sent and the qualified type name |
| WfsHandler.FilterIsNotEscaped | src/wfsHandler.js:28 | values are spliced in verbatim: two different LockFeature calls can build the same URL |
| WfsHandler.Args | src/wfsHandler.js:35-83 | what each request method passes to `sendRequest`: its URL; POST exactly for transaction, createStoredQuery and dropStoredQuery, GET by default; the caller's body for transaction and createStoredQuery, and none otherwise |
| WfsHandler.OptionsFor | src/wfsHandler.js:84-92 | the options keep the method and always set `Content-Type: application/xml`; a body is attached exactly for a POST with a truthy body, and it is that body |
| WfsHandler.PrepareOptions | src/wfsHandler.js:84-92 | building the options object and then conditionally setting `options.body` yields the specified options |
| WfsHandler.RequestMethodAndBody | src/wfsHandler.js:35-92 | POST exactly for transaction, createStoredQuery and dropStoredQuery; a body exactly for a truthy transaction or createStoredQuery argument; none for dropStoredQuery or any GET |
| WfsHandler.Classify | src/wfsHandler.js:96-113 | the content-type test, JSON first; described by `JsonWins`, `XmlIsText`, `MissingHeaderIsOther` and `PlainTextIsOther` |
| WfsHandler.RequestFor | src/wfsHandler.js:83-95 | the request `fetch` receives; described by `RequestMethodAndBody` |
| WfsHandler.JsonWins | src/wfsHandler.js:99-101 | a header mentioning `application/json` anywhere is parsed as JSON, whatever else it mentions |
| WfsHandler.XmlIsText | src/wfsHandler.js:104-108 | a header mentioning `application/xml` or `text/xml` and not JSON gives the raw text |
| WfsHandler.MissingHeaderIsOther | src/wfsHandler.js:96-113 | a missing or empty header is neither JSON nor XML |
| WfsHandler.PlainTextIsOther | src/wfsHandler.js:104-113 | `text/plain` is neither JSON nor XML |
| WfsHandler.Settle | src/wfsHandler.js:94-118 | a failure is rethrown unchanged; a reply resolves to its payload, parsed exactly when the header says JSON; at most one log line, and none exactly for JSON |
| WfsHandler.SettleLogsKind | src/wfsHandler.js:106-116 | the log line carries the XML-error, unexpected-format or request-error label and the payload or error |
| StableSort.InsertAfterPermutes | src/mapSetup.js:222-229 | one insertion step adds the element and loses none |
| StableSort.Sort | src/mapSetup.js:222-229 | the stable sort by key the comparator `indexOf(a) - indexOf(b)` gives; pinned down by `SortPermutes`, `SortSorted`, `SortStable` and `SortHead` |
| StableSort.SortPermutes | src/mapSetup.js:222-229 | the sorted array is a permutation of the candidates |
| StableSort.SortSorted | src/mapSetup.js:222-229 | the sort orders by key |
| StableSort.SortStable | src/mapSetup.js:222-229 | for every key, the elements with that key keep their original order |
| StableSort.EarliestMinIndex | src/mapSetup.js:222-229 | the position of an element whose key is minimal, with every earlier key strictly larger |
| StableSort.SortHead | src/mapSetup.js:222-232 | the sort puts first the earliest of the elements with the smallest key |
| StableSort.SortInPlace | src/mapSetup.js:222-229 | sorting the array in place leaves the stable sort of its old contents |
| StableSort.InsertLast | src/mapSetup.js:222-229 | one pass moves the next element left past every larger key of the sorted prefix and leaves the rest of the array alone |
| GridHandler.ShownValue | src/gridHandler.js:29 | the value shown is truthy or "" |
| GridHandler.ShownValueDefault | src/gridHandler.js:29 | a truthy property is shown as it is; a missing property, 0, false, null and "" show as "" |
| GridHandler.InputTypeFor | src/gridHandler.js:31-40 | the ordered substring test on the field type; described by `StringTakesPrecedence` and the lemmas for concrete XSD types below |
| GridHandler.StringTakesPrecedence | src/gridHandler.js:32-33 | a type naming a string gives a text input even if it also names a number or a date |
| GridHandler.IntegerIsNumber | src/gridHandler.js:34-35 | `xsd:integer` gives a number input |
| GridHandler.FloatIsNumber | src/gridHandler.js:34-35 | `xsd:float` gives a number input |
| GridHandler.PointPropertyIsNumber | src/gridHandler.js:34-35 | `gml:PointPropertyType` gives a number input, because it contains "int" |
| GridHandler.DateTimeIsDate | src/gridHandler.js:36-37 | `xsd:dateTime` gives a date input |
| GridHandler.UnmatchedNumberIsText | src/gridHandler.js:38-40 | `xsd:double` and `xsd:decimal` match no test and fall back to text |
| GridHandler.Toggled | src/gridHandler.js:71-73 | the same number of flags, each one flipped |
| GridHandler.ToggleTwiceRestores | src/gridHandler.js:70-73 | two Edit clicks restore every input |
| GridHandler.Label | src/gridHandler.js:75-79 | the Edit button's text for the first input's state; used by `Sidebar.ClickEdit` |
| GridHandler.Sidebar.Show | src/gridHandler.js:1-86 | the sidebar opens; it succeeds exactly when a field list is given and every field has a type; then the form holds one input per field, in order, named, typed and filled as specified and read-only, the button reads "Edit" and the close handler is installed; otherwise the grid is empty |
| GridHandler.Sidebar.ClickEdit | src/gridHandler.js:68-80 | every input flips; with inputs present the button then reads "Edit" exactly when the first input is disabled, else "Save"; with none the handler throws before relabelling |
| GridHandler.Sidebar.Close | src/gridHandler.js:83-85 | the close button closes the sidebar once its handler is installed |
| MapSetup.ViewerGetFeatureUrl | src/mapSetup.js:17-91 | the viewer asks for a layer with a WFS 2.0.0 GetFeature of `sketchup:<name>` as JSON from `http://localhost:8080/geoserver/sketchup/ows` |
| MapSetup.Candidates | src/mapSetup.js:203-214 | only layers with at least one hit are kept |
| MapSetup.CandidatesExact | src/mapSetup.js:200-214 | the candidates are exactly the layers with hits, each with its own hits, in layer-array order |
| MapSetup.NoCandidatesNoHits | src/mapSetup.js:208-216 | there is no candidate exactly when no layer is hit |
| MapSetup.GenerateLayersList | src/mapSetup.js:114-160 | the list is rebuilt with one item per layer, in layer-array order, each carrying its layer and index and no data attribute |
| MapSetup.LayersInHtmlOrder | src/mapSetup.js:217-220 | each `.layer-item`'s `dataset.layerName`, in document order; `PageOrderUndefined` gives it on the page's list |
| MapSetup.PageOrderUndefined | src/mapSetup.js:217-220 | on the list the page builds, `layersInHtmlOrder` has one entry per layer and every entry is `undefined` |
| MapSetup.GetTopPriorityFeature | src/mapSetup.js:199-238 | pushing the hit layers, sorting them in place and taking the first feature gives the specified winner |
| MapSetup.NoHitNoResult | src/mapSetup.js:216-237 | the result is `null` exactly when no layer is hit |
| MapSetup.TopPriority | src/mapSetup.js:199-238 | the winner: `null` without a hit layer, else the first feature of the first candidate after the stable sort; its properties are `NoHitNoResult`, `WinnerHasEarliestMinimalKey` and `FirstHitLayerWins` |
| MapSetup.KeyFn | src/mapSetup.js:222-228 | the sort key, the candidate layer's name looked up in `layersInHtmlOrder` with `indexOf`; described by `Common.IndexOf` and `PageOrderUndefined` |
| MapSetup.StyleFor | src/mapSetup.js:47-87 | the style table; `UnknownGeometryUnstyled` gives it in full |
| MapSetup.WinnerHasEarliestMinimalKey | src/mapSetup.js:217-234 | the winner is the first feature of the earliest candidate with the smallest key: its key is at most every other, and every earlier candidate's is larger |
| MapSetup.FirstHitLayerWins | src/mapSetup.js:120-234 | with the order the page builds and named layers, the first layer with a hit wins, with its first feature |
| MapSetup.UnknownGeometryUnstyled | src/mapSetup.js:47-87 | Point and MultiPoint give the circle, LineString and MultiLineString the red stroke, Polygon and MultiPolygon the blue stroke, and exactly the other types get no style |
| MapSetup.Selection.constructor | src/mapSetup.js:15 | nothing is selected or restyled at start |
| MapSetup.Selection.Select | src/mapSetup.js:162-193 | the previous selection is reset, then the new feature, if any, is highlighted and selected; nothing else is restyled, and at most that feature is highlighted |
| MapSetup.FieldTypes | src/mapSetup.js:240-259 | one `{name, type}` per schema element in document order, `null` for a missing attribute, or `undefined` when the request failed |
| MapSetup.OnClick | src/mapSetup.js:261-288 | a miss clears the selection and nothing else; a hit requests the hit layer's schema and opens the sidebar; the sidebar is built exactly when the schema arrived and every element has a type, and then it shows the winning feature's properties under the schema's fields with the button reading "Edit", and the feature is selected; otherwise the grid is empty and the selection is unchanged |

## Left out

- Network I/O is left out: `fetch`, `response.json()` and `response.text()`. A reply is a content
  type and an opaque payload, so malformed JSON is not modelled.
- `console.error` and `console.log` appear only as the (label, value) log lines of `Settle`. The
  logging in `mapSetup.js` is left out.
- OpenLayers and proj4 are left out: the map, view, projection, tile source and GeoJSON decoding.
  `addWfsLayer` is modelled only by the request it sends (`ViewerGetFeatureUrl`).
- Hit testing (`map.getFeaturesAtPixel`) is left out. Its answer for each layer is an input.
- `DOMParser` is left out. The schema's `xsd:element` attributes are an input.
- DOM construction is left out: CSS, colours, radii, and the checkboxes, labels and zoom buttons
  of `generateLayersList`. Styles are tags, and a layer-list item keeps its layer, its index and its
  data attributes.
- `layersInHtmlOrder` reads every `.layer-item` of the `layers-list` element. The model takes
  these to be exactly the items `generateLayersList` appended. `src/layerControls.js`, which
  `main.js` calls, is not part of this model, so it is assumed not to add `.layer-item` entries
  with a `data-layer-name`.
- Async ordering and races between overlapping clicks and pending schema requests are left out,
  because they are concurrency.
- `selectFeature` calls `showFeatureModal`, which is never defined or imported. That call throws
  after `selectedFeature` is set, so `Selection.Select` gives the state reached at
  `src/mapSetup.js:193`.
- `main.js` is not part of this model.
- The page's initial sidebar markup is not part of the source files. `Sidebar.constructor` takes
  it as closed, with no form, no button and no close handler.
- Sidebar.Show: label text for a `null` field name is not kept apart from the name.
- Sidebar.Show: property names inherited from `Object.prototype` are not modelled, and the map of
  properties holds only the feature's own properties.
- GridHandler.Value: numbers are integers, so floating point and NaN truthiness are out.
- `feature.getGeometry()` returning null is not modelled. The click handler would throw at
  `src/mapSetup.js:272` before the schema request, and `createStyleFunction` would throw at
  `src/mapSetup.js:49`; `MapSetup.StyleFor` takes the geometry type string as given.
- MapSetup.ViewerGetFeatureUrl: it assumes a layer name without `&`, `%`, `+`, `#`, spaces and
  control characters, for the reason given for `WfsHandler.UrlReadsBack`. The URL for any name is
  `WfsHandler.GetFeatureUrl`, and `WfsHandler.UrlEncodesParams` covers every name.
- The constructor of `WFSRequestHandler` is the `Handler` datatype. Its twelve request methods are
  the `Operation` constructors.
- WfsHandler.UrlReadsBack: the reader models neither the URL parser that `fetch` runs nor the
  server's URL decoding. So the lemma is stated only for values without `&`, `%`, `+`, `#`, spaces
  and control characters, and for a base URL without `?`, `#`, spaces and control characters. For
  these strings, four steps change nothing:
  - the parser's removal of tabs and newlines;
  - its trimming of the URL's ends;
  - its cutting at `#`;
  - the server's percent-decoding, including reading `+` as a space.
  The parser does percent-encode some other characters, but the server's decoding restores those.
  A value holding one of the excluded characters is sent unescaped, and a server reads something
  else (`FilterIsNotEscaped` shows one case).
