/**
 * The WFS request handler: a client bound to one endpoint (WFS version,
 * GeoServer workspace, base URL) that turns each WFS operation into an HTTP
 * request by string concatenation, and classifies the server's reply by its
 * `content-type` header.
 */
module WfsHandler {
  import opened Common
  import opened QueryString

  /** The three fields the constructor stores and no method changes. */
  datatype Handler = Handler(version: string, workspace: string, baseUrl: string)

  /**
   * One call of one of the handler's twelve request methods, with its
   * arguments.  A body argument is None for `null`/`undefined`.
   */
  datatype Operation =
    | GetCapabilities
    | DescribeFeatureType(featureName: string)
    | GetFeature(featureName: string)
    | LockFeature(featureName: string, filter: string)
    | Transaction(xmlBody: Option<string>)
    | GetFeatureWithLock(featureName: string, filter: string)
    | GetPropertyValue(featureName: string, propertyName: string)
    | CreateStoredQuery(queryXml: Option<string>)
    | DropStoredQuery(queryId: string)
    | ListStoredQueries
    | DescribeStoredQueries(queryId: string)
    | GetGmlObject(featureId: string)

  datatype HttpMethod = GET | POST

  /** The arguments a request method passes to `sendRequest`, defaults filled in. */
  datatype SendArgs = SendArgs(url: string, body: Option<string>, verb: HttpMethod)

  /** The `fetch` options `sendRequest` builds. */
  datatype FetchOptions = FetchOptions(verb: HttpMethod, contentType: string, body: Option<string>)

  datatype FetchRequest = FetchRequest(url: string, options: FetchOptions)

  /** The version the WFS 2.0 operations send whatever the handler's version (wfsHandler.js:41-72). */
  const Wfs2Version: string := "2.0.0"

  /** The version GetGMLObject sends, a WFS 1.1.0 operation (wfsHandler.js:77-79). */
  const GmlObjectVersion: string := "1.1.0"

  /** The URL each request method builds (wfsHandler.js, one template literal per method). */
  function Url(h: Handler, op: Operation): string {
    match op
    case GetCapabilities => GetCapabilitiesUrl(h)
    case DescribeFeatureType(name) => DescribeFeatureTypeUrl(h, name)
    case GetFeature(name) => GetFeatureUrl(h, name)
    case LockFeature(name, filter) => LockFeatureUrl(h, name, filter)
    case Transaction(_) => TransactionUrl(h)
    case GetFeatureWithLock(name, filter) => GetFeatureWithLockUrl(h, name, filter)
    case GetPropertyValue(name, property) => GetPropertyValueUrl(h, name, property)
    case CreateStoredQuery(_) => CreateStoredQueryUrl(h)
    case DropStoredQuery(id) => DropStoredQueryUrl(h, id)
    case ListStoredQueries => ListStoredQueriesUrl(h)
    case DescribeStoredQueries(id) => DescribeStoredQueriesUrl(h, id)
    case GetGmlObject(id) => GetGmlObjectUrl(h, id)
  }

  function GetCapabilitiesUrl(h: Handler): string {
    h.baseUrl + "?service=WFS&version=" + h.version + "&request=GetCapabilities"
  }

  function DescribeFeatureTypeUrl(h: Handler, name: string): string {
    h.baseUrl + "?service=WFS&version=" + h.version + "&request=DescribeFeatureType&typeName="
      + h.workspace + ":" + name
  }

  function GetFeatureUrl(h: Handler, name: string): string {
    h.baseUrl + "?service=WFS&version=" + h.version + "&request=GetFeature&typeName="
      + h.workspace + ":" + name + "&outputFormat=application/json"
  }

  function LockFeatureUrl(h: Handler, name: string, filter: string): string {
    h.baseUrl + "?service=WFS&version=" + h.version + "&request=LockFeature&typeName="
      + h.workspace + ":" + name + "&filter=" + filter
  }

  function TransactionUrl(h: Handler): string {
    h.baseUrl + "?service=WFS&version=" + h.version + "&request=Transaction"
  }

  function GetFeatureWithLockUrl(h: Handler, name: string, filter: string): string {
    h.baseUrl + "?service=WFS&version=" + Wfs2Version + "&request=GetFeatureWithLock&typeName="
      + h.workspace + ":" + name + "&filter=" + filter
  }

  function GetPropertyValueUrl(h: Handler, name: string, property: string): string {
    h.baseUrl + "?service=WFS&version=" + Wfs2Version + "&request=GetPropertyValue&typeName="
      + h.workspace + ":" + name + "&valueReference=" + property
  }

  function CreateStoredQueryUrl(h: Handler): string {
    h.baseUrl + "?service=WFS&version=" + Wfs2Version + "&request=CreateStoredQuery"
  }

  function DropStoredQueryUrl(h: Handler, id: string): string {
    h.baseUrl + "?service=WFS&version=" + Wfs2Version + "&request=DropStoredQuery&storedQueryId=" + id
  }

  function ListStoredQueriesUrl(h: Handler): string {
    h.baseUrl + "?service=WFS&version=" + Wfs2Version + "&request=ListStoredQueries"
  }

  function DescribeStoredQueriesUrl(h: Handler, id: string): string {
    h.baseUrl + "?service=WFS&version=" + Wfs2Version + "&request=DescribeStoredQueries&storedQueryId=" + id
  }

  function GetGmlObjectUrl(h: Handler, id: string): string {
    h.baseUrl + "?service=WFS&version=" + GmlObjectVersion + "&request=GetGMLObject&gmlObjectId=" + id
  }

  /** The operation names of OGC WFS 2.0 (ISO 19142) and, for GetGMLObject, WFS 1.1.0. */
  function OperationName(op: Operation): string {
    match op
    case GetCapabilities => "GetCapabilities"
    case DescribeFeatureType(_) => "DescribeFeatureType"
    case GetFeature(_) => "GetFeature"
    case LockFeature(_, _) => "LockFeature"
    case Transaction(_) => "Transaction"
    case GetFeatureWithLock(_, _) => "GetFeatureWithLock"
    case GetPropertyValue(_, _) => "GetPropertyValue"
    case CreateStoredQuery(_) => "CreateStoredQuery"
    case DropStoredQuery(_) => "DropStoredQuery"
    case ListStoredQueries => "ListStoredQueries"
    case DescribeStoredQueries(_) => "DescribeStoredQueries"
    case GetGmlObject(_) => "GetGMLObject"
  }

  /** Operations the handler offers for every WFS version. */
  predicate AllVersions(op: Operation) {
    op.GetCapabilities? || op.DescribeFeatureType? || op.GetFeature? || op.LockFeature? || op.Transaction?
  }

  /** Operations that exist only in WFS 2.0.0. */
  predicate Wfs2Only(op: Operation) {
    op.GetFeatureWithLock? || op.GetPropertyValue? || op.CreateStoredQuery? || op.DropStoredQuery?
      || op.ListStoredQueries? || op.DescribeStoredQueries?
  }

  /** The version a request announces: the configured one, or the one its operation belongs to. */
  function VersionSent(h: Handler, op: Operation): string {
    if AllVersions(op) then h.version else if Wfs2Only(op) then Wfs2Version else GmlObjectVersion
  }

  /** The qualified feature type name `workspace:featureName`. */
  function TypeName(h: Handler, name: string): string {
    h.workspace + ":" + name
  }

  /** The three parameters every request starts with. */
  function HeadParams(v: string, name: string): seq<Param> {
    [("service", "WFS"), ("version", v), ("request", name)]
  }

  /** The parameters a request carries after the first three, in URL order. */
  function Tail(h: Handler, op: Operation): seq<Param> {
    match op
    case DescribeFeatureType(name) => [("typeName", TypeName(h, name))]
    case GetFeature(name) => [("typeName", TypeName(h, name)), ("outputFormat", "application/json")]
    case LockFeature(name, filter) => [("typeName", TypeName(h, name)), ("filter", filter)]
    case GetFeatureWithLock(name, filter) => [("typeName", TypeName(h, name)), ("filter", filter)]
    case GetPropertyValue(name, property) => [("typeName", TypeName(h, name)), ("valueReference", property)]
    case DropStoredQuery(id) => [("storedQueryId", id)]
    case DescribeStoredQueries(id) => [("storedQueryId", id)]
    case GetGmlObject(id) => [("gmlObjectId", id)]
    case _ => []
  }

  /** The parameters each request carries, in order: what its URL means to a server. */
  function Params(h: Handler, op: Operation): (ps: seq<Param>)
    ensures |ps| >= 3
    ensures ps[0] == ("service", "WFS") && ps[1] == ("version", VersionSent(h, op))
    ensures ps[2] == ("request", OperationName(op))
  {
    HeadParams(VersionSent(h, op), OperationName(op)) + Tail(h, op)
  }

  // Why each URL reads back as its parameters.  The literal pieces of a template
  // are merged by small chain lemmas, and the reassociation of the concatenations
  // is done by lemmas over variables only, which keeps each proof obligation small.

  lemma EncodeHeadParams(v: string, nm: string, t: seq<Param>)
    requires |t| > 0
    ensures Encode(HeadParams(v, nm) + t)
         == EncodeParam(("service", "WFS")) + "&" + (EncodeParam(("version", v)) + "&"
            + (EncodeParam(("request", nm)) + "&" + Encode(t)))
  {
    EncodeThreeThen(("service", "WFS"), ("version", v), ("request", nm), t);
  }

  lemma EncodeThreeThen(a: Param, b: Param, c: Param, t: seq<Param>)
    requires |t| > 0
    ensures Encode([a, b, c] + t) == EncodeParam(a) + "&" + (EncodeParam(b) + "&" + (EncodeParam(c) + "&" + Encode(t)))
  {
    var t1 := [c] + t;
    var t2 := [b] + t1;
    EncodeCons(c, t);
    EncodeCons(b, t1);
    EncodeCons(a, t2);
    ConsThree(a, b, c, t);
  }

  lemma ConsThree<T>(a: T, b: T, c: T, t: seq<T>)
    ensures [a] + ([b] + ([c] + t)) == [a, b, c] + t
  {
  }

  lemma EncodeHeadThen(v: string, nm: string, t: seq<Param>)
    requires |t| > 0
    ensures Encode(HeadParams(v, nm) + t)
         == "service=WFS" + "&" + ("version=" + v + "&" + ("request=" + nm + "&" + Encode(t)))
  {
    EncodeHeadParams(v, nm, t);
    var sv, vv, rv := EncodeParam(("service", "WFS")), EncodeParam(("version", v)), EncodeParam(("request", nm));
    ServiceParam();
    VersionParam(v);
    RequestParam(nm);
    JoinThreeCongruent(sv, "service=WFS", vv, "version=" + v, rv, "request=" + nm, Encode(t));
  }

  lemma ServiceParam()
    ensures EncodeParam(("service", "WFS")) == "service=WFS"
  {
    assert "service" + "=" == "service=";
    assert "service=" + "WFS" == "service=WFS";
  }

  lemma VersionParam(v: string)
    ensures EncodeParam(("version", v)) == "version=" + v
  {
    assert "version" + "=" == "version=";
  }

  lemma RequestParam(nm: string)
    ensures EncodeParam(("request", nm)) == "request=" + nm
  {
    assert "request" + "=" == "request=";
  }

  lemma JoinThreeCongruent(a: string, a': string, b: string, b': string, c: string, c': string, e: string)
    requires a == a' && b == b' && c == c'
    ensures a + "&" + (b + "&" + (c + "&" + e)) == a' + "&" + (b' + "&" + (c' + "&" + e))
  {
  }

  lemma EncodeHeadOnly(v: string, nm: string)
    ensures Encode(HeadParams(v, nm)) == "service=WFS" + "&" + ("version=" + v + "&" + "request=" + nm)
  {
    var t1 := [("request", nm)];
    var t2 := [("version", v)] + t1;
    EncodeCons(("version", v), t1);
    EncodeCons(("service", "WFS"), t2);
    assert [("service", "WFS")] + t2 == HeadParams(v, nm);
    assert EncodeParam(("service", "WFS")) == "service=WFS";
    assert EncodeParam(("version", v)) == "version=" + v;
    assert EncodeParam(("request", nm)) == "request=" + nm;
  }

  lemma EncodeTwo(p: Param, q: Param)
    ensures Encode([p, q]) == EncodeParam(p) + "&" + EncodeParam(q)
  {
    EncodeCons(p, [q]);
    assert [p] + [q] == [p, q];
  }

  lemma ReassocHead(b: string, q: string, s: string, a: string, ve: string, v: string, re: string, nm: string)
    ensures b + q + (s + a + (ve + v + a + re + nm)) == b + (q + s + a + ve) + v + (a + re + nm)
    ensures b + q + (s + a + (ve + v + a + re + nm)) == b + (q + s + a + ve + v + a + re + nm)
  {
  }

  lemma ReassocOne(b: string, q: string, s: string, a: string, ve: string, v: string, re: string, nm: string,
                   k: string, e: string, ws: string, c: string, n: string)
    ensures b + q + (s + a + (ve + v + a + (re + nm + a + (k + e + (ws + c + n)))))
         == b + (q + s + a + ve) + v + (a + re + nm + a + k + e) + ws + c + n
  {
  }

  lemma ReassocOneEnd(b: string, q: string, s: string, a: string, ve: string, v: string, re: string, nm: string,
                      k: string, e: string, x: string)
    ensures b + q + (s + a + (ve + v + a + (re + nm + a + (k + e + x))))
         == b + (q + s + a + ve) + v + (a + re + nm + a + k + e) + x
  {
  }

  lemma ReassocTwo(b: string, q: string, s: string, a: string, ve: string, v: string, re: string, nm: string,
                   k: string, e: string, ws: string, c: string, n: string, k2: string, x: string)
    ensures b + q + (s + a + (ve + v + a + (re + nm + a + (k + e + (ws + c + n) + a + (k2 + e + x)))))
         == b + (q + s + a + ve) + v + (a + re + nm + a + k + e) + ws + c + n + (a + k2 + e) + x
  {
  }

  lemma ReassocTwoEnd(b: string, q: string, s: string, a: string, ve: string, v: string, re: string, nm: string,
                   k: string, e: string, ws: string, c: string, n: string, k2: string, x: string)
    ensures b + q + (s + a + (ve + v + a + (re + nm + a + (k + e + (ws + c + n) + a + (k2 + e + x)))))
         == b + (q + s + a + ve) + v + (a + re + nm + a + k + e) + ws + c + n + (a + k2 + e + x)
  {
  }

  lemma LiteralServiceVersion()
    ensures "?" + "service=WFS" + "&" + "version=" == "?service=WFS&version="
  {
  }

  lemma LiteralGetCapabilitiesTail()
    ensures "&" + "request=" + "GetCapabilities" == "&request=GetCapabilities"
  {
    assert "&" + "request=" == "&request=";
    assert "&request=" + "GetCapabilities" == "&request=GetCapabilities";
  }

  lemma LiteralTransactionTail()
    ensures "&" + "request=" + "Transaction" == "&request=Transaction"
  {
    assert "&" + "request=" == "&request=";
    assert "&request=" + "Transaction" == "&request=Transaction";
  }

  lemma LiteralDescribeFeatureTypeTail()
    ensures "&" + "request=" + "DescribeFeatureType" + "&" + "typeName" + "=" == "&request=DescribeFeatureType&typeName="
  {
    assert "&" + "request=" == "&request=";
    assert "&request=" + "DescribeFeatureType" == "&request=DescribeFeatureType";
    assert "&request=DescribeFeatureType" + "&" == "&request=DescribeFeatureType&";
    assert "&request=DescribeFeatureType&" + "typeName" == "&request=DescribeFeatureType&typeName";
    assert "&request=DescribeFeatureType&typeName" + "=" == "&request=DescribeFeatureType&typeName=";
  }

  lemma LiteralGetFeatureTail()
    ensures "&" + "request=" + "GetFeature" + "&" + "typeName" + "=" == "&request=GetFeature&typeName="
  {
    assert "&" + "request=" == "&request=";
    assert "&request=" + "GetFeature" == "&request=GetFeature";
    assert "&request=GetFeature" + "&" == "&request=GetFeature&";
    assert "&request=GetFeature&" + "typeName" == "&request=GetFeature&typeName";
    assert "&request=GetFeature&typeName" + "=" == "&request=GetFeature&typeName=";
  }

  lemma LiteralGetFeatureEnd()
    ensures "&" + "outputFormat" + "=" + "application/json" == "&outputFormat=application/json"
  {
    assert "&" + "outputFormat" == "&outputFormat";
    assert "&outputFormat" + "=" == "&outputFormat=";
    assert "&outputFormat=" + "application/json" == "&outputFormat=application/json";
  }

  lemma LiteralLockFeatureTail()
    ensures "&" + "request=" + "LockFeature" + "&" + "typeName" + "=" == "&request=LockFeature&typeName="
  {
    assert "&" + "request=" == "&request=";
    assert "&request=" + "LockFeature" == "&request=LockFeature";
    assert "&request=LockFeature" + "&" == "&request=LockFeature&";
    assert "&request=LockFeature&" + "typeName" == "&request=LockFeature&typeName";
    assert "&request=LockFeature&typeName" + "=" == "&request=LockFeature&typeName=";
  }

  lemma LiteralGetFeatureWithLockTail()
    ensures "&" + "request=" + "GetFeatureWithLock" + "&" + "typeName" + "=" == "&request=GetFeatureWithLock&typeName="
  {
    assert "&" + "request=" == "&request=";
    assert "&request=" + "GetFeatureWithLock" == "&request=GetFeatureWithLock";
    assert "&request=GetFeatureWithLock" + "&" == "&request=GetFeatureWithLock&";
    assert "&request=GetFeatureWithLock&" + "typeName" == "&request=GetFeatureWithLock&typeName";
    assert "&request=GetFeatureWithLock&typeName" + "=" == "&request=GetFeatureWithLock&typeName=";
  }

  lemma LiteralGetPropertyValueTail()
    ensures "&" + "request=" + "GetPropertyValue" + "&" + "typeName" + "=" == "&request=GetPropertyValue&typeName="
  {
    assert "&" + "request=" == "&request=";
    assert "&request=" + "GetPropertyValue" == "&request=GetPropertyValue";
    assert "&request=GetPropertyValue" + "&" == "&request=GetPropertyValue&";
    assert "&request=GetPropertyValue&" + "typeName" == "&request=GetPropertyValue&typeName";
    assert "&request=GetPropertyValue&typeName" + "=" == "&request=GetPropertyValue&typeName=";
  }

  lemma LiteralDropStoredQueryTail()
    ensures "&" + "request=" + "DropStoredQuery" + "&" + "storedQueryId" + "=" == "&request=DropStoredQuery&storedQueryId="
  {
    assert "&" + "request=" == "&request=";
    assert "&request=" + "DropStoredQuery" == "&request=DropStoredQuery";
    assert "&request=DropStoredQuery" + "&" == "&request=DropStoredQuery&";
    assert "&request=DropStoredQuery&" + "storedQueryId" == "&request=DropStoredQuery&storedQueryId";
    assert "&request=DropStoredQuery&storedQueryId" + "=" == "&request=DropStoredQuery&storedQueryId=";
  }

  lemma LiteralDescribeStoredQueriesTail()
    ensures "&" + "request=" + "DescribeStoredQueries" + "&" + "storedQueryId" + "=" == "&request=DescribeStoredQueries&storedQueryId="
  {
    assert "&" + "request=" == "&request=";
    assert "&request=" + "DescribeStoredQueries" == "&request=DescribeStoredQueries";
    assert "&request=DescribeStoredQueries" + "&" == "&request=DescribeStoredQueries&";
    assert "&request=DescribeStoredQueries&" + "storedQueryId" == "&request=DescribeStoredQueries&storedQueryId";
    assert "&request=DescribeStoredQueries&storedQueryId" + "=" == "&request=DescribeStoredQueries&storedQueryId=";
  }

  lemma LiteralGetGmlObjectTail()
    ensures "&" + "request=" + "GetGMLObject" + "&" + "gmlObjectId" + "=" == "&request=GetGMLObject&gmlObjectId="
  {
    assert "&" + "request=" == "&request=";
    assert "&request=" + "GetGMLObject" == "&request=GetGMLObject";
    assert "&request=GetGMLObject" + "&" == "&request=GetGMLObject&";
    assert "&request=GetGMLObject&" + "gmlObjectId" == "&request=GetGMLObject&gmlObjectId";
    assert "&request=GetGMLObject&gmlObjectId" + "=" == "&request=GetGMLObject&gmlObjectId=";
  }

  lemma LiteralCreateStoredQueryTail()
    ensures "&" + "request=" + "CreateStoredQuery" == "&request=CreateStoredQuery"
  {
    assert "&" + "request=" == "&request=";
    assert "&request=" + "CreateStoredQuery" == "&request=CreateStoredQuery";
  }

  lemma LiteralListStoredQueriesTail()
    ensures "&" + "request=" + "ListStoredQueries" == "&request=ListStoredQueries"
  {
    assert "&" + "request=" == "&request=";
    assert "&request=" + "ListStoredQueries" == "&request=ListStoredQueries";
  }

  /** The URL of every request is the base URL, `?`, and its parameters written as a query string. */
  lemma UrlEncodesParams(h: Handler, op: Operation)
    ensures Url(h, op) == h.baseUrl + "?" + Encode(Params(h, op))
  {
    match op
    case GetCapabilities => QueryGetCapabilities(h);
    case DescribeFeatureType(n) => QueryDescribeFeatureType(h, n);
    case GetFeature(n) => QueryGetFeature(h, n);
    case LockFeature(n, f) => QueryLockFeature(h, n, f);
    case Transaction(_) => QueryTransaction(h);
    case GetFeatureWithLock(n, f) => QueryGetFeatureWithLock(h, n, f);
    case GetPropertyValue(n, pr) => QueryGetPropertyValue(h, n, pr);
    case CreateStoredQuery(_) => QueryCreateStoredQuery(h);
    case DropStoredQuery(id) => QueryDropStoredQuery(h, id);
    case ListStoredQueries => QueryListStoredQueries(h);
    case DescribeStoredQueries(id) => QueryDescribeStoredQueries(h, id);
    case GetGmlObject(id) => QueryGetGmlObject(h, id);
  }

  lemma QueryGetCapabilities(h: Handler)
    ensures GetCapabilitiesUrl(h) == h.baseUrl + "?" + Encode(Params(h, GetCapabilities))
  {
    assert Params(h, GetCapabilities) == HeadParams(h.version, "GetCapabilities");
    EncodeHeadOnly(h.version, "GetCapabilities");
    ReassocHead(h.baseUrl, "?", "service=WFS", "&", "version=", h.version, "request=", "GetCapabilities");
    LiteralServiceVersion();
    LiteralGetCapabilitiesTail();
  }

  lemma QueryTransaction(h: Handler)
    ensures TransactionUrl(h) == h.baseUrl + "?" + Encode(Params(h, Transaction(None)))
  {
    assert Params(h, Transaction(None)) == HeadParams(h.version, "Transaction");
    EncodeHeadOnly(h.version, "Transaction");
    ReassocHead(h.baseUrl, "?", "service=WFS", "&", "version=", h.version, "request=", "Transaction");
    LiteralServiceVersion();
    LiteralTransactionTail();
  }

  lemma QueryDescribeFeatureType(h: Handler, n: string)
    ensures DescribeFeatureTypeUrl(h, n) == h.baseUrl + "?" + Encode(Params(h, DescribeFeatureType(n)))
  {
    EncodeHeadThen(h.version, "DescribeFeatureType", [("typeName", TypeName(h, n))]);
    ReassocOne(h.baseUrl, "?", "service=WFS", "&", "version=", h.version, "request=", "DescribeFeatureType", "typeName", "=", h.workspace, ":", n);
    LiteralServiceVersion();
    LiteralDescribeFeatureTypeTail();
  }

  lemma QueryGetFeature(h: Handler, n: string)
    ensures GetFeatureUrl(h, n) == h.baseUrl + "?" + Encode(Params(h, GetFeature(n)))
  {
    var tail := [("typeName", TypeName(h, n)), ("outputFormat", "application/json")];
    EncodeHeadThen(h.version, "GetFeature", tail);
    EncodeTwo(tail[0], tail[1]);
    ReassocTwoEnd(h.baseUrl, "?", "service=WFS", "&", "version=", h.version, "request=", "GetFeature", "typeName", "=", h.workspace, ":", n, "outputFormat", "application/json");
    LiteralServiceVersion();
    LiteralGetFeatureTail();
    LiteralGetFeatureEnd();
  }

  lemma QueryLockFeature(h: Handler, n: string, f: string)
    ensures LockFeatureUrl(h, n, f) == h.baseUrl + "?" + Encode(Params(h, LockFeature(n, f)))
  {
    var tail := [("typeName", TypeName(h, n)), ("filter", f)];
    EncodeHeadThen(h.version, "LockFeature", tail);
    EncodeTwo(tail[0], tail[1]);
    ReassocTwo(h.baseUrl, "?", "service=WFS", "&", "version=", h.version, "request=", "LockFeature", "typeName", "=", h.workspace, ":", n, "filter", f);
    LiteralServiceVersion();
    LiteralLockFeatureTail();
    assert "&" + "filter" + "=" == "&filter=";
  }

  lemma QueryGetFeatureWithLock(h: Handler, n: string, f: string)
    ensures GetFeatureWithLockUrl(h, n, f) == h.baseUrl + "?" + Encode(Params(h, GetFeatureWithLock(n, f)))
  {
    var tail := [("typeName", TypeName(h, n)), ("filter", f)];
    EncodeHeadThen(Wfs2Version, "GetFeatureWithLock", tail);
    EncodeTwo(tail[0], tail[1]);
    ReassocTwo(h.baseUrl, "?", "service=WFS", "&", "version=", Wfs2Version, "request=", "GetFeatureWithLock", "typeName", "=", h.workspace, ":", n, "filter", f);
    LiteralServiceVersion();
    LiteralGetFeatureWithLockTail();
    assert "&" + "filter" + "=" == "&filter=";
  }

  lemma QueryGetPropertyValue(h: Handler, n: string, pr: string)
    ensures GetPropertyValueUrl(h, n, pr) == h.baseUrl + "?" + Encode(Params(h, GetPropertyValue(n, pr)))
  {
    var tail := [("typeName", TypeName(h, n)), ("valueReference", pr)];
    EncodeHeadThen(Wfs2Version, "GetPropertyValue", tail);
    EncodeTwo(tail[0], tail[1]);
    ReassocTwo(h.baseUrl, "?", "service=WFS", "&", "version=", Wfs2Version, "request=", "GetPropertyValue", "typeName", "=", h.workspace, ":", n, "valueReference", pr);
    LiteralServiceVersion();
    LiteralGetPropertyValueTail();
    assert "&" + "valueReference" + "=" == "&valueReference=";
  }

  lemma QueryCreateStoredQuery(h: Handler)
    ensures CreateStoredQueryUrl(h) == h.baseUrl + "?" + Encode(Params(h, CreateStoredQuery(None)))
  {
    assert Params(h, CreateStoredQuery(None)) == HeadParams(Wfs2Version, "CreateStoredQuery");
    EncodeHeadOnly(Wfs2Version, "CreateStoredQuery");
    ReassocHead(h.baseUrl, "?", "service=WFS", "&", "version=", Wfs2Version, "request=", "CreateStoredQuery");
    LiteralServiceVersion();
    LiteralCreateStoredQueryTail();
  }

  lemma QueryListStoredQueries(h: Handler)
    ensures ListStoredQueriesUrl(h) == h.baseUrl + "?" + Encode(Params(h, ListStoredQueries))
  {
    assert Params(h, ListStoredQueries) == HeadParams(Wfs2Version, "ListStoredQueries");
    EncodeHeadOnly(Wfs2Version, "ListStoredQueries");
    ReassocHead(h.baseUrl, "?", "service=WFS", "&", "version=", Wfs2Version, "request=", "ListStoredQueries");
    LiteralServiceVersion();
    LiteralListStoredQueriesTail();
  }

  lemma QueryDropStoredQuery(h: Handler, id: string)
    ensures DropStoredQueryUrl(h, id) == h.baseUrl + "?" + Encode(Params(h, DropStoredQuery(id)))
  {
    EncodeHeadThen(Wfs2Version, "DropStoredQuery", [("storedQueryId", id)]);
    ReassocOneEnd(h.baseUrl, "?", "service=WFS", "&", "version=", Wfs2Version, "request=", "DropStoredQuery", "storedQueryId", "=", id);
    LiteralServiceVersion();
    LiteralDropStoredQueryTail();
  }

  lemma QueryDescribeStoredQueries(h: Handler, id: string)
    ensures DescribeStoredQueriesUrl(h, id) == h.baseUrl + "?" + Encode(Params(h, DescribeStoredQueries(id)))
  {
    EncodeHeadThen(Wfs2Version, "DescribeStoredQueries", [("storedQueryId", id)]);
    ReassocOneEnd(h.baseUrl, "?", "service=WFS", "&", "version=", Wfs2Version, "request=", "DescribeStoredQueries", "storedQueryId", "=", id);
    LiteralServiceVersion();
    LiteralDescribeStoredQueriesTail();
  }

  lemma QueryGetGmlObject(h: Handler, id: string)
    ensures GetGmlObjectUrl(h, id) == h.baseUrl + "?" + Encode(Params(h, GetGmlObject(id)))
  {
    EncodeHeadThen(GmlObjectVersion, "GetGMLObject", [("gmlObjectId", id)]);
    ReassocOneEnd(h.baseUrl, "?", "service=WFS", "&", "version=", GmlObjectVersion, "request=", "GetGMLObject", "gmlObjectId", "=", id);
    LiteralServiceVersion();
    LiteralGetGmlObjectTail();
  }

  // ---------------------------------------------------------------------------
  // What the URLs say.

  /** `baseUrl?service=WFS&version=<v>&request=<name>`: the part every URL starts with. */
  function Prefix(h: Handler, op: Operation): string {
    h.baseUrl + "?service=WFS&version=" + VersionSent(h, op) + "&request=" + OperationName(op)
  }

  lemma ReassocPrefixOnly(b: string, q: string, s: string, a: string, ve: string, v: string, re: string, nm: string)
    ensures b + q + (s + a + (ve + v + a + re + nm)) == b + (q + s + a + ve) + v + (a + re) + nm
  {
  }

  lemma ReassocPrefixThen(b: string, q: string, s: string, a: string, ve: string, v: string, re: string, nm: string,
                          e: string)
    ensures b + q + (s + a + (ve + v + a + (re + nm + a + e))) == b + (q + s + a + ve) + v + (a + re) + nm + (a + e)
  {
  }

  lemma PrefixWithoutTail(h: Handler, op: Operation)
    requires |Tail(h, op)| == 0
    ensures Url(h, op) == Prefix(h, op)
  {
    var v, nm := VersionSent(h, op), OperationName(op);
    UrlEncodesParams(h, op);
    assert Params(h, op) == HeadParams(v, nm);
    EncodeHeadOnly(v, nm);
    ReassocPrefixOnly(h.baseUrl, "?", "service=WFS", "&", "version=", v, "request=", nm);
    LiteralServiceVersion();
    assert "&" + "request=" == "&request=";
  }

  lemma PrefixWithTail(h: Handler, op: Operation)
    requires |Tail(h, op)| > 0
    ensures Url(h, op) == Prefix(h, op) + ("&" + Encode(Tail(h, op)))
  {
    var v, nm, t := VersionSent(h, op), OperationName(op), Tail(h, op);
    UrlEncodesParams(h, op);
    EncodeHeadThen(v, nm, t);
    ReassocPrefixThen(h.baseUrl, "?", "service=WFS", "&", "version=", v, "request=", nm, Encode(t));
    LiteralServiceVersion();
    assert "&" + "request=" == "&request=";
  }

  /** Every URL starts with the service, the version sent and the operation name (wfsHandler.js:10-78). */
  lemma UrlStartsWithPrefix(h: Handler, op: Operation)
    ensures StartsWith(Url(h, op), Prefix(h, op))
  {
    if |Tail(h, op)| == 0 {
      PrefixWithoutTail(h, op);
      StartsWithConcat(Prefix(h, op), "");
      assert Prefix(h, op) + "" == Prefix(h, op);
    } else {
      PrefixWithTail(h, op);
      StartsWithConcat(Prefix(h, op), "&" + Encode(Tail(h, op)));
    }
  }

  /** The five operations of every version send the configured version (wfsHandler.js:10-34). */
  lemma ConfiguredVersionSent(h: Handler, op: Operation)
    requires AllVersions(op)
    ensures StartsWith(Url(h, op), h.baseUrl + "?service=WFS&version=" + h.version + "&request=" + OperationName(op))
  {
    UrlStartsWithPrefix(h, op);
  }

  /** The six WFS 2.0 operations send `2.0.0` whatever the configured version (wfsHandler.js:41-72). */
  lemma Wfs2VersionSent(h: Handler, op: Operation)
    requires Wfs2Only(op)
    ensures StartsWith(Url(h, op), h.baseUrl + "?service=WFS&version=2.0.0&request=" + OperationName(op))
  {
    UrlStartsWithPrefix(h, op);
    ReassocPrefix(h.baseUrl, "?service=WFS&version=", Wfs2Version, "&request=", OperationName(op));
    LiteralWfs2Prefix();
  }

  /** GetGMLObject sends `1.1.0` whatever the configured version (wfsHandler.js:77-79). */
  lemma GmlObjectVersionSent(h: Handler, id: string)
    ensures StartsWith(Url(h, GetGmlObject(id)), h.baseUrl + "?service=WFS&version=1.1.0&request=GetGMLObject")
  {
    UrlStartsWithPrefix(h, GetGmlObject(id));
    ReassocPrefix(h.baseUrl, "?service=WFS&version=", GmlObjectVersion, "&request=", "GetGMLObject");
    LiteralGmlObjectPrefix();
  }

  lemma ReassocPrefix(b: string, q: string, v: string, r: string, nm: string)
    ensures b + q + v + r + nm == b + (q + v + r) + nm
    ensures b + q + v + r + nm == b + (q + v + r + nm)
  {
  }

  lemma LiteralGmlObjectPrefix()
    ensures "?service=WFS&version=" + "1.1.0" + "&request=" + "GetGMLObject"
         == "?service=WFS&version=1.1.0&request=GetGMLObject"
  {
    assert "?service=WFS&version=" + "1.1.0" == "?service=WFS&version=1.1.0";
    assert "?service=WFS&version=1.1.0" + "&request=" == "?service=WFS&version=1.1.0&request=";
    assert "?service=WFS&version=1.1.0&request=" + "GetGMLObject" == "?service=WFS&version=1.1.0&request=GetGMLObject";
  }

  lemma LiteralWfs2Prefix()
    ensures "?service=WFS&version=" + "2.0.0" + "&request=" == "?service=WFS&version=2.0.0&request="
  {
    assert "?service=WFS&version=" + "2.0.0" == "?service=WFS&version=2.0.0";
    assert "?service=WFS&version=2.0.0" + "&request=" == "?service=WFS&version=2.0.0&request=";
  }

  /**
   * The operations with a hard-coded version build the same URL whatever version
   * the handler was configured with (wfsHandler.js:41-78).
   */
  lemma PinnedVersionIgnoresConfiguration(h: Handler, op: Operation, other: string)
    requires !AllVersions(op)
    ensures Url(h.(version := other), op) == Url(h, op)
    ensures Params(h.(version := other), op) == Params(h, op)
  {
  }

  /** Operations that name a feature type. */
  predicate NamesFeatureType(op: Operation) {
    op.DescribeFeatureType? || op.GetFeature? || op.LockFeature? || op.GetFeatureWithLock? || op.GetPropertyValue?
  }

  /**
   * Wherever `typeName` appears it is `workspace:featureName`, and it appears
   * exactly for the operations that name a feature type (wfsHandler.js:16, 22, 28, 41, 47).
   */
  lemma TypeNameIsQualified(h: Handler, op: Operation)
    ensures forall k :: 0 <= k < |Params(h, op)| && Params(h, op)[k].0 == "typeName" ==>
              NamesFeatureType(op) && Params(h, op)[k].1 == h.workspace + ":" + op.featureName
    ensures NamesFeatureType(op) <==> exists k :: 0 <= k < |Params(h, op)| && Params(h, op)[k].0 == "typeName"
  {
    var ps := Params(h, op);
    assert ps[0].0 == "service" && ps[1].0 == "version" && ps[2].0 == "request";
    if NamesFeatureType(op) {
      assert ps[3] == ("typeName", TypeName(h, op.featureName));
    }
  }

  /** `getFeature` asks for GeoJSON: its URL ends with the output format (wfsHandler.js:22). */
  lemma GetFeatureAsksForJson(h: Handler, name: string)
    ensures EndsWith(Url(h, GetFeature(name)), "&outputFormat=application/json")
    ensures Lookup(Params(h, GetFeature(name)), "outputFormat") == Some("application/json")
  {
    var u := h.baseUrl + "?service=WFS&version=" + h.version + "&request=GetFeature&typeName="
      + h.workspace + ":" + name;
    EndsWithConcat(u, "&outputFormat=application/json");
    var front := HeadParams(h.version, "GetFeature") + [("typeName", TypeName(h, name))];
    assert Params(h, GetFeature(name)) == front + [("outputFormat", "application/json")] + [];
    LookupFirst(front, ("outputFormat", "application/json"), []);
  }

  // ---------------------------------------------------------------------------
  // Reading a URL back.

  /**
   * No space, tab, newline or other control character: the URL parser `fetch`
   * runs removes tabs and newlines anywhere and trims the ends of the URL.
   */
  predicate Printable(s: string) {
    forall c :: c in s ==> ' ' < c
  }

  /**
   * A value a WFS server reads exactly as written: no `&` to split it, no `%`
   * or `+` for URL decoding to rewrite, no `#` to end the query early, and
   * nothing the URL parser removes.
   */
  predicate Verbatim(s: string) {
    '&' !in s && '%' !in s && '+' !in s && '#' !in s && Printable(s)
  }

  /** No `?` or `#` in a printable base URL, and every configured or passed-in value verbatim. */
  predicate Spliceable(h: Handler, op: Operation) {
    && '?' !in h.baseUrl && '#' !in h.baseUrl && Printable(h.baseUrl)
    && Verbatim(h.version) && Verbatim(h.workspace)
    && match op
       case DescribeFeatureType(n) => Verbatim(n)
       case GetFeature(n) => Verbatim(n)
       case LockFeature(n, f) => Verbatim(n) && Verbatim(f)
       case GetFeatureWithLock(n, f) => Verbatim(n) && Verbatim(f)
       case GetPropertyValue(n, pr) => Verbatim(n) && Verbatim(pr)
       case DropStoredQuery(id) => Verbatim(id)
       case DescribeStoredQueries(id) => Verbatim(id)
       case GetGmlObject(id) => Verbatim(id)
       case _ => true
  }

  lemma OperationNamePlain(op: Operation)
    ensures '&' !in OperationName(op)
  {
    if AllVersions(op) {
      AllVersionsNamePlain(op);
    } else {
      PinnedNamePlain(op);
    }
  }

  lemma AllVersionsNamePlain(op: Operation)
    requires AllVersions(op)
    ensures '&' !in OperationName(op)
  {
  }

  lemma PinnedNamePlain(op: Operation)
    requires !AllVersions(op)
    ensures '&' !in OperationName(op)
  {
  }

  lemma HeadPlain(v: string, nm: string)
    requires '&' !in v && '&' !in nm
    ensures forall k :: 0 <= k < |HeadParams(v, nm)| ==> Plain(HeadParams(v, nm)[k])
  {
    assert Plain(("service", "WFS"));
    assert Plain(("version", v));
    assert Plain(("request", nm));
  }

  lemma TailPlain(h: Handler, op: Operation)
    requires Spliceable(h, op)
    ensures forall k :: 0 <= k < |Tail(h, op)| ==> Plain(Tail(h, op)[k])
  {
    if NamesFeatureType(op) {
      assert '&' !in ":";
      assert '&' !in h.workspace + ":" + op.featureName;
      assert Plain(("typeName", TypeName(h, op.featureName)));
    }
  }

  lemma SpliceablePlain(h: Handler, op: Operation)
    requires Spliceable(h, op)
    ensures forall k :: 0 <= k < |Params(h, op)| ==> Plain(Params(h, op)[k])
  {
    OperationNamePlain(op);
    HeadPlain(VersionSent(h, op), OperationName(op));
    TailPlain(h, op);
    var hd, t := HeadParams(VersionSent(h, op), OperationName(op)), Tail(h, op);
    assert forall k :: 0 <= k < |hd + t| ==> (hd + t)[k] == if k < |hd| then hd[k] else t[k - |hd|];
  }

  lemma HeadLookups(v: string, nm: string, t: seq<Param>)
    ensures Lookup(HeadParams(v, nm) + t, "version") == Some(v)
    ensures Lookup(HeadParams(v, nm) + t, "request") == Some(nm)
  {
    assert HeadParams(v, nm) + t == [("service", "WFS")] + [("version", v)] + ([("request", nm)] + t);
    LookupFirst([("service", "WFS")], ("version", v), [("request", nm)] + t);
    assert HeadParams(v, nm) + t == [("service", "WFS"), ("version", v)] + [("request", nm)] + t;
    LookupFirst([("service", "WFS"), ("version", v)], ("request", nm), t);
  }

  lemma TypeNameLookup(h: Handler, op: Operation)
    requires NamesFeatureType(op)
    ensures Lookup(Params(h, op), "typeName") == Some(h.workspace + ":" + op.featureName)
  {
    var hd, t := HeadParams(VersionSent(h, op), OperationName(op)), Tail(h, op);
    assert t == [t[0]] + t[1..];
    assert t[0] == ("typeName", TypeName(h, op.featureName));
    assert Params(h, op) == hd + [t[0]] + t[1..];
    LookupFirst(hd, t[0], t[1..]);
  }

  /**
   * When every value is verbatim, a server splitting the query string at `&`
   * and `=` reads back exactly the base URL and the parameters the method
   * meant; URL decoding leaves such values as they are.
   */
  lemma UrlReadsBack(h: Handler, op: Operation)
    requires Spliceable(h, op)
    ensures ParseUrl(Url(h, op)) == (h.baseUrl, Params(h, op))
    ensures Lookup(ParseUrl(Url(h, op)).1, "request") == Some(OperationName(op))
    ensures Lookup(ParseUrl(Url(h, op)).1, "version") == Some(VersionSent(h, op))
    ensures NamesFeatureType(op) ==> Lookup(ParseUrl(Url(h, op)).1, "typeName") == Some(h.workspace + ":" + op.featureName)
  {
    UrlEncodesParams(h, op);
    SpliceablePlain(h, op);
    ParseBuiltUrl(h.baseUrl, Params(h, op));
    HeadLookups(VersionSent(h, op), OperationName(op), Tail(h, op));
    if NamesFeatureType(op) {
      TypeNameLookup(h, op);
    }
  }

  /**
   * Values are spliced in verbatim, so a filter with `&filter=` in it and a
   * feature name with `&filter=` in it give one and the same URL for two
   * different calls (wfsHandler.js:28).
   */
  lemma FilterIsNotEscaped(h: Handler, name: string, a: string, b: string)
    ensures LockFeature(name, a + "&filter=" + b) != LockFeature(name + "&filter=" + a, b)
    ensures Url(h, LockFeature(name, a + "&filter=" + b)) == Url(h, LockFeature(name + "&filter=" + a, b))
  {
    assert |name + "&filter=" + a| > |name|;
  }

  // ---------------------------------------------------------------------------
  // sendRequest: method, headers and body.

  /** JavaScript truthiness of a body argument: present and not the empty string. */
  predicate BodyTruthy(body: Option<string>) {
    body.Some? && body.value != ""
  }

  /**
   * What each request method passes to `sendRequest`: only `transaction`,
   * `createStoredQuery` and `dropStoredQuery` pass POST, and `dropStoredQuery`
   * passes a `null` body (wfsHandler.js:11-79, defaults at :83).
   */
  function Args(h: Handler, op: Operation): (a: SendArgs)
    ensures a.url == Url(h, op)
    ensures a.verb == POST <==> op.Transaction? || op.CreateStoredQuery? || op.DropStoredQuery?
    ensures op.Transaction? ==> a.body == op.xmlBody
    ensures op.CreateStoredQuery? ==> a.body == op.queryXml
    ensures !(op.Transaction? || op.CreateStoredQuery?) ==> a.body.None?
  {
    match op
    case Transaction(body) => SendArgs(Url(h, op), body, POST)
    case CreateStoredQuery(body) => SendArgs(Url(h, op), body, POST)
    case DropStoredQuery(_) => SendArgs(Url(h, op), None, POST)
    case _ => SendArgs(Url(h, op), None, GET)
  }

  /** The `fetch` options: the method, the XML content type always, the body only for a truthy POST body. */
  function OptionsFor(args: SendArgs): (o: FetchOptions)
    ensures o.verb == args.verb && o.contentType == "application/xml"
    ensures o.body.Some? <==> args.verb == POST && BodyTruthy(args.body)
    ensures o.body.Some? ==> o.body == args.body
  {
    if args.verb == POST && BodyTruthy(args.body) then FetchOptions(args.verb, "application/xml", args.body)
    else FetchOptions(args.verb, "application/xml", None)
  }

  /** `sendRequest` building its options object and then attaching the body (wfsHandler.js:84-92). */
  method PrepareOptions(args: SendArgs) returns (options: FetchOptions)
    ensures options == OptionsFor(args)
  {
    options := FetchOptions(args.verb, "application/xml", None);
    if args.verb == POST && BodyTruthy(args.body) {
      options := options.(body := args.body);
    }
  }

  /** The request `fetch` receives for one call of a request method. */
  function RequestFor(h: Handler, op: Operation): FetchRequest {
    var args := Args(h, op);
    FetchRequest(args.url, OptionsFor(args))
  }

  /**
   * POST is used for exactly the three modifying operations; a body is sent only
   * for a truthy `transaction` or `createStoredQuery` argument, never by
   * `dropStoredQuery` and never with GET; the XML content type is always set
   * (wfsHandler.js:35, 54, 60, 83-92).
   */
  lemma RequestMethodAndBody(h: Handler, op: Operation)
    ensures RequestFor(h, op).url == Url(h, op)
    ensures RequestFor(h, op).options.contentType == "application/xml"
    ensures RequestFor(h, op).options.verb == POST <==> op.Transaction? || op.CreateStoredQuery? || op.DropStoredQuery?
    ensures RequestFor(h, op).options.body.Some?
        <==> (op.Transaction? && BodyTruthy(op.xmlBody)) || (op.CreateStoredQuery? && BodyTruthy(op.queryXml))
    ensures op.Transaction? && BodyTruthy(op.xmlBody) ==> RequestFor(h, op).options.body == op.xmlBody
    ensures op.CreateStoredQuery? && BodyTruthy(op.queryXml) ==> RequestFor(h, op).options.body == op.queryXml
    ensures RequestFor(h, op).options.verb == GET ==> RequestFor(h, op).options.body.None?
  {
  }

  // ---------------------------------------------------------------------------
  // sendRequest: the reply.

  datatype ResponseKind = Json | XmlText | OtherText

  /** A `content-type` header that is present, non-empty and contains `needle`. */
  predicate HeaderHas(contentType: Option<string>, needle: string) {
    contentType.Some? && contentType.value != "" && Contains(contentType.value, needle)
  }

  /** The three-way test on the `content-type` header, JSON first (wfsHandler.js:96-113). */
  function Classify(contentType: Option<string>): ResponseKind {
    if HeaderHas(contentType, "application/json") then Json
    else if HeaderHas(contentType, "application/xml") || HeaderHas(contentType, "text/xml") then XmlText
    else OtherText
  }

  /** A header mentioning JSON anywhere is parsed as JSON, whatever else it mentions. */
  lemma JsonWins(before: string, after: string)
    ensures Classify(Some(before + "application/json" + after)) == Json
  {
    ContainsInContext(before, "application/json", after);
  }

  /** A header mentioning XML and not JSON gives the raw text. */
  lemma XmlIsText(before: string, needle: string, after: string)
    requires needle == "application/xml" || needle == "text/xml"
    requires !Contains(before + needle + after, "application/json")
    ensures Classify(Some(before + needle + after)) == XmlText
  {
    ContainsInContext(before, needle, after);
  }

  /** No header, or an empty one, is neither JSON nor XML. */
  lemma MissingHeaderIsOther()
    ensures Classify(None) == OtherText
    ensures Classify(Some("")) == OtherText
  {
  }

  /** Plain text is neither JSON nor XML. */
  lemma PlainTextIsOther(t: string)
    requires t == "text/plain"
    ensures Classify(Some(t)) == OtherText
  {
    MissingCharNotContained(t, "application/json", 'j');
    MissingCharNotContained(t, "application/xml", 'c');
    MissingCharNotContained(t, "text/xml", 'm');
  }

  /** The reply `fetch` produced: a content type and an opaque payload, or a failure. */
  datatype FetchOutcome = Responded(contentType: Option<string>, payload: string) | Failed(error: string)

  /** What `sendRequest`'s promise settles to. */
  datatype Reply = ParsedJson(payload: string) | RawText(payload: string)
  datatype Settled = Resolved(reply: Reply) | Rejected(error: string)

  const XmlErrorLabel := "Received XML error:"
  const UnexpectedLabel := "Unexpected response format:"
  const FailureLabel := "Error in WFS request:"

  /** The settled promise and the `console.error` lines written on the way. */
  datatype SendResult = SendResult(settled: Settled, log: seq<(string, string)>)

  /**
   * `sendRequest` after `fetch`: JSON is returned parsed, everything else as
   * text with one log line, and a failure is logged and rethrown unchanged
   * (wfsHandler.js:94-118).
   */
  function Settle(outcome: FetchOutcome): (r: SendResult)
    ensures outcome.Failed? ==> r.settled == Rejected(outcome.error)
    ensures outcome.Responded? ==> r.settled.Resolved? && r.settled.reply.payload == outcome.payload
    ensures outcome.Responded? ==> (r.settled.reply.ParsedJson? <==> Classify(outcome.contentType) == Json)
    ensures |r.log| <= 1
    ensures r.log == [] <==> outcome.Responded? && Classify(outcome.contentType) == Json
  {
    match outcome
    case Failed(e) => SendResult(Rejected(e), [(FailureLabel, e)])
    case Responded(ct, payload) =>
      match Classify(ct)
      case Json => SendResult(Resolved(ParsedJson(payload)), [])
      case XmlText => SendResult(Resolved(RawText(payload)), [(XmlErrorLabel, payload)])
      case OtherText => SendResult(Resolved(RawText(payload)), [(UnexpectedLabel, payload)])
  }

  /** The log line names what happened: an XML error, an unexpected format, or a failed request. */
  lemma SettleLogsKind(outcome: FetchOutcome)
    ensures outcome.Failed? ==> Settle(outcome).log == [(FailureLabel, outcome.error)]
    ensures outcome.Responded? && Classify(outcome.contentType) == XmlText
        ==> Settle(outcome).log == [(XmlErrorLabel, outcome.payload)]
    ensures outcome.Responded? && Classify(outcome.contentType) == OtherText
        ==> Settle(outcome).log == [(UnexpectedLabel, outcome.payload)]
  {
  }
}
