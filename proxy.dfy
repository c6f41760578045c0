/**
 * The request handler of the airspace proxy function (`exports.handler`):
 * answers CORS preflights, rejects requests without a target URL, fetches the
 * target, propagates upstream errors, and either passes the upstream body
 * through or, in export mode, returns it converted to GeoJSON.
 *
 * The handler is a pure function here: the outbound fetch is the parameter
 * `network`, which says what fetching a URL gives (a response or a thrown
 * error), and the upstream body is supplied both as text and as the outcome
 * of parsing it as JSON.
 */
module Proxy {
  import opened Wrappers
  import opened JsValue
  import opened ZoneTransform

  /** The outcome of `response.json()`: a parsed document, or the message of the error it threw. */
  datatype Parse = Parsed(doc: Json) | Unparsable(message: string)

  /**
   * The upstream response as the handler reads it: `ok`, `status`,
   * `statusText`, the `content-type` header (`None` when absent), the body
   * read as text, and the body read as JSON.
   */
  datatype Upstream = Upstream(
    ok: bool,
    status: int,
    statusText: string,
    contentType: Option<string>,
    text: string,
    json: Parse)

  /** What `await fetch(url)` gives: a response, or the message of the error it threw. */
  datatype Fetch = Responded(response: Upstream) | FetchFailed(message: string)

  /**
   * A response body: text sent as it is; a JSON error object
   * `{error, message?}`; or a serialized FeatureCollection.
   */
  datatype Body =
    | Text(text: string)
    | ErrorBody(error: string, message: Option<string>)
    | GeoJsonBody(collection: FeatureCollection)

  /** Response headers; an entry valued `undefined` in the source is `None` here. */
  type Headers = map<string, Option<string>>

  datatype Response = Response(statusCode: int, headers: Headers, body: Body)

  /** The three CORS headers every response carries. */
  const Cors: Headers := map[
    "Access-Control-Allow-Origin" := Some("*"),
    "Access-Control-Allow-Headers" := Some("Content-Type"),
    "Access-Control-Allow-Methods" := Some("GET, POST, OPTIONS")
  ]

  /** The headers of every JSON error response. */
  const JsonHeaders: Headers := Cors["Content-Type" := Some("application/json")]

  /** The headers of an export response: a GeoJSON attachment. */
  const ExportHeaders: Headers :=
    Cors["Content-Type" := Some("application/geo+json")]
        ["Content-Disposition" := Some("attachment; filename=\"dji-geozones.geojson\"")]

  /** The headers of a pass-through response: the upstream content type, three headers unset. */
  function PassThroughHeaders(contentType: string): Headers {
    Cors["Content-Type" := Some(contentType)]
        ["Content-Security-Policy" := None]
        ["X-Frame-Options" := None]
        ["X-Content-Type-Options" := None]
  }

  // ---------------------------------------------------------------------------
  // Reading the request and the upstream response
  // ---------------------------------------------------------------------------

  /** `(event.queryStringParameters || {})[key]` */
  function Param(query: Option<map<string, string>>, key: string): Option<string> {
    match query
    case None => None
    case Some(q) => if key in q then Some(q[key]) else None
  }

  /** `url` is truthy: present and not the empty string. */
  predicate HasUrl(query: Option<map<string, string>>) {
    Param(query, "url").Some? && Param(query, "url").value != ""
  }

  /** `exportMode === 'true'` */
  predicate ExportRequested(query: Option<map<string, string>>) {
    Param(query, "export") == Some("true")
  }

  /** `response.headers.get('content-type') || ''` */
  function ContentTypeOf(u: Upstream): string {
    u.contentType.GetOr("")
  }

  /** `sub` occurs in `s` starting at position `i`. */
  predicate OccursAt(s: string, sub: string, i: int) {
    0 <= i && i + |sub| <= |s| && s[i..i + |sub|] == sub
  }

  /** `s.includes(sub)`: case-sensitive substring search. */
  function Contains(s: string, sub: string): (r: bool)
    ensures r <==> exists i :: OccursAt(s, sub, i)
    decreases |s|
  {
    if |sub| > |s| then false
    else if s[..|sub|] == sub then assert OccursAt(s, sub, 0); true
    else
      ContainsShift(s, sub);
      Contains(s[1..], sub)
  }

  /** Past a mismatch at the first position, the occurrences of `sub` in `s` are those in `s[1..]`. */
  lemma ContainsShift(s: string, sub: string)
    requires |sub| <= |s| && s[..|sub|] != sub
    ensures (exists i :: OccursAt(s, sub, i)) <==> (exists i :: OccursAt(s[1..], sub, i))
  {
    if exists i :: OccursAt(s, sub, i) {
      var i :| OccursAt(s, sub, i);
      assert i > 0;
      assert s[1..][i - 1..i - 1 + |sub|] == s[i..i + |sub|];
      assert OccursAt(s[1..], sub, i - 1);
    }
    if exists i :: OccursAt(s[1..], sub, i) {
      var i :| OccursAt(s[1..], sub, i);
      assert s[1..][i..i + |sub|] == s[i + 1..i + 1 + |sub|];
      assert OccursAt(s, sub, i + 1);
    }
  }

  /** The content type names JSON. */
  predicate IsJson(contentType: string) {
    Contains(contentType, "application/json") || Contains(contentType, "text/json")
  }

  /** Decimal digits of a natural number, most significant first. */
  function NatToString(n: nat): string
    decreases n
  {
    if n < 10 then [Digit(n)]
    else NatToString(n / 10) + [Digit(n % 10)]
  }

  /** The decimal digit character for `d`. */
  function Digit(d: nat): char
    requires d < 10
  {
    ('0' as int + d) as char
  }

  /** The number a string of decimal digits denotes. */
  function DecimalValue(s: string): nat
    decreases |s|
  {
    if s == [] then 0
    else
      var c := s[|s| - 1];
      DecimalValue(s[..|s| - 1]) * 10 + (if '0' <= c <= '9' then c as int - '0' as int else 0)
  }

  /** Decimal printing is undone by reading the digits back: distinct statuses print differently. */
  lemma {:induction false} DecimalRoundTrip(n: nat)
    ensures DecimalValue(NatToString(n)) == n
    ensures NatToString(n) != [] && forall i | 0 <= i < |NatToString(n)| :: '0' <= NatToString(n)[i] <= '9'
    decreases n
  {
    if n >= 10 {
      DecimalRoundTrip(n / 10);
      var s := NatToString(n);
      assert s[..|s| - 1] == NatToString(n / 10);
    }
  }

  /** A number in a template literal. */
  function IntToString(n: int): string {
    if n < 0 then "-" + NatToString(-n) else NatToString(n)
  }

  /** `HTTP ${status}: ${statusText}` */
  function StatusLine(status: int, statusText: string): string {
    "HTTP " + IntToString(status) + ": " + statusText
  }

  /** The catch-all response for anything thrown inside the `try`. */
  function InternalError(message: string): Response {
    Response(500, JsonHeaders, ErrorBody("Internal server error", Some(message)))
  }

  // ---------------------------------------------------------------------------
  // The handler
  // ---------------------------------------------------------------------------

  /** `exports.handler(event)`, with `fetch` replaced by `network`. */
  function Handle(httpMethod: string, query: Option<map<string, string>>, network: string -> Fetch): Response {
    if httpMethod == "OPTIONS" then Response(200, Cors, Text(""))
    else if !HasUrl(query) then Response(400, JsonHeaders, ErrorBody("Missing url parameter", None))
    else
      match network(Param(query, "url").value)
      case FetchFailed(message) => InternalError(message)
      case Responded(u) =>
        if !u.ok then Response(u.status, JsonHeaders, ErrorBody(StatusLine(u.status, u.statusText), None))
        else
          var contentType := ContentTypeOf(u);
          if ExportRequested(query) && IsJson(contentType) then
            match u.json
            case Unparsable(message) => InternalError(message)
            case Parsed(doc) =>
              match GeoJsonOf(doc)
              case Failure(message) => InternalError(message)
              case Success(collection) => Response(200, ExportHeaders, GeoJsonBody(collection))
          else Response(200, PassThroughHeaders(contentType), Text(u.text))
  }

  /** The upstream response the handler works from, when it fetched one. */
  function UpstreamOf(query: Option<map<string, string>>, network: string -> Fetch): Option<Upstream>
    requires HasUrl(query)
  {
    match network(Param(query, "url").value)
    case Responded(u) => Some(u)
    case FetchFailed(_) => None
  }

  /** The export branch is taken: an ok upstream answer, `export=true`, and a JSON content type. */
  predicate ExportTaken(httpMethod: string, query: Option<map<string, string>>, network: string -> Fetch) {
    httpMethod != "OPTIONS" && HasUrl(query) &&
    UpstreamOf(query, network).Some? && UpstreamOf(query, network).value.ok &&
    ExportRequested(query) && IsJson(ContentTypeOf(UpstreamOf(query, network).value))
  }

  // ---------------------------------------------------------------------------
  // Properties of the handler
  // ---------------------------------------------------------------------------

  /** Every response carries the three CORS headers with their fixed values. */
  predicate HasCors(headers: Headers) {
    forall k | k in Cors :: k in headers && headers[k] == Cors[k]
  }

  /**
   * A preflight is answered 200 with an empty body and exactly the CORS
   * headers, whatever the query and without consulting the network; no other
   * request gets exactly those headers.
   */
  lemma Preflight(httpMethod: string, query: Option<map<string, string>>, network: string -> Fetch)
    ensures httpMethod == "OPTIONS" ==> Handle(httpMethod, query, network) == Response(200, Cors, Text(""))
    ensures Handle(httpMethod, query, network).headers == Cors <==> httpMethod == "OPTIONS"
  {
    var r := Handle(httpMethod, query, network);
    if httpMethod != "OPTIONS" {
      assert "Content-Type" in r.headers;
      assert "Content-Type" !in Cors by { CorsNames(); }
    }
  }

  /** The CORS header names, and that "Content-Type" is not one of them. */
  lemma CorsNames()
    ensures Cors.Keys == {"Access-Control-Allow-Origin", "Access-Control-Allow-Headers", "Access-Control-Allow-Methods"}
    ensures "Content-Type" !in Cors
  {
    assert "Content-Type"[0] == 'C' && "Access-Control-Allow-Origin"[0] == 'A';
    assert "Content-Type" != "Access-Control-Allow-Origin";
    assert "Content-Type" != "Access-Control-Allow-Headers";
    assert "Content-Type" != "Access-Control-Allow-Methods";
  }

  /**
   * A request other than a preflight whose `url` is missing or empty
   * (including no query parameters at all) is refused with 400, a JSON
   * content type and the fixed error, whatever the network would answer.
   */
  lemma MissingUrl(httpMethod: string, query: Option<map<string, string>>, network: string -> Fetch)
    requires httpMethod != "OPTIONS"
    ensures !HasUrl(query) <==> Handle(httpMethod, query, network).body == ErrorBody("Missing url parameter", None)
    ensures !HasUrl(query) ==>
              Handle(httpMethod, query, network) ==
              Response(400, JsonHeaders, ErrorBody("Missing url parameter", None))
    ensures query.None? || Param(query, "url") == Some("") ==> !HasUrl(query)
  {
    if HasUrl(query) {
      match network(Param(query, "url").value)
      case FetchFailed(_) =>
      case Responded(u) =>
        StatusLineNotFixed(u.status, u.statusText);
    }
  }

  /** An upstream error line starts with "HTTP ", so it is never one of the handler's fixed errors. */
  lemma StatusLineNotFixed(status: int, statusText: string)
    ensures StatusLine(status, statusText)[..5] == "HTTP "
    ensures StatusLine(status, statusText) != "Missing url parameter"
    ensures StatusLine(status, statusText) != "Internal server error"
  {
    var line := StatusLine(status, statusText);
    assert line[0] == 'H';
    assert "Missing url parameter"[0] == 'M';
    assert "Internal server error"[0] == 'I';
  }

  /**
   * The network is consulted only for the requested URL: two networks that
   * agree on it give the same response, and when there is no usable URL (or
   * the request is a preflight) the network does not matter at all.
   */
  lemma NetworkUse(httpMethod: string, query: Option<map<string, string>>, n1: string -> Fetch, n2: string -> Fetch)
    ensures (httpMethod == "OPTIONS" || !HasUrl(query)) ==> Handle(httpMethod, query, n1) == Handle(httpMethod, query, n2)
    ensures HasUrl(query) && n1(Param(query, "url").value) == n2(Param(query, "url").value) ==>
              Handle(httpMethod, query, n1) == Handle(httpMethod, query, n2)
  {
  }

  /**
   * An upstream answer that is not ok is relayed with its own status code,
   * never turned into a 500 or a 200, and with the error line
   * "HTTP <status>: <statusText>".
   */
  lemma UpstreamError(httpMethod: string, query: Option<map<string, string>>, network: string -> Fetch)
    requires httpMethod != "OPTIONS" && HasUrl(query)
    requires UpstreamOf(query, network).Some? && !UpstreamOf(query, network).value.ok
    ensures var u := UpstreamOf(query, network).value;
            Handle(httpMethod, query, network) ==
            Response(u.status, JsonHeaders, ErrorBody(StatusLine(u.status, u.statusText), None))
    ensures var u := UpstreamOf(query, network).value;
            var r := Handle(httpMethod, query, network);
            r.statusCode == u.status && r.body.ErrorBody? && r.body.error[..5] == "HTTP " &&
            r.body.error != "Internal server error"
  {
    var u := UpstreamOf(query, network).value;
    StatusLineNotFixed(u.status, u.statusText);
  }

  /** A 404 from upstream is relayed as 404 with the error "HTTP 404: Not Found". */
  lemma NotFoundRelayed(query: Option<map<string, string>>, network: string -> Fetch)
    requires HasUrl(query)
    requires network(Param(query, "url").value).Responded?
    requires var u := network(Param(query, "url").value).response;
             !u.ok && u.status == 404 && u.statusText == "Not Found"
    ensures Handle("GET", query, network).statusCode == 404
    ensures Handle("GET", query, network).body == ErrorBody("HTTP 404: Not Found", None)
  {
    assert NatToString(404) == "404" by {
      assert NatToString(4) == "4";
      assert NatToString(40) == "40";
    }
  }

  /**
   * The export branch is taken exactly when `export` is the string "true"
   * and the upstream content type (empty when absent) contains
   * "application/json" or "text/json"; it yields a GeoJSON attachment
   * exactly when the body parses to a non-null document, and that
   * attachment is the document's FeatureCollection.
   */
  lemma ExportIff(httpMethod: string, query: Option<map<string, string>>, network: string -> Fetch)
    ensures Handle(httpMethod, query, network).body.GeoJsonBody? <==>
              ExportTaken(httpMethod, query, network) &&
              UpstreamOf(query, network).value.json.Parsed? &&
              !UpstreamOf(query, network).value.json.doc.JNull?
    ensures Handle(httpMethod, query, network).body.GeoJsonBody? ==>
              var r := Handle(httpMethod, query, network);
              var doc := UpstreamOf(query, network).value.json.doc;
              r.statusCode == 200 && r.headers == ExportHeaders &&
              r.body.collection.kind == "FeatureCollection" &&
              r.body.collection.features == Kept(ZoneList(doc))
  {
    if ExportTaken(httpMethod, query, network) {
      var u := UpstreamOf(query, network).value;
      if u.json.Parsed? {
        CollectionShape(u.json.doc);
      }
    }
  }

  /** The export branch depends on the literal flag and on a case-sensitive content-type match. */
  lemma ExportFlagAndType()
    ensures IsJson("application/json; charset=utf-8")
    ensures IsJson("text/json")
    ensures !IsJson("")
  {
    assert OccursAt("application/json; charset=utf-8", "application/json", 0);
    assert OccursAt("text/json", "text/json", 0);
  }

  /**
   * The pass-through branch: for any ok upstream answer outside the export
   * branch the status is 200 (whatever 2xx the upstream sent), the body is
   * the upstream text unchanged, Content-Type is the upstream value (empty
   * when absent), the three security headers are unset, and no other header
   * appears beside the CORS ones.
   */
  lemma PassThrough(httpMethod: string, query: Option<map<string, string>>, network: string -> Fetch)
    requires httpMethod != "OPTIONS" && HasUrl(query)
    requires UpstreamOf(query, network).Some? && UpstreamOf(query, network).value.ok
    requires !ExportTaken(httpMethod, query, network)
    ensures var u := UpstreamOf(query, network).value;
            var r := Handle(httpMethod, query, network);
            r.statusCode == 200 && r.body == Text(u.text) &&
            r.headers["Content-Type"] == Some(u.contentType.GetOr("")) &&
            r.headers["Content-Security-Policy"] == None &&
            r.headers["X-Frame-Options"] == None &&
            r.headers["X-Content-Type-Options"] == None &&
            HasCors(r.headers) &&
            r.headers.Keys == Cors.Keys + {"Content-Type", "Content-Security-Policy", "X-Frame-Options", "X-Content-Type-Options"}
  {
    var u := UpstreamOf(query, network).value;
    PassThroughHeadersKeep(ContentTypeOf(u));
  }

  /** The pass-through headers overwrite none of the CORS headers. */
  lemma PassThroughHeadersKeep(contentType: string)
    ensures HasCors(PassThroughHeaders(contentType))
  {
    CorsNames();
    var h := PassThroughHeaders(contentType);
    forall k | k in Cors
      ensures k in h && h[k] == Cors[k]
    {
      assert k[0] == 'A';
      assert "Content-Security-Policy"[0] == 'C' && "X-Frame-Options"[0] == 'X' && "X-Content-Type-Options"[0] == 'X';
    }
  }

  /**
   * The handler answers "Internal server error" with status 500 exactly when
   * something inside its `try` threw: the fetch, reading the body as JSON in
   * the export branch, or converting a `null` document; the thrown message
   * is passed on.
   */
  lemma InternalErrorIff(httpMethod: string, query: Option<map<string, string>>, network: string -> Fetch)
    ensures var r := Handle(httpMethod, query, network);
            (r.body.ErrorBody? && r.body.error == "Internal server error") <==>
              httpMethod != "OPTIONS" && HasUrl(query) &&
              (UpstreamOf(query, network).None? ||
               (ExportTaken(httpMethod, query, network) &&
                (UpstreamOf(query, network).value.json.Unparsable? ||
                 UpstreamOf(query, network).value.json.doc.JNull?)))
    ensures var r := Handle(httpMethod, query, network);
            r.body.ErrorBody? && r.body.error == "Internal server error" ==>
              r.statusCode == 500 && r.headers == JsonHeaders && r.body.message.Some?
    ensures httpMethod != "OPTIONS" && HasUrl(query) && network(Param(query, "url").value).FetchFailed? ==>
              Handle(httpMethod, query, network) == InternalError(network(Param(query, "url").value).message)
    ensures ExportTaken(httpMethod, query, network) && UpstreamOf(query, network).value.json.Unparsable? ==>
              Handle(httpMethod, query, network) == InternalError(UpstreamOf(query, network).value.json.message)
    ensures ExportTaken(httpMethod, query, network) && UpstreamOf(query, network).value.json.Parsed? &&
            UpstreamOf(query, network).value.json.doc.JNull? ==>
              Handle(httpMethod, query, network) == InternalError(NullDocumentMessage)
  {
    if httpMethod != "OPTIONS" && HasUrl(query) {
      match network(Param(query, "url").value)
      case FetchFailed(_) =>
      case Responded(u) =>
        StatusLineNotFixed(u.status, u.statusText);
        assert "Missing url parameter"[0] == 'M';
    }
  }

  /** Every response carries the CORS headers. */
  lemma CorsAlwaysPresent(httpMethod: string, query: Option<map<string, string>>, network: string -> Fetch)
    ensures HasCors(Handle(httpMethod, query, network).headers)
  {
    CorsNames();
    assert HasCors(JsonHeaders);
    assert "Content-Disposition"[0] == 'C';
    assert HasCors(ExportHeaders);
    forall contentType: string
      ensures HasCors(PassThroughHeaders(contentType))
    {
      PassThroughHeadersKeep(contentType);
    }
  }

  /**
   * The status code is 200, 400 or 500, or it is the status of an upstream
   * answer that was not ok.
   */
  lemma StatusCodes(httpMethod: string, query: Option<map<string, string>>, network: string -> Fetch)
    ensures var r := Handle(httpMethod, query, network);
            r.statusCode in {200, 400, 500} ||
            (httpMethod != "OPTIONS" && HasUrl(query) && UpstreamOf(query, network).Some? &&
             !UpstreamOf(query, network).value.ok && r.statusCode == UpstreamOf(query, network).value.status)
  {
  }
}
