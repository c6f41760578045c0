# DJI airspace proxy — a verified model

The repository is a serverless HTTP relay, `netlify/functions/dji-airspace-proxy-3f9a2k1x8m.js`.
It takes a target URL in the query string, fetches it server-side and
returns the answer with permissive CORS headers. In export mode it instead
converts a DJI geozone document into a GeoJSON FeatureCollection, offered as
a file download. This project models that file's three functions in Dafny:

- `exports.handler` (`proxy.dfy`, module `Proxy`). The handler is a pure
  function `Handle(httpMethod, query, network)`. `network` says what fetching
  a URL gives: an upstream answer (ok flag, status, status text, content
  type, body as text and body as parsed JSON), or the message of the error
  the fetch threw. Responses are a status code, a header map and a
  structured body.
- `convertDjiToGeojson` and `convertZoneToFeature` (`transform.dfy`, module
  `ZoneTransform`). Both are modelled as methods written the way the source
  is: a loop that keeps the members of the property draft that are not
  `undefined`, an if/else geometry chain, and a loop that pushes converted
  zones onto an accumulator. Each method is proved equal to a specification function
  (`FeatureOf`, `GeoJsonOf`). The properties promised by the source are then
  proved as lemmas about those functions.
- `json.dfy` (module `JsValue`) holds the JSON value type with JavaScript's
  property access and truthiness. `OrChain` models a left-grouped `a || b || c`.
- `wrappers.dfy` holds `Option` (where `None` is `undefined`) and `Result`
  (where `Failure` carries a thrown message).

Three facts about the code are easy to misread, and the model states them
as the code has them:

- A property takes the first *truthy* alternative (`zone.id || zone.zone_id || zone.zoneId`), not the first present one. `{id: 0}` has no `id` property (`FalsyIdDropped`), while `{zoneId: ""}` keeps `id: ""` (`FalsyLastAlternativeKept`).
- A pass-through answer always has status 200, not the upstream status (`Proxy.PassThrough`).
- There is no 405 branch: every method other than OPTIONS goes on to the relay logic.

## Model

| member | source | states |
|---|---|---|
| JsValue.OrChain | netlify/functions/dji-airspace-proxy-3f9a2k1x8m.js:120-127 | `a \|\| b \|\| c` gives the first truthy alternative if there is one (with every earlier alternative falsy), else the last alternative |
| ZoneTransform.FirstTruthy | netlify/functions/dji-airspace-proxy-3f9a2k1x8m.js:140-154 | the index found is the first geometry key whose value is truthy; none is found exactly when every key is falsy |
| ZoneTransform.ConvertZoneToFeature | netlify/functions/dji-airspace-proxy-3f9a2k1x8m.js:116-176 | the loop keeping the draft's defined members and the geometry if/else chain compute `FeatureOf(zone)`; a null zone gives the caught-throw outcome |
| ZoneTransform.ConvertDjiToGeojson | netlify/functions/dji-airspace-proxy-3f9a2k1x8m.js:86-114 | the zone-list choice and the push loop compute `GeoJsonOf(doc)`: the converted features of the chosen zone list, in order |
| ZoneTransform.GeometryChain | netlify/functions/dji-airspace-proxy-3f9a2k1x8m.js:138-160 | geometry is `geometry` as it is if truthy, else `coordinates`, `boundary` or `polygon` (first truthy) wrapped as a Polygon, else none |
| ZoneTransform.ResolveUndefinedIff | netlify/functions/dji-airspace-proxy-3f9a2k1x8m.js:120-135 | a property value is `undefined` exactly when every alternative but the last is falsy and the last is missing |
| ZoneTransform.ResolveFirstTruthy | netlify/functions/dji-airspace-proxy-3f9a2k1x8m.js:120-127 | the first truthy alternative is the property's value, whatever follows it |
| ZoneTransform.ResolveDefinedIff | netlify/functions/dji-airspace-proxy-3f9a2k1x8m.js:120-135 | a property value is defined exactly when some alternative is truthy or the last alternative is present (even if null, 0 or "") |
| ZoneTransform.RankOfTable | netlify/functions/dji-airspace-proxy-3f9a2k1x8m.js:119-128 | each property name sits at its own position in the fixed name order |
| ZoneTransform.NamesDistinct | netlify/functions/dji-airspace-proxy-3f9a2k1x8m.js:119-128 | the eight property names of the literal are pairwise distinct |
| ZoneTransform.LookupAppend | netlify/functions/dji-airspace-proxy-3f9a2k1x8m.js:119-135 | reading a property after appending a member gives that member's value if its name matches, else the earlier value |
| ZoneTransform.DefinedRanked | netlify/functions/dji-airspace-proxy-3f9a2k1x8m.js:130-135 | deleting undefined members keeps the remaining members in their original relative order |
| ZoneTransform.DefinedLookup | netlify/functions/dji-airspace-proxy-3f9a2k1x8m.js:130-135 | after deletion, a name reads as its draft value (undefined ones are gone) |
| ZoneTransform.DraftNames | netlify/functions/dji-airspace-proxy-3f9a2k1x8m.js:119-128 | the literal has the eight names id, name, level, type, description, altitude, start_time, end_time in that order |
| ZoneTransform.PropertiesLookup | netlify/functions/dji-airspace-proxy-3f9a2k1x8m.js:119-135 | the cleaned `properties` object maps each of the eight names to its resolved alternative chain and has no other name |
| ZoneTransform.PropertiesOrdered | netlify/functions/dji-airspace-proxy-3f9a2k1x8m.js:119-135 | surviving properties keep the order id, name, level, type, description, altitude, start_time, end_time |
| ZoneTransform.PropertyPresentIff | netlify/functions/dji-airspace-proxy-3f9a2k1x8m.js:119-135 | a property survives exactly when one of its alternatives is truthy or its last alternative is present |
| ZoneTransform.ZoneDroppedIff | netlify/functions/dji-airspace-proxy-3f9a2k1x8m.js:162-165 | a non-null zone yields null exactly when all four geometry keys are falsy; the conversion throws exactly on a null zone |
| ZoneTransform.ConvertedFeature | netlify/functions/dji-airspace-proxy-3f9a2k1x8m.js:138-171 | a converted zone is a "Feature" with the cleaned properties and the verbatim or Polygon-wrapped geometry of its first truthy geometry key |
| ZoneTransform.CollectConcat | netlify/functions/dji-airspace-proxy-3f9a2k1x8m.js:92-95 | pushing converted zones distributes over concatenation of the zone outcomes |
| ZoneTransform.CollectLength | netlify/functions/dji-airspace-proxy-3f9a2k1x8m.js:92-95 | there are never more features than zones, and exactly as many iff every zone converts |
| ZoneTransform.CollectMembers | netlify/functions/dji-airspace-proxy-3f9a2k1x8m.js:92-95 | a feature is in the output exactly when some zone converted to it |
| ZoneTransform.OutcomesConcat | netlify/functions/dji-airspace-proxy-3f9a2k1x8m.js:92-95 | zones convert independently of their neighbours |
| ZoneTransform.KeptConcat | netlify/functions/dji-airspace-proxy-3f9a2k1x8m.js:92-107 | the features of two zone lists joined are the features of each, in order |
| ZoneTransform.KeptLength | netlify/functions/dji-airspace-proxy-3f9a2k1x8m.js:92-107 | `features` has at most one entry per zone, and one per zone iff no zone is dropped |
| ZoneTransform.KeptMembers | netlify/functions/dji-airspace-proxy-3f9a2k1x8m.js:92-107 | `features` holds exactly the features that some zone converted to, with no null entries |
| ZoneTransform.KeptSingle | netlify/functions/dji-airspace-proxy-3f9a2k1x8m.js:93-94 | a single zone contributes its feature if it converted and nothing otherwise |
| ZoneTransform.CollectSingle | netlify/functions/dji-airspace-proxy-3f9a2k1x8m.js:93-94 | one outcome contributes its feature if converted and nothing otherwise |
| ZoneTransform.DropMalformedZone | netlify/functions/dji-airspace-proxy-3f9a2k1x8m.js:92-95 | a zone that yields null or throws is skipped without aborting the batch: the output is the features before it followed by those after it |
| ZoneTransform.CollectDropOne | netlify/functions/dji-airspace-proxy-3f9a2k1x8m.js:92-95 | a non-converted outcome leaves no gap in the collected features |
| ZoneTransform.CollectionShape | netlify/functions/dji-airspace-proxy-3f9a2k1x8m.js:86-114 | the transform throws only on a null document; otherwise it returns type "FeatureCollection" with no more features than zones |
| ZoneTransform.ZoneListChoice | netlify/functions/dji-airspace-proxy-3f9a2k1x8m.js:90-108 | the features are those `Kept` from the `data` array, else from the document if it is an array, else from the `zones` array, else none |
| ZoneTransform.ExampleResolved | netlify/functions/dji-airspace-proxy-3f9a2k1x8m.js:120-121 | `{zone_id:"A1", zoneName:"Zone A", ...}` resolves id to "A1" and name to "Zone A" |
| ZoneTransform.ExampleMissing | netlify/functions/dji-airspace-proxy-3f9a2k1x8m.js:122-127 | that zone's other six properties are undefined |
| ZoneTransform.ExampleDraft | netlify/functions/dji-airspace-proxy-3f9a2k1x8m.js:119-128 | the literal for that zone has id and name defined and the rest undefined |
| ZoneTransform.ExampleProperties | netlify/functions/dji-airspace-proxy-3f9a2k1x8m.js:119-135 | after deletion that zone's properties are exactly `{id:"A1", name:"Zone A"}` |
| ZoneTransform.DefinedFirstTwo | netlify/functions/dji-airspace-proxy-3f9a2k1x8m.js:130-135 | a draft whose only defined members are the first two keeps exactly those |
| ZoneTransform.ExampleGeometry | netlify/functions/dji-airspace-proxy-3f9a2k1x8m.js:142-147 | that zone's `coordinates` ring becomes a Polygon with the ring as its only ring |
| ZoneTransform.ExampleZone | netlify/functions/dji-airspace-proxy-3f9a2k1x8m.js:116-171 | that zone converts to the Feature with those properties and that Polygon |
| ZoneTransform.DefinedUndefinedTail | netlify/functions/dji-airspace-proxy-3f9a2k1x8m.js:130-135 | undefined trailing members contribute nothing after deletion |
| ZoneTransform.ExampleDocument | netlify/functions/dji-airspace-proxy-3f9a2k1x8m.js:86-114 | `{data:[that zone]}` becomes a FeatureCollection holding that one Feature |
| ZoneTransform.FalsyIdDropped | netlify/functions/dji-airspace-proxy-3f9a2k1x8m.js:120 | `{id: 0}` has no `id` property: 0 is falsy and the other alternatives are missing |
| ZoneTransform.FalsyLastAlternativeKept | netlify/functions/dji-airspace-proxy-3f9a2k1x8m.js:120 | `{zoneId: ""}` keeps `id: ""`: the last alternative is kept even when falsy |
| Proxy.Contains | netlify/functions/dji-airspace-proxy-3f9a2k1x8m.js:43 | `includes` holds exactly when the substring occurs at some position (case-sensitive) |
| Proxy.ContainsShift | netlify/functions/dji-airspace-proxy-3f9a2k1x8m.js:43 | past a mismatch at the front, occurrences are those in the rest of the string |
| Proxy.DecimalRoundTrip | netlify/functions/dji-airspace-proxy-3f9a2k1x8m.js:38 | the status printed in the error line is a non-empty string of digits that reads back as the status |
| Proxy.Preflight | netlify/functions/dji-airspace-proxy-3f9a2k1x8m.js:5-18 | OPTIONS gets 200, an empty body and exactly the CORS headers, with no fetch; no other method gets exactly those headers |
| Proxy.CorsNames | netlify/functions/dji-airspace-proxy-3f9a2k1x8m.js:5-9 | the CORS header set is exactly Allow-Origin, Allow-Headers and Allow-Methods |
| Proxy.MissingUrl | netlify/functions/dji-airspace-proxy-3f9a2k1x8m.js:21-29 | a missing or empty `url` (including no query parameters) gives 400, JSON, `{"error":"Missing url parameter"}`, and only then |
| Proxy.StatusLineNotFixed | netlify/functions/dji-airspace-proxy-3f9a2k1x8m.js:38 | the upstream error line starts "HTTP " and so differs from both fixed error texts |
| Proxy.NetworkUse | netlify/functions/dji-airspace-proxy-3f9a2k1x8m.js:12-32 | the response depends on the network only through the fetch of the requested URL, and not at all for OPTIONS or a missing URL |
| Proxy.UpstreamError | netlify/functions/dji-airspace-proxy-3f9a2k1x8m.js:34-40 | a not-ok upstream answer is relayed with its own status and the error "HTTP status: statusText", never as an internal error |
| Proxy.NotFoundRelayed | netlify/functions/dji-airspace-proxy-3f9a2k1x8m.js:34-40 | an upstream 404 "Not Found" becomes 404 with `{"error":"HTTP 404: Not Found"}` |
| Proxy.ExportIff | netlify/functions/dji-airspace-proxy-3f9a2k1x8m.js:42-58 | a GeoJSON body comes back exactly when `export` is "true", the content type is JSON and the body parses to a non-null document; it is 200 with the attachment headers and the document's FeatureCollection |
| Proxy.ExportFlagAndType | netlify/functions/dji-airspace-proxy-3f9a2k1x8m.js:42-43 | "application/json; charset=utf-8" and "text/json" count as JSON; an absent content type ("") does not |
| Proxy.PassThrough | netlify/functions/dji-airspace-proxy-3f9a2k1x8m.js:59-75 | otherwise status 200 and the upstream text; Content-Type is the upstream value or ""; CSP, X-Frame-Options and X-Content-Type-Options are unset; no other header is added |
| Proxy.PassThroughHeadersKeep | netlify/functions/dji-airspace-proxy-3f9a2k1x8m.js:63-72 | the pass-through headers keep the three CORS headers unchanged |
| Proxy.InternalErrorIff | netlify/functions/dji-airspace-proxy-3f9a2k1x8m.js:76-83 | "Internal server error" (500, JSON, with the thrown message) comes back exactly when the fetch threw, or the export branch met an unparsable body or a null document; the message is the fetch's or the parser's error, or the null-document error |
| Proxy.CorsAlwaysPresent | netlify/functions/dji-airspace-proxy-3f9a2k1x8m.js:5-9 | every response carries the three CORS headers with their values |
| Proxy.StatusCodes | netlify/functions/dji-airspace-proxy-3f9a2k1x8m.js:3-84 | the status is 200, 400 or 500, or the status of a not-ok upstream answer |

## Left out

- The outbound `node-fetch` call is the parameter `network`. Its answer is taken as given: `ok`, `status`, `statusText` and the content type are inputs, not derived from each other.
- `response.json()` and `response.text()` are not modelled as parsers. The upstream body arrives both as text and as the outcome of parsing it (a document or a thrown message). A failure of `response.text()` is not modelled.
- `JSON.stringify` is not modelled: response bodies are structured values (text, an error object, a FeatureCollection), not serialized bytes.
- `delete properties[key]` works in place on one object. The model builds a fresh property list holding the defined members in order, so it does not capture the in-place removal or the object's identity, which nothing else in the function observes.
- `async`/`await` are dropped; the handler's awaits are sequential.
- `console.error` and `console.warn` logging is left out; it has no effect on results.
- JSON numbers are mathematical reals: the code only tests them for truthiness, and floating point is not modelled.
- Header entries the source sets to `undefined` are `None` in the header map. Whether the runtime drops them before they reach the client is not modelled.
- JSON objects are maps, so the key order of input objects is not modelled. The output `properties` are an ordered list, because their order is fixed by the source.
- JavaScript property access is own keys of objects only. Inherited properties (`length` of a string or array, prototype members) are not modelled, since none of the looked-up names is one of them.
- The message a `null` document throws is Node's wording for reading `data` of null. The model fixes that text, since it comes from the runtime, not from the file.
- Header names are compared exactly. The upstream content type is given already looked up, so header-name case-insensitivity does not arise.
