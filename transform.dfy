/**
 * The zone-to-GeoJSON transform of the airspace proxy: `convertZoneToFeature`
 * and `convertDjiToGeojson`. The functions state what the transform computes;
 * the two methods are the source's imperative code (a property-cleaning loop,
 * a reassigned `geometry`, an accumulating `features` array), each proved to
 * compute its function. The lemmas state what the output looks like.
 */
module ZoneTransform {
  import opened Wrappers
  import opened JsValue

  /** A GeoJSON Feature (RFC 7946 section 3.2); `kind` is its `type` member. */
  datatype Feature = Feature(kind: string, properties: seq<(string, Json)>, geometry: Json)

  /** A GeoJSON FeatureCollection (RFC 7946 section 3.3); `kind` is its `type` member. */
  datatype FeatureCollection = FeatureCollection(kind: string, features: seq<Feature>)

  /**
   * What converting one zone gives: a feature; `null` after the warning that
   * no geometry was found; or `null` from the `catch` after a property access
   * on the zone threw.
   */
  datatype ZoneOutcome = Converted(feature: Feature) | NoGeometry | Threw

  /** Each output property, with the zone keys tried for it, left to right. */
  const PropertyKeys: seq<(string, seq<string>)> := [
    ("id", ["id", "zone_id", "zoneId"]),
    ("name", ["name", "zone_name", "zoneName"]),
    ("level", ["level", "zone_level", "zoneLevel"]),
    ("type", ["type", "zone_type", "zoneType"]),
    ("description", ["description", "zone_description", "zoneDescription"]),
    ("altitude", ["altitude", "zone_altitude", "zoneAltitude"]),
    ("start_time", ["start_time", "startTime"]),
    ("end_time", ["end_time", "endTime"])
  ]

  /** The zone keys a geometry may come from, in the order they are tried. */
  const GeometryKeys: seq<string> := ["geometry", "coordinates", "boundary", "polygon"]

  /** The message of the TypeError Node.js raises for `null.data`. */
  const NullDocumentMessage: string := "Cannot read properties of null (reading 'data')"

  // ---------------------------------------------------------------------------
  // Properties
  // ---------------------------------------------------------------------------

  /** `zone[keys[0]], zone[keys[1]], ...` */
  function Lookups(zone: Json, keys: seq<string>): seq<Option<Json>> {
    seq(|keys|, i requires 0 <= i < |keys| => Get(zone, keys[i]))
  }

  /** `zone[keys[0]] || zone[keys[1]] || ...` */
  function Resolve(zone: Json, keys: seq<string>): Option<Json> {
    OrChain(Lookups(zone, keys))
  }

  /** The `properties` object literal before its `undefined` members are deleted. */
  function Draft(zone: Json): seq<(string, Option<Json>)> {
    seq(|PropertyKeys|, i requires 0 <= i < |PropertyKeys| => (PropertyKeys[i].0, Resolve(zone, PropertyKeys[i].1)))
  }

  /** The members of `draft` that are not `undefined`, in order. */
  function Defined(draft: seq<(string, Option<Json>)>): seq<(string, Json)>
    decreases |draft|
  {
    if draft == [] then []
    else
      var last := draft[|draft| - 1];
      Defined(draft[..|draft| - 1]) + if last.1.Some? then [(last.0, last.1.value)] else []
  }

  /** The `properties` object of a converted zone. */
  function Properties(zone: Json): seq<(string, Json)> {
    Defined(Draft(zone))
  }

  /** `obj[name]` on an ordered property list (the last member of that name wins). */
  function Lookup(ps: seq<(string, Json)>, name: string): Option<Json>
    decreases |ps|
  {
    if ps == [] then None
    else if ps[|ps| - 1].0 == name then Some(ps[|ps| - 1].1)
    else Lookup(ps[..|ps| - 1], name)
  }

  /** Where `name` stands among the output properties (8 when it is not one of them). */
  function Rank(name: string): nat {
    RankIn(PropertyKeys, name)
  }

  function RankIn(table: seq<(string, seq<string>)>, name: string): nat
    decreases |table|
  {
    if table == [] then 0
    else if table[0].0 == name then 0
    else 1 + RankIn(table[1..], name)
  }

  // ---------------------------------------------------------------------------
  // Geometry
  // ---------------------------------------------------------------------------

  /** `{type: 'Polygon', coordinates: [ring]}` */
  function PolygonOf(ring: Json): Json {
    JObj(map["type" := JStr("Polygon"), "coordinates" := JArr([ring])])
  }

  /** The index of the first key of `keys` whose value in `zone` is truthy. */
  function FirstTruthy(zone: Json, keys: seq<string>): (r: Option<nat>)
    ensures r.Some? ==>
              r.value < |keys| && Truthy(Get(zone, keys[r.value])) &&
              forall j | 0 <= j < r.value :: !Truthy(Get(zone, keys[j]))
    ensures r.None? <==> forall j | 0 <= j < |keys| :: !Truthy(Get(zone, keys[j]))
    decreases |keys|
  {
    if keys == [] then None
    else if Truthy(Get(zone, keys[0])) then Some(0)
    else
      match FirstTruthy(zone, keys[1..])
      case None => None
      case Some(i) => Some(i + 1)
  }

  /**
   * The geometry of a zone: `zone.geometry` as it is when truthy, otherwise
   * the first truthy of `coordinates`, `boundary` and `polygon` as the single
   * ring of a Polygon; `None` when none of the four is truthy.
   */
  function ZoneGeometry(zone: Json): Option<Json> {
    match FirstTruthy(zone, GeometryKeys)
    case None => None
    case Some(i) =>
      var v := Get(zone, GeometryKeys[i]).value;
      Some(if i == 0 then v else PolygonOf(v))
  }

  // ---------------------------------------------------------------------------
  // Zones and collections
  // ---------------------------------------------------------------------------

  /** What `convertZoneToFeature(zone)` yields. */
  function FeatureOf(zone: Json): ZoneOutcome {
    if zone.JNull? then Threw
    else
      match ZoneGeometry(zone)
      case None => NoGeometry
      case Some(g) => Converted(Feature("Feature", Properties(zone), g))
  }

  /** The outcome of converting each zone, in order. */
  function Outcomes(zones: seq<Json>): seq<ZoneOutcome> {
    seq(|zones|, i requires 0 <= i < |zones| => FeatureOf(zones[i]))
  }

  /** The features of the converted outcomes, in order; skipped zones leave no gap. */
  function Collect(outcomes: seq<ZoneOutcome>): seq<Feature>
    decreases |outcomes|
  {
    if outcomes == [] then []
    else
      Collect(outcomes[..|outcomes| - 1]) +
      match outcomes[|outcomes| - 1]
      case Converted(f) => [f]
      case _ => []
  }

  /** The features of the zones that convert, in order. */
  function Kept(zones: seq<Json>): seq<Feature> {
    Collect(Outcomes(zones))
  }

  /** The zone list: a `data` array, else the document itself if an array, else a `zones` array. */
  function ZoneList(doc: Json): seq<Json> {
    match Get(doc, "data")
    case Some(JArr(zs)) => zs
    case _ =>
      if doc.JArr? then doc.items
      else
        match Get(doc, "zones")
        case Some(JArr(zs)) => zs
        case _ => []
  }

  /** What `convertDjiToGeojson(doc)` returns, or the message it throws. */
  function GeoJsonOf(doc: Json): Result<FeatureCollection> {
    if doc.JNull? then Failure(NullDocumentMessage)
    else Success(FeatureCollection("FeatureCollection", Kept(ZoneList(doc))))
  }

  // ---------------------------------------------------------------------------
  // The source's imperative code
  // ---------------------------------------------------------------------------

  /**
   * `convertZoneToFeature`: builds the properties literal, keeps its members
   * that are not `undefined` one by one, then picks the geometry through an
   * if/else chain.
   */
  method ConvertZoneToFeature(zone: Json) returns (r: ZoneOutcome)
    ensures r == FeatureOf(zone)
  {
    if zone.JNull? {
      // `zone.id` on null throws; the catch returns null.
      return Threw;
    }
    var draft := Draft(zone);
    var properties: seq<(string, Json)> := [];
    var i := 0;
    while i < |draft|
      invariant 0 <= i <= |draft|
      invariant properties == Defined(draft[..i])
    {
      assert draft[..i + 1][..i] == draft[..i];
      if draft[i].1.Some? {
        properties := properties + [(draft[i].0, draft[i].1.value)];
      }
      i := i + 1;
    }
    assert draft[..i] == draft;

    var geometry: Option<Json> := None;
    if Truthy(Get(zone, "geometry")) {
      geometry := Get(zone, "geometry");
    } else if Truthy(Get(zone, "coordinates")) {
      geometry := Some(PolygonOf(Get(zone, "coordinates").value));
    } else if Truthy(Get(zone, "boundary")) {
      geometry := Some(PolygonOf(Get(zone, "boundary").value));
    } else if Truthy(Get(zone, "polygon")) {
      geometry := Some(PolygonOf(Get(zone, "polygon").value));
    }
    assert geometry == ZoneGeometry(zone) by {
      GeometryChain(zone);
    }

    if geometry.None? {
      return NoGeometry;
    }
    return Converted(Feature("Feature", properties, geometry.value));
  }

  /**
   * `convertDjiToGeojson`: selects the zone list, then pushes the feature of
   * every zone that converts onto a local `features` array.
   */
  method ConvertDjiToGeojson(doc: Json) returns (r: Result<FeatureCollection>)
    ensures r == GeoJsonOf(doc)
  {
    if doc.JNull? {
      // `djiData.data` on null throws out of the transform.
      return Failure(NullDocumentMessage);
    }
    var zones: seq<Json> := [];
    var data := Get(doc, "data");
    var alt := Get(doc, "zones");
    if Truthy(data) && data.value.JArr? {
      zones := data.value.items;
    } else if doc.JArr? {
      zones := doc.items;
    } else if Truthy(alt) && alt.value.JArr? {
      zones := alt.value.items;
    }
    assert zones == ZoneList(doc);

    ghost var outcomes := Outcomes(zones);
    var features: seq<Feature> := [];
    var i := 0;
    while i < |zones|
      invariant 0 <= i <= |zones|
      invariant features == Collect(outcomes[..i])
    {
      assert outcomes[..i + 1][..i] == outcomes[..i];
      var feature := ConvertZoneToFeature(zones[i]);
      if feature.Converted? {
        features := features + [feature.feature];
      }
      i := i + 1;
    }
    assert outcomes[..i] == outcomes;
    return Success(FeatureCollection("FeatureCollection", features));
  }

  /** The if/else chain over the four geometry keys picks what `ZoneGeometry` picks. */
  lemma GeometryChain(zone: Json)
    ensures ZoneGeometry(zone) ==
      if Truthy(Get(zone, "geometry")) then Get(zone, "geometry")
      else if Truthy(Get(zone, "coordinates")) then Some(PolygonOf(Get(zone, "coordinates").value))
      else if Truthy(Get(zone, "boundary")) then Some(PolygonOf(Get(zone, "boundary").value))
      else if Truthy(Get(zone, "polygon")) then Some(PolygonOf(Get(zone, "polygon").value))
      else None
  {
    var k := GeometryKeys;
    assert k[0] == "geometry" && k[1] == "coordinates" && k[2] == "boundary" && k[3] == "polygon";
    var r := FirstTruthy(zone, k);
    if r.Some? {
      assert r.value < 4;
      if r.value > 0 { assert !Truthy(Get(zone, k[0])); }
      if r.value > 1 { assert !Truthy(Get(zone, k[1])); }
      if r.value > 2 { assert !Truthy(Get(zone, k[2])); }
    } else {
      assert !Truthy(Get(zone, k[0])) && !Truthy(Get(zone, k[1]));
      assert !Truthy(Get(zone, k[2])) && !Truthy(Get(zone, k[3]));
    }
  }

  // ---------------------------------------------------------------------------
  // Properties: what survives the deletion of `undefined` members
  // ---------------------------------------------------------------------------

  /**
   * A property is deleted exactly when its `||` chain ends in `undefined`:
   * every alternative but the last is falsy and the last one is missing. A
   * falsy last alternative (`null`, `false`, `0`, `""`) is kept.
   */
  lemma ResolveUndefinedIff(zone: Json, keys: seq<string>)
    ensures Resolve(zone, keys) == None <==>
              keys == [] ||
              (Get(zone, keys[|keys| - 1]) == None &&
               forall i | 0 <= i < |keys| - 1 :: !Truthy(Get(zone, keys[i])))
  {
    var alts := Lookups(zone, keys);
    if keys != [] && exists i | 0 <= i < |keys| :: Truthy(Get(zone, keys[i])) {
      var i :| 0 <= i < |keys| && Truthy(Get(zone, keys[i]));
      assert Truthy(alts[i]);
    }
  }

  /** A property takes the first truthy alternative, whatever comes after it. */
  lemma ResolveFirstTruthy(zone: Json, keys: seq<string>, i: nat)
    requires i < |keys| && Truthy(Get(zone, keys[i]))
    requires forall j | 0 <= j < i :: !Truthy(Get(zone, keys[j]))
    ensures Resolve(zone, keys) == Get(zone, keys[i])
  {
    var alts := Lookups(zone, keys);
    assert Truthy(alts[i]);
    var k :| 0 <= k < |alts| && OrChain(alts) == alts[k] && forall j | 0 <= j < k :: !Truthy(alts[j]);
    if k < i {
      assert !Truthy(Get(zone, keys[k]));
    }
  }

  /** The output properties are named as in the table and ranked by their position in it. */
  lemma RankOfTable()
    ensures forall i | 0 <= i < |PropertyKeys| :: Rank(PropertyKeys[i].0) == i
    ensures forall name :: Rank(name) < |PropertyKeys| ==> PropertyKeys[Rank(name)].0 == name
  {
    NamesDistinct();
    forall i | 0 <= i < |PropertyKeys|
      ensures Rank(PropertyKeys[i].0) == i
    {
      RankInDistinct(PropertyKeys, i);
    }
    forall name | Rank(name) < |PropertyKeys|
      ensures PropertyKeys[Rank(name)].0 == name
    {
      RankInNames(PropertyKeys, name);
    }
  }

  /** No two properties share a name (their first letters already differ). */
  lemma NamesDistinct()
    ensures forall i, j | 0 <= i < j < |PropertyKeys| :: PropertyKeys[i].0 != PropertyKeys[j].0
  {
    var initials := "inltdase";
    assert forall i | 0 <= i < |PropertyKeys| :: |PropertyKeys[i].0| > 0 && PropertyKeys[i].0[0] == initials[i];
  }

  lemma {:induction false} RankInDistinct(table: seq<(string, seq<string>)>, i: nat)
    requires i < |table|
    requires forall j | 0 <= j < i :: table[j].0 != table[i].0
    ensures RankIn(table, table[i].0) == i
    decreases i
  {
    if i > 0 {
      assert table[0].0 != table[i].0;
      RankInDistinct(table[1..], i - 1);
    }
  }

  lemma {:induction false} RankInNames(table: seq<(string, seq<string>)>, name: string)
    ensures RankIn(table, name) <= |table|
    ensures RankIn(table, name) < |table| ==> table[RankIn(table, name)].0 == name
    decreases |table|
  {
    if table != [] && table[0].0 != name {
      RankInNames(table[1..], name);
    }
  }

  /** `obj[name]` after appending one member. */
  lemma LookupAppend(ps: seq<(string, Json)>, e: (string, Json), name: string)
    ensures Lookup(ps + [e], name) == if e.0 == name then Some(e.1) else Lookup(ps, name)
  {
    assert (ps + [e])[..|ps|] == ps;
  }

  /**
   * The members kept from a literal whose i-th entry is named by the i-th
   * row of `table` come from the literal, in table order.
   */
  lemma {:induction false} DefinedRanked(draft: seq<(string, Option<Json>)>, table: seq<(string, seq<string>)>)
    requires forall i | 0 <= i < |draft| :: RankIn(table, draft[i].0) == i
    ensures forall i | 0 <= i < |Defined(draft)| :: RankIn(table, Defined(draft)[i].0) < |draft|
    ensures forall i, j | 0 <= i < j < |Defined(draft)| ::
              RankIn(table, Defined(draft)[i].0) < RankIn(table, Defined(draft)[j].0)
    decreases |draft|
  {
    if draft != [] {
      var n := |draft|;
      var initDraft := draft[..n - 1];
      assert forall i | 0 <= i < |initDraft| :: initDraft[i] == draft[i];
      DefinedRanked(initDraft, table);
      var init := Defined(initDraft);
      var e := draft[n - 1];
      assert RankIn(table, e.0) == n - 1;
      if e.1.Some? {
        var d := init + [(e.0, e.1.value)];
        assert Defined(draft) == d;
        assert forall i | 0 <= i < |init| :: d[i] == init[i];
      } else {
        assert Defined(draft) == init;
        assert forall i | 0 <= i < |init| :: RankIn(table, init[i].0) < n;
      }
    }
  }

  /**
   * In such a literal each name maps to the value the literal gave it when
   * that value was not `undefined`.
   */
  lemma {:induction false} DefinedLookup(draft: seq<(string, Option<Json>)>, table: seq<(string, seq<string>)>, name: string)
    requires |draft| <= |table|
    requires forall i | 0 <= i < |draft| :: draft[i].0 == table[i].0 && RankIn(table, draft[i].0) == i
    requires RankIn(table, name) < |table| ==> table[RankIn(table, name)].0 == name
    ensures Lookup(Defined(draft), name) ==
              if RankIn(table, name) < |draft| then draft[RankIn(table, name)].1 else None
    decreases |draft|
  {
    if draft != [] {
      var n := |draft|;
      var initDraft := draft[..n - 1];
      assert forall i | 0 <= i < |initDraft| :: initDraft[i] == draft[i];
      DefinedLookup(initDraft, table, name);
      var e := draft[n - 1];
      assert RankIn(table, e.0) == n - 1;
      if e.1.Some? {
        LookupAppend(Defined(initDraft), (e.0, e.1.value), name);
        assert Defined(draft) == Defined(initDraft) + [(e.0, e.1.value)];
      } else {
        assert Defined(draft) == Defined(initDraft);
      }
    }
  }

  /**
   * `properties[name]` is the value of that property's `||` chain over its
   * alternative keys, and `undefined` for any name not in the table.
   */
  lemma PropertiesLookup(zone: Json, name: string)
    ensures Lookup(Properties(zone), name) ==
              if Rank(name) < |PropertyKeys| then Resolve(zone, PropertyKeys[Rank(name)].1) else None
  {
    var draft := Draft(zone);
    DraftNames(zone);
    RankInNames(PropertyKeys, name);
    DefinedLookup(draft, PropertyKeys, name);
  }

  /** The i-th entry of the properties literal is the i-th property of the table. */
  lemma DraftNames(zone: Json)
    ensures |Draft(zone)| == |PropertyKeys|
    ensures forall i | 0 <= i < |PropertyKeys| ::
              Draft(zone)[i].0 == PropertyKeys[i].0 && RankIn(PropertyKeys, Draft(zone)[i].0) == i
  {
    RankOfTable();
  }

  /**
   * The surviving properties keep the literal's order: id, name, level, type,
   * description, altitude, start_time, end_time (so no name repeats).
   */
  lemma PropertiesOrdered(zone: Json)
    ensures var ps := Properties(zone);
      forall i, j | 0 <= i < j < |ps| :: Rank(ps[i].0) < Rank(ps[j].0)
  {
    DraftNames(zone);
    DefinedRanked(Draft(zone), PropertyKeys);
  }

  /**
   * Property `k` is present exactly when one of its alternatives is truthy
   * or its last alternative is present at all.
   */
  lemma PropertyPresentIff(zone: Json, k: nat)
    requires k < |PropertyKeys|
    ensures var keys := PropertyKeys[k].1;
      Lookup(Properties(zone), PropertyKeys[k].0).Some? <==>
        (exists i | 0 <= i < |keys| :: Truthy(Get(zone, keys[i]))) ||
        Get(zone, keys[|keys| - 1]).Some?
  {
    var name, keys := PropertyKeys[k].0, PropertyKeys[k].1;
    assert Lookup(Properties(zone), name) == Resolve(zone, keys) by {
      NamesDistinct();
      RankInDistinct(PropertyKeys, k);
      PropertiesLookup(zone, name);
    }
    assert |keys| > 0;
    ResolveDefinedIff(zone, keys);
  }

  /** The `||` chain over a non-empty key list is defined exactly when some key is truthy or the last is present. */
  lemma ResolveDefinedIff(zone: Json, keys: seq<string>)
    requires |keys| > 0
    ensures Resolve(zone, keys).Some? <==>
              (exists i | 0 <= i < |keys| :: Truthy(Get(zone, keys[i]))) || Get(zone, keys[|keys| - 1]).Some?
  {
    ResolveUndefinedIff(zone, keys);
    if Get(zone, keys[|keys| - 1]) == None {
      assert !Truthy(Get(zone, keys[|keys| - 1]));
    }
  }


  // ---------------------------------------------------------------------------
  // Zones
  // ---------------------------------------------------------------------------

  /**
   * A zone is dropped for want of geometry exactly when it is not `null` and
   * none of `geometry`, `coordinates`, `boundary`, `polygon` is truthy; it is
   * dropped by the `catch` exactly when it is `null`.
   */
  lemma ZoneDroppedIff(zone: Json)
    ensures FeatureOf(zone) == NoGeometry <==>
              !zone.JNull? && forall k | k in GeometryKeys :: !Truthy(Get(zone, k))
    ensures FeatureOf(zone) == Threw <==> zone.JNull?
  {
    if !zone.JNull? && FeatureOf(zone) != NoGeometry {
      var i := FirstTruthy(zone, GeometryKeys).value;
      assert GeometryKeys[i] in GeometryKeys;
    }
  }

  /**
   * A converted zone is a `Feature` whose properties are the zone's resolved
   * properties and whose geometry is `zone.geometry` verbatim when truthy,
   * else a Polygon whose one ring is the first truthy of `coordinates`,
   * `boundary`, `polygon`.
   */
  lemma ConvertedFeature(zone: Json, f: Feature)
    requires FeatureOf(zone) == Converted(f)
    ensures f.kind == "Feature" && f.properties == Properties(zone)
    ensures Truthy(Get(zone, "geometry")) ==> f.geometry == Get(zone, "geometry").value
    ensures !Truthy(Get(zone, "geometry")) ==>
              exists i | 1 <= i < |GeometryKeys| ::
                Truthy(Get(zone, GeometryKeys[i])) &&
                (forall j | 0 <= j < i :: !Truthy(Get(zone, GeometryKeys[j]))) &&
                f.geometry == PolygonOf(Get(zone, GeometryKeys[i]).value)
  {
    GeometryChain(zone);
    assert GeometryKeys[1] == "coordinates" && GeometryKeys[2] == "boundary" && GeometryKeys[3] == "polygon";
  }

  // ---------------------------------------------------------------------------
  // Collections: which zones become features
  // ---------------------------------------------------------------------------

  /** Collecting a concatenation collects each part: order is kept and no gap is left. */
  lemma {:induction false} CollectConcat(a: seq<ZoneOutcome>, b: seq<ZoneOutcome>)
    ensures Collect(a + b) == Collect(a) + Collect(b)
    decreases |b|
  {
    if b == [] {
      assert a + b == a;
    } else {
      var ab := a + b;
      assert ab[..|ab| - 1] == a + b[..|b| - 1];
      CollectConcat(a, b[..|b| - 1]);
    }
  }

  /** At most one feature per outcome, and one for each exactly when every outcome is a feature. */
  lemma {:induction false} CollectLength(outcomes: seq<ZoneOutcome>)
    ensures |Collect(outcomes)| <= |outcomes|
    ensures |Collect(outcomes)| == |outcomes| <==> forall i | 0 <= i < |outcomes| :: outcomes[i].Converted?
    decreases |outcomes|
  {
    if outcomes != [] {
      var init := outcomes[..|outcomes| - 1];
      CollectLength(init);
      assert forall i | 0 <= i < |init| :: init[i] == outcomes[i];
    }
  }

  /** A feature is collected exactly when some outcome is that feature. */
  lemma {:induction false} CollectMembers(outcomes: seq<ZoneOutcome>, f: Feature)
    ensures f in Collect(outcomes) <==> Converted(f) in outcomes
    decreases |outcomes|
  {
    if outcomes != [] {
      var init := outcomes[..|outcomes| - 1];
      CollectMembers(init, f);
      assert outcomes == init + [outcomes[|outcomes| - 1]];
    }
  }

  /** The outcomes of a concatenation are those of its parts. */
  lemma OutcomesConcat(a: seq<Json>, b: seq<Json>)
    ensures Outcomes(a + b) == Outcomes(a) + Outcomes(b)
  {
  }

  /** Converting a concatenation of zone lists converts each list: order is kept and no gap is left. */
  lemma KeptConcat(a: seq<Json>, b: seq<Json>)
    ensures Kept(a + b) == Kept(a) + Kept(b)
  {
    OutcomesConcat(a, b);
    CollectConcat(Outcomes(a), Outcomes(b));
  }

  /** At most one feature per zone, and one for every zone exactly when every zone converts. */
  lemma KeptLength(zones: seq<Json>)
    ensures |Kept(zones)| <= |zones|
    ensures |Kept(zones)| == |zones| <==> forall i | 0 <= i < |zones| :: FeatureOf(zones[i]).Converted?
  {
    var os := Outcomes(zones);
    CollectLength(os);
    assert forall i | 0 <= i < |zones| :: os[i] == FeatureOf(zones[i]);
  }

  /** A feature is in the output exactly when some zone converts to it. */
  lemma KeptMembers(zones: seq<Json>, f: Feature)
    ensures f in Kept(zones) <==> exists i | 0 <= i < |zones| :: FeatureOf(zones[i]) == Converted(f)
  {
    var os := Outcomes(zones);
    CollectMembers(os, f);
    if Converted(f) in os {
      var i :| 0 <= i < |os| && os[i] == Converted(f);
      assert FeatureOf(zones[i]) == Converted(f);
    }
    if exists i | 0 <= i < |zones| :: FeatureOf(zones[i]) == Converted(f) {
      var i :| 0 <= i < |zones| && FeatureOf(zones[i]) == Converted(f);
      assert os[i] == Converted(f);
    }
  }

  lemma KeptSingle(z: Json)
    ensures Kept([z]) == if FeatureOf(z).Converted? then [FeatureOf(z).feature] else []
  {
    assert Outcomes([z]) == [FeatureOf(z)];
    CollectSingle(FeatureOf(z));
  }

  lemma CollectSingle(o: ZoneOutcome)
    ensures Collect([o]) == if o.Converted? then [o.feature] else []
  {
    assert [o][..0] == [];
  }

  /**
   * One malformed zone at position `k` costs exactly its own feature: the
   * others keep their relative order, and when they all convert there are
   * `|zones| - 1` features.
   */
  lemma DropMalformedZone(zones: seq<Json>, k: nat)
    requires k < |zones| && !FeatureOf(zones[k]).Converted?
    ensures Kept(zones) == Kept(zones[..k]) + Kept(zones[k + 1..])
    ensures (forall i | 0 <= i < |zones| && i != k :: FeatureOf(zones[i]).Converted?) ==>
              |Kept(zones)| == |zones| - 1
  {
    var os := Outcomes(zones);
    assert forall i | 0 <= i < |zones| :: os[i] == FeatureOf(zones[i]);
    CollectDropOne(os, k);
    assert os[..k] == Outcomes(zones[..k]);
    assert os[k + 1..] == Outcomes(zones[k + 1..]);
  }

  lemma CollectDropOne(outcomes: seq<ZoneOutcome>, k: nat)
    requires k < |outcomes| && !outcomes[k].Converted?
    ensures Collect(outcomes) == Collect(outcomes[..k]) + Collect(outcomes[k + 1..])
    ensures (forall i | 0 <= i < |outcomes| && i != k :: outcomes[i].Converted?) ==>
              |Collect(outcomes)| == |outcomes| - 1
  {
    var left, right := outcomes[..k], outcomes[k + 1..];
    calc {
      Collect(outcomes);
      { assert outcomes == (left + [outcomes[k]]) + right; }
      Collect((left + [outcomes[k]]) + right);
      { CollectConcat(left + [outcomes[k]], right); }
      Collect(left + [outcomes[k]]) + Collect(right);
      { CollectConcat(left, [outcomes[k]]); CollectSingle(outcomes[k]); }
      Collect(left) + Collect(right);
    }
    if forall i | 0 <= i < |outcomes| && i != k :: outcomes[i].Converted? {
      assert |Collect(left)| == |left| by {
        CollectLength(left);
      }
      assert |Collect(right)| == |right| by {
        CollectLength(right);
        assert forall i | 0 <= i < |right| :: right[i] == outcomes[k + 1 + i];
      }
    }
  }


  // ---------------------------------------------------------------------------
  // The whole document
  // ---------------------------------------------------------------------------

  /**
   * The transform fails only on a `null` document; otherwise it yields a
   * "FeatureCollection" with at most one feature per zone of the zone list.
   */
  lemma CollectionShape(doc: Json)
    ensures GeoJsonOf(doc).Success? <==> !doc.JNull?
    ensures GeoJsonOf(doc).Success? ==>
              GeoJsonOf(doc).value.kind == "FeatureCollection" &&
              |GeoJsonOf(doc).value.features| <= |ZoneList(doc)|
  {
    KeptLength(ZoneList(doc));
  }

  /**
   * The zone list is chosen in the order `data` array, top-level array,
   * `zones` array: a document transforms like the first of these it has,
   * and to an empty collection when it has none.
   */
  lemma ZoneListChoice(doc: Json)
    requires !doc.JNull?
    ensures (Get(doc, "data").Some? && Get(doc, "data").value.JArr?) ==>
              GeoJsonOf(doc) == Success(FeatureCollection("FeatureCollection", Kept(Get(doc, "data").value.items)))
    ensures !(Get(doc, "data").Some? && Get(doc, "data").value.JArr?) && doc.JArr? ==>
              GeoJsonOf(doc) == Success(FeatureCollection("FeatureCollection", Kept(doc.items)))
    ensures !(Get(doc, "data").Some? && Get(doc, "data").value.JArr?) && !doc.JArr? &&
            Get(doc, "zones").Some? && Get(doc, "zones").value.JArr? ==>
              GeoJsonOf(doc) == Success(FeatureCollection("FeatureCollection", Kept(Get(doc, "zones").value.items)))
    ensures !(Get(doc, "data").Some? && Get(doc, "data").value.JArr?) && !doc.JArr? &&
            !(Get(doc, "zones").Some? && Get(doc, "zones").value.JArr?) ==>
              GeoJsonOf(doc) == Success(FeatureCollection("FeatureCollection", []))
  {
  }

  /** The zone of the worked example, with coordinate ring `ring`. */
  function ExampleZoneOf(ring: seq<Json>): Json {
    JObj(map["zone_id" := JStr("A1"), "zoneName" := JStr("Zone A"), "coordinates" := JArr(ring)])
  }

  /** The two properties the worked example has. */
  lemma ExampleResolved(ring: seq<Json>)
    ensures Resolve(ExampleZoneOf(ring), PropertyKeys[0].1) == Some(JStr("A1"))
    ensures Resolve(ExampleZoneOf(ring), PropertyKeys[1].1) == Some(JStr("Zone A"))
  {
    ResolveFirstTruthy(ExampleZoneOf(ring), PropertyKeys[0].1, 1);
    ResolveFirstTruthy(ExampleZoneOf(ring), PropertyKeys[1].1, 2);
  }

  /** The six properties the worked example lacks. */
  lemma ExampleMissing(ring: seq<Json>, i: nat)
    requires 2 <= i < |PropertyKeys|
    ensures Resolve(ExampleZoneOf(ring), PropertyKeys[i].1) == None
  {
    var keys := PropertyKeys[i].1;
    assert forall j | 0 <= j < |keys| :: keys[j] !in {"zone_id", "zoneName", "coordinates"};
    ResolveUndefinedIff(ExampleZoneOf(ring), keys);
  }

  /** The properties literal of the worked example: two members, the rest `undefined`. */
  lemma ExampleDraft(ring: seq<Json>)
    ensures var d := Draft(ExampleZoneOf(ring));
      d[0] == ("id", Some(JStr("A1"))) && d[1] == ("name", Some(JStr("Zone A"))) &&
      forall i | 2 <= i < |d| :: d[i].1 == None
  {
    var d := Draft(ExampleZoneOf(ring));
    ExampleResolved(ring);
    forall i | 2 <= i < |d|
      ensures d[i].1 == None
    {
      ExampleMissing(ring, i);
    }
  }

  /** The worked example's properties are `{id: "A1", name: "Zone A"}`. */
  lemma ExampleProperties(ring: seq<Json>)
    ensures Properties(ExampleZoneOf(ring)) == [("id", JStr("A1")), ("name", JStr("Zone A"))]
  {
    ExampleDraft(ring);
    DefinedFirstTwo(Draft(ExampleZoneOf(ring)));
  }

  lemma DefinedFirstTwo(d: seq<(string, Option<Json>)>)
    requires |d| >= 2 && d[0].1.Some? && d[1].1.Some?
    requires forall i | 2 <= i < |d| :: d[i].1 == None
    ensures Defined(d) == [(d[0].0, d[0].1.value), (d[1].0, d[1].1.value)]
  {
    DefinedUndefinedTail(d, 2);
    assert d[..2] == [d[0], d[1]];
    assert Defined([d[0]]) == [(d[0].0, d[0].1.value)] by {
      assert [d[0]][..0] == [];
    }
    assert [d[0], d[1]][..1] == [d[0]];
  }

  /** The worked example's geometry is its ring wrapped as a Polygon. */
  lemma ExampleGeometry(ring: seq<Json>)
    ensures ZoneGeometry(ExampleZoneOf(ring)) == Some(PolygonOf(JArr(ring)))
  {
    GeometryChain(ExampleZoneOf(ring));
  }

  /**
   * The worked example: `{zone_id: "A1", zoneName: "Zone A", coordinates: ring}`
   * becomes a Feature with properties `{id: "A1", name: "Zone A"}` and the
   * ring as the one ring of a Polygon.
   */
  lemma ExampleZone(ring: seq<Json>)
    ensures FeatureOf(ExampleZoneOf(ring)) ==
              Converted(Feature("Feature", [("id", JStr("A1")), ("name", JStr("Zone A"))], PolygonOf(JArr(ring))))
  {
    ExampleProperties(ring);
    ExampleGeometry(ring);
  }

  lemma {:induction false} DefinedUndefinedTail(draft: seq<(string, Option<Json>)>, n: nat)
    requires n <= |draft|
    requires forall i | n <= i < |draft| :: draft[i].1 == None
    ensures Defined(draft) == Defined(draft[..n])
    decreases |draft|
  {
    if |draft| > n {
      DefinedUndefinedTail(draft[..|draft| - 1], n);
      assert draft[..|draft| - 1][..n] == draft[..n];
    } else {
      assert draft[..n] == draft;
    }
  }

  /**
   * A `data` wrapper around a list whose one zone is the worked example gives
   * a collection of that one feature.
   */
  lemma ExampleDocument(ring: seq<Json>)
    ensures GeoJsonOf(JObj(map["data" := JArr([ExampleZoneOf(ring)])])) ==
              Success(FeatureCollection("FeatureCollection",
                [Feature("Feature", [("id", JStr("A1")), ("name", JStr("Zone A"))], PolygonOf(JArr(ring)))]))
  {
    ExampleZone(ring);
    KeptSingle(ExampleZoneOf(ring));
    var zones := [ExampleZoneOf(ring)];
    assert ZoneList(JObj(map["data" := JArr(zones)])) == zones;
  }

  /** `{id: 0}` loses its id: `0 || undefined || undefined` is `undefined`. */
  lemma FalsyIdDropped()
    ensures Lookup(Properties(JObj(map["id" := JNum(0.0)])), "id") == None
  {
    var zone := JObj(map["id" := JNum(0.0)]);
    RankOfTable();
    PropertiesLookup(zone, "id");
    ResolveUndefinedIff(zone, PropertyKeys[0].1);
  }

  /** `{zoneId: ""}` keeps id `""`: the last alternative stands even when falsy. */
  lemma FalsyLastAlternativeKept()
    ensures Lookup(Properties(JObj(map["zoneId" := JStr("")])), "id") == Some(JStr(""))
  {
    var zone := JObj(map["zoneId" := JStr("")]);
    RankOfTable();
    PropertiesLookup(zone, "id");
    ResolveUndefinedIff(zone, PropertyKeys[0].1);
  }
}
