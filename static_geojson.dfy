/**
 * The script that geocodes the makerspace dataset once and assembles the static
 * GeoJSON FeatureCollection (RFC 7946) the map loads.
 */
module StaticGeoJson {
  import opened Wrappers
  import opened Text
  import opened Dataset

  /** Lower-case phrases that mark an address naming no place to geocode. */
  const InvalidAddressPhrases: seq<string> := [
    "in the process of relocation",
    "currently closed",
    "temporarily closed",
    "relocating",
    "to be determined",
    "tbd",
    "not available",
    "n/a"
  ]

  /** The one institution whose descriptive address is rewritten to its street address. */
  const RobartsLibrary := "Robarts Library"
  const RobartsStreet := "130 St George St"

  /** Some phrase of the list occurs in `text`. */
  predicate MentionsAny(text: string, phrases: seq<string>) {
    exists k :: 0 <= k < |phrases| && Contains(text, phrases[k])
  }

  /** The address contains a listed phrase once lower-cased, so it is skipped. */
  predicate IsNonGeocodable(address: string) {
    MentionsAny(ToLower(address), InvalidAddressPhrases)
  }

  /** Every listed phrase is already lower case, so lower-casing the address makes the match case-insensitive. */
  lemma BlocklistIsLowerCase()
    ensures forall k :: 0 <= k < |InvalidAddressPhrases| ==> ToLower(InvalidAddressPhrases[k]) == InvalidAddressPhrases[k]
  {
    forall k | 0 <= k < |InvalidAddressPhrases|
      ensures ToLower(InvalidAddressPhrases[k]) == InvalidAddressPhrases[k]
    {
      ToLowerKeepsUncased(InvalidAddressPhrases[k]);
    }
  }

  /** The address before the postal code and region are appended. */
  function QueryBase(address: string): (base: string)
    ensures Contains(address, RobartsLibrary) && Contains(address, RobartsStreet) ==> base == RobartsStreet
    ensures !(Contains(address, RobartsLibrary) && Contains(address, RobartsStreet)) ==> base == address
  {
    if Contains(address, RobartsLibrary) && Contains(address, RobartsStreet) then RobartsStreet else address
  }

  /** The free-text query: the base, `", " + postalCode` when the code is truthy, then the region. */
  function BuildQuery(address: string, postalCode: Option<string>): string {
    var base := QueryBase(address);
    var withPostal := if Truthy(postalCode) then base + ", " + postalCode.value else base;
    withPostal + RegionSuffix
  }

  /** The query is the base, then `", "` and the postal code exactly when the code is truthy, then the region. */
  lemma BuildQueryLayout(address: string, postalCode: Option<string>)
    ensures var query := BuildQuery(address, postalCode);
      && StartsWith(query, QueryBase(address)) && EndsWith(query, RegionSuffix)
      && |query| == |QueryBase(address)| + |RegionSuffix| + (if Truthy(postalCode) then 2 + |postalCode.value| else 0)
      && (Truthy(postalCode) ==> query[|QueryBase(address)|..|query| - |RegionSuffix|] == ", " + postalCode.value)
  {
  }

  /** The query sent to the geocoder, or `None` when the address is skipped without a request. */
  function GeocoderQuery(address: string, postalCode: Option<string>): (query: Option<string>)
    ensures query.None? <==> IsNonGeocodable(address)
  {
    if IsNonGeocodable(address) then None else Some(BuildQuery(address, postalCode))
  }

  /**
   * `geocodeAddress`: the first result's center, in the geocoder's own
   * [longitude, latitude] order, or `None` when the address is skipped, the
   * request fails or nothing is found. It never throws.
   */
  function GeocodeAddress(address: string, postalCode: Option<string>, geocoder: string -> GeoResponse): (coordinates: Option<Position>)
    ensures coordinates.Some? ==>
      && GeocoderQuery(address, postalCode).Some?
      && geocoder(GeocoderQuery(address, postalCode).value).Answer?
      && |geocoder(GeocoderQuery(address, postalCode).value).centers| > 0
      && coordinates.value == geocoder(GeocoderQuery(address, postalCode).value).centers[0]
    ensures coordinates.None? <==>
      || GeocoderQuery(address, postalCode).None?
      || FirstCenter(geocoder(GeocoderQuery(address, postalCode).value)).None?
  {
    match GeocoderQuery(address, postalCode)
    case None => None
    case Some(query) => FirstCenter(geocoder(query))
  }

  /**
   * An address holding a listed phrase in any mix of cases is skipped: the
   * result is `None` whatever the geocoder would have answered.
   */
  lemma NonGeocodableAnyCase(address: string, postalCode: Option<string>, spelled: string, k: int)
    requires 0 <= k < |InvalidAddressPhrases| && ToLower(spelled) == InvalidAddressPhrases[k]
    requires Contains(address, spelled)
    ensures IsNonGeocodable(address) && GeocoderQuery(address, postalCode) == None
    ensures forall geocoder: string -> GeoResponse :: GeocodeAddress(address, postalCode, geocoder) == None
  {
    ContainsLower(address, spelled);
  }

  /** The `properties` object of a feature; optional columns become "" rather than being omitted. */
  datatype Properties = Properties(
    id: nat,
    name: string,
    address: string,
    postalCode: Option<string>,
    category: string,
    accessModels: string,
    skills: string,
    phone: string,
    email: string,
    website: string,
    notes: string)

  /** A GeoJSON Point geometry (section 3.1.2 of RFC 7946). */
  datatype Geometry = Point(coordinates: seq<real>)

  /** A GeoJSON Feature (section 3.2 of RFC 7946). */
  datatype Feature = Feature(geometry: Geometry, properties: Properties)

  datatype Metadata = Metadata(generated: string, totalMakerspaces: nat, successfullyGeocoded: nat, failed: nat)

  /** A GeoJSON FeatureCollection (section 3.3 of RFC 7946) with the run's metadata. */
  datatype FeatureCollection = FeatureCollection(features: seq<Feature>, metadata: Metadata)

  /** The value when truthy, otherwise the empty string. */
  function OrEmpty(v: Option<string>): string {
    v.GetOr("")
  }

  /** An optional property holds the column's value when that is truthy, and "" otherwise. */
  predicate Defaulted(property: string, column: Option<string>) {
    property == if Truthy(column) then column.value else ""
  }

  /** The feature for the listed row at index `id`, located at `at`. */
  function MakeFeature(id: nat, m: RawRecord, at: Position): (f: Feature)
    requires Named(m)
    ensures f.geometry.coordinates == [at.lng, at.lat]
    ensures f.properties.id == id && Some(f.properties.name) == m.r && Some(f.properties.address) == m.address
    ensures f.properties.postalCode == m.postalCode
    ensures var p := f.properties;
      && Defaulted(p.category, m.generalCategory) && Defaulted(p.accessModels, m.primaryAccessModels)
      && Defaulted(p.skills, m.skillsRequired) && Defaulted(p.phone, m.phoneNumber)
      && Defaulted(p.email, m.emailAddress) && Defaulted(p.website, m.link) && Defaulted(p.notes, m.notes)
  {
    Feature(
      Point(Coordinates(at)),
      Properties(
        id, m.r.value, m.address.value, m.postalCode,
        OrEmpty(m.generalCategory), OrEmpty(m.primaryAccessModels), OrEmpty(m.skillsRequired),
        OrEmpty(m.phoneNumber), OrEmpty(m.emailAddress), OrEmpty(m.link), OrEmpty(m.notes)))
  }

  /**
   * The geocoding result for a row. Only listed rows, which always have an
   * address, reach the geocoder; a row without one has no result.
   */
  function RowLocation(m: RawRecord, geocoder: string -> GeoResponse): Option<Position> {
    if m.address.Some? then GeocodeAddress(m.address.value, m.postalCode, geocoder) else None
  }

  /** `RowLocation` for a fixed geocoder, as a function of the row. */
  function Geocoded(geocoder: string -> GeoResponse): RawRecord -> Option<Position> {
    m => RowLocation(m, geocoder)
  }

  /** The result of `locate` for each row, in order. */
  function Locations(rows: seq<RawRecord>, locate: RawRecord -> Option<Position>): (located: seq<Option<Position>>)
    ensures |located| == |rows|
    decreases |rows|
  {
    if rows == [] then []
    else Locations(rows[..|rows| - 1], locate) + [locate(rows[|rows| - 1])]
  }

  /** Entry `i` of the locations is the result for row `i`. */
  lemma {:induction false} LocationsAt(rows: seq<RawRecord>, locate: RawRecord -> Option<Position>)
    ensures forall i :: 0 <= i < |rows| ==> Locations(rows, locate)[i] == locate(rows[i])
    decreases |rows|
  {
    if rows != [] {
      var prefix := rows[..|rows| - 1];
      LocationsAt(prefix, locate);
      assert forall i :: 0 <= i < |prefix| ==> prefix[i] == rows[i];
    }
  }

  /** The features produced by the rows located so far, `located[i]` being row `i`'s result. */
  function FeaturesOf(valid: seq<RawRecord>, located: seq<Option<Position>>): seq<Feature>
    requires AllNamed(valid) && |located| <= |valid|
    decreases |located|
  {
    if located == [] then []
    else
      var n := |located| - 1;
      FeaturesOf(valid, located[..n]) +
        match located[n]
        case Some(at) => [MakeFeature(n, valid[n], at)]
        case None => []
  }

  /** How many rows were located. */
  function LocatedCount(located: seq<Option<Position>>): (count: nat)
    ensures count <= |located|
    decreases |located|
  {
    if located == [] then 0
    else LocatedCount(located[..|located| - 1]) + if located[|located| - 1].Some? then 1 else 0
  }

  /** One feature per located row. */
  lemma {:induction false} FeatureCountIsLocatedCount(valid: seq<RawRecord>, located: seq<Option<Position>>)
    requires AllNamed(valid) && |located| <= |valid|
    ensures |FeaturesOf(valid, located)| == LocatedCount(located)
    decreases |located|
  {
    if located != [] {
      FeatureCountIsLocatedCount(valid, located[..|located| - 1]);
    }
  }

  /** Feature ids are row indices, strictly increasing (with gaps where a row failed). */
  lemma {:induction false} FeatureIdsAscend(valid: seq<RawRecord>, located: seq<Option<Position>>)
    requires AllNamed(valid) && |located| <= |valid|
    ensures forall k :: 0 <= k < |FeaturesOf(valid, located)| ==> FeaturesOf(valid, located)[k].properties.id < |located|
    ensures forall j, k :: 0 <= j < k < |FeaturesOf(valid, located)| ==>
      FeaturesOf(valid, located)[j].properties.id < FeaturesOf(valid, located)[k].properties.id
    decreases |located|
  {
    if located != [] {
      var n := |located| - 1;
      FeatureIdsAscend(valid, located[..n]);
      var prev := FeaturesOf(valid, located[..n]);
      var fs := FeaturesOf(valid, located);
      assert forall k :: 0 <= k < |prev| ==> fs[k] == prev[k];
      assert |fs| == |prev| + 1 ==> fs[|prev|].properties.id == n;
    }
  }

  /** Each feature is built from the row its id names, at the position found for that row. */
  lemma {:induction false} FeaturesMatchLocations(valid: seq<RawRecord>, located: seq<Option<Position>>)
    requires AllNamed(valid) && |located| <= |valid|
    ensures forall k :: 0 <= k < |FeaturesOf(valid, located)| ==>
      var f := FeaturesOf(valid, located)[k];
      && f.properties.id < |located|
      && located[f.properties.id].Some?
      && f == MakeFeature(f.properties.id, valid[f.properties.id], located[f.properties.id].value)
    decreases |located|
  {
    if located != [] {
      var n := |located| - 1;
      FeaturesMatchLocations(valid, located[..n]);
      var prev := FeaturesOf(valid, located[..n]);
      var fs := FeaturesOf(valid, located);
      forall k | 0 <= k < |fs|
        ensures fs[k].properties.id < |located|
        ensures located[fs[k].properties.id].Some?
        ensures fs[k] == MakeFeature(fs[k].properties.id, valid[fs[k].properties.id], located[fs[k].properties.id].value)
      {
        if k < |prev| {
          assert fs[k] == prev[k];
          assert located[..n][fs[k].properties.id] == located[fs[k].properties.id];
        }
      }
    }
  }

  /** Some feature carries row index `i`. */
  predicate HasFeatureFor(features: seq<Feature>, i: nat) {
    exists k :: 0 <= k < |features| && features[k].properties.id == i
  }

  /** Every located row has a feature carrying its index. */
  lemma {:induction false} FeatureForEveryLocatedRow(valid: seq<RawRecord>, located: seq<Option<Position>>)
    requires AllNamed(valid) && |located| <= |valid|
    ensures forall i :: 0 <= i < |located| && located[i].Some? ==> HasFeatureFor(FeaturesOf(valid, located), i)
    decreases |located|
  {
    if located != [] {
      var n := |located| - 1;
      FeatureForEveryLocatedRow(valid, located[..n]);
      var prev := FeaturesOf(valid, located[..n]);
      var fs := FeaturesOf(valid, located);
      forall i | 0 <= i < |located| && located[i].Some?
        ensures HasFeatureFor(fs, i)
      {
        if i < n {
          assert located[..n][i] == located[i];
          var k :| 0 <= k < |prev| && prev[k].properties.id == i;
          assert fs[k] == prev[k];
        } else {
          assert fs[|prev|].properties.id == n;
        }
      }
    }
  }

  /** A row gets a feature exactly when it was located. */
  lemma FeatureIffLocated(valid: seq<RawRecord>, located: seq<Option<Position>>, i: nat)
    requires AllNamed(valid) && |located| <= |valid| && i < |located|
    ensures located[i].Some? <==> HasFeatureFor(FeaturesOf(valid, located), i)
  {
    FeatureForEveryLocatedRow(valid, located);
    FeaturesMatchLocations(valid, located);
  }

  /** One more row: its result is appended, and a feature is added and counted exactly when it was located. */
  lemma LoopStep(valid: seq<RawRecord>, locate: RawRecord -> Option<Position>, i: nat, located: seq<Option<Position>>)
    requires AllNamed(valid) && i < |valid| && located == Locations(valid[..i], locate)
    ensures located + [locate(valid[i])] == Locations(valid[..i + 1], locate)
    ensures var coordinates := locate(valid[i]);
      && FeaturesOf(valid, located + [coordinates]) ==
        FeaturesOf(valid, located) + (if coordinates.Some? then [MakeFeature(i, valid[i], coordinates.value)] else [])
      && LocatedCount(located + [coordinates]) == LocatedCount(located) + if coordinates.Some? then 1 else 0
  {
    assert valid[..i + 1][..i] == valid[..i];
    assert (located + [locate(valid[i])])[..i] == located;
  }

  /**
   * The loop of `generateStaticGeoJSON` over the valid rows: geocode each row
   * in turn (`locate`), keep a feature per located row, count successes and
   * failures, and pause between requests, never after the last one.
   */
  method GeocodeRows(valid: seq<RawRecord>, locate: RawRecord -> Option<Position>)
    returns (features: seq<Feature>, successCount: nat, failCount: nat, waits: nat)
    requires AllNamed(valid)
    ensures features == FeaturesOf(valid, Locations(valid, locate))
    ensures successCount == LocatedCount(Locations(valid, locate)) && successCount + failCount == |valid|
    ensures waits == if |valid| == 0 then 0 else |valid| - 1
  {
    ghost var located: seq<Option<Position>> := [];
    features := [];
    successCount, failCount := 0, 0;
    waits := 0;
    for i := 0 to |valid|
      invariant located == Locations(valid[..i], locate)
      invariant features == FeaturesOf(valid, located)
      invariant successCount == LocatedCount(located)
      invariant successCount + failCount == i
      invariant waits == if i == |valid| && i > 0 then i - 1 else i
    {
      var makerspace := valid[i];
      var coordinates := locate(makerspace);
      LoopStep(valid, locate, i, located);
      if coordinates.Some? {
        features := features + [MakeFeature(i, makerspace, coordinates.value)];
        successCount := successCount + 1;
      } else {
        failCount := failCount + 1;
      }
      located := located + [coordinates];
      if i < |valid| - 1 {
        waits := waits + 1;
      }
    }
    assert valid[..|valid|] == valid;
  }

  /**
   * `generateStaticGeoJSON`: keep the listed rows, geocode them in order with
   * `geocodeAddress` and wrap the features with the run's metadata.
   * `generated` is the run's timestamp; `waits` counts the pauses.
   */
  method GenerateStaticGeoJSON(makerspaces: seq<RawRecord>, geocoder: string -> GeoResponse, generated: string)
    returns (geojson: FeatureCollection, waits: nat)
    ensures var valid := ValidRecords(makerspaces);
      var located := Locations(valid, Geocoded(geocoder));
      && geojson.features == FeaturesOf(valid, located)
      && geojson.metadata == Metadata(generated, |valid|, LocatedCount(located), |valid| - LocatedCount(located))
      && waits == if valid == [] then 0 else |valid| - 1
  {
    var validMakerspaces := ValidRecords(makerspaces);
    ListedAreNamed(validMakerspaces);
    var features, successCount, failCount;
    features, successCount, failCount, waits := GeocodeRows(validMakerspaces, Geocoded(geocoder));
    geojson := FeatureCollection(features, Metadata(generated, |validMakerspaces|, successCount, failCount));
  }

  /** The metadata counts every valid row once, and the successes are the features. */
  lemma MetadataCounts(makerspaces: seq<RawRecord>, geocoder: string -> GeoResponse)
    ensures var valid := ValidRecords(makerspaces);
      var located := Locations(valid, Geocoded(geocoder));
      && LocatedCount(located) == |FeaturesOf(valid, located)|
      && LocatedCount(located) <= |valid|
  {
    var valid := ValidRecords(makerspaces);
    FeatureCountIsLocatedCount(valid, Locations(valid, Geocoded(geocoder)));
  }
}
