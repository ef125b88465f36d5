/**
 * The map component of the web front end: it geocodes each listed makerspace
 * in the browser, memoising answers in `localStorage`, and puts one marker on
 * the map per makerspace it could place.
 */
module MapboxBuildings {
  import opened Wrappers
  import opened Text
  import opened Dataset
  import StaticGeoJson

  const CacheKeyPrefix := "geocode:"

  /** A value placed in a template literal: `undefined` prints as "undefined". */
  function Interpolate(v: Option<string>): string {
    match v
    case None => "undefined"
    case Some(s) => s
  }

  /** The cache key: the prefix, the address, a dash, then the postal code as a template prints it. */
  function CacheKey(address: string, postalCode: Option<string>): string {
    CacheKeyPrefix + address + "-" + Interpolate(postalCode)
  }

  /** For one postal code, distinct addresses get distinct keys. */
  lemma CacheKeyAddressInjective(a1: string, a2: string, postalCode: Option<string>)
    requires CacheKey(a1, postalCode) == CacheKey(a2, postalCode)
    ensures a1 == a2
  {
    var k1, k2 := CacheKey(a1, postalCode), CacheKey(a2, postalCode);
    assert |a1| == |a2|;
    assert a1 == k1[|CacheKeyPrefix|..|CacheKeyPrefix| + |a1|];
    assert a2 == k2[|CacheKeyPrefix|..|CacheKeyPrefix| + |a2|];
  }

  /** For one address, the key determines the printed postal code. */
  lemma CacheKeyPostalInjective(address: string, p1: Option<string>, p2: Option<string>)
    requires CacheKey(address, p1) == CacheKey(address, p2)
    ensures Interpolate(p1) == Interpolate(p2)
  {
    var k1, k2 := CacheKey(address, p1), CacheKey(address, p2);
    var n := |CacheKeyPrefix| + |address| + 1;
    assert Interpolate(p1) == k1[n..];
    assert Interpolate(p2) == k2[n..];
  }

  /**
   * The key does not separate its two parts: an address ending in "-2" with
   * code "A" shares its entry with the address without it and code "2-A", and
   * a missing code shares its entry with the code "undefined".
   */
  lemma CacheKeysCollide(address: string)
    ensures CacheKey("1 Main St-2", Some("A")) == CacheKey("1 Main St", Some("2-A"))
    ensures CacheKey(address, None) == CacheKey(address, Some("undefined"))
  {
    assert CacheKey("1 Main St-2", Some("A")) == "geocode:1 Main St-2-A";
    assert CacheKey("1 Main St", Some("2-A")) == "geocode:1 Main St-2-A";
  }

  /** What `JSON.parse` of a cached entry yields once its `center` is checked to be an array. */
  datatype CacheRead = Corrupt | NotACenter | Center(center: seq<real>)

  /** The object written to the cache; its timestamp is part of the encoding. */
  datatype CacheRecord = CacheRecord(center: seq<real>, address: string)

  /** `JSON.parse` followed by the shape test, and `JSON.stringify` of a cache record. */
  datatype JsonCodec = JsonCodec(parse: string -> CacheRead, stringify: CacheRecord -> string)

  /**
   * What JSON guarantees for one record whose center is made of finite
   * doubles: written, it is not empty and reads back as its center.
   */
  ghost predicate RoundTripsFor(codec: JsonCodec, record: CacheRecord) {
    codec.parse(codec.stringify(record)) == Center(record.center) && codec.stringify(record) != ""
  }

  /** The cached center under `key`: the entry is there, truthy, and parses to an array `center`. */
  function CachedCenter(storage: map<string, string>, key: string, parse: string -> CacheRead): Option<seq<real>> {
    if key in storage && storage[key] != "" then
      match parse(storage[key])
      case Center(center) => Some(center)
      case _ => None
    else
      None
  }

  /** The front end's query: no skipped phrases and no rewritten address, unlike the script. */
  function FrontendQuery(address: string, postalCode: Option<string>): string {
    (if Truthy(postalCode) then address + ", " + postalCode.value else address) + RegionSuffix
  }

  /** Where the script does not rewrite the address, both pipelines send the same query. */
  lemma FrontendQueryMatchesScript(address: string, postalCode: Option<string>)
    requires !(Contains(address, StaticGeoJson.RobartsLibrary) && Contains(address, StaticGeoJson.RobartsStreet))
    ensures FrontendQuery(address, postalCode) == StaticGeoJson.BuildQuery(address, postalCode)
  {
  }

  /** The outcome of one `geocodeAddress` call: the result, the new storage, and the request made, if any. */
  datatype Step = Step(coordinates: Option<seq<real>>, storage: map<string, string>, request: Option<string>)

  /**
   * `geocodeAddress`: serve a usable cached entry; otherwise request the
   * query, cache a found center under the key and return it; a failed request
   * or an empty answer yields `None` and leaves the storage as it was.
   */
  function CachedGeocode(
    storage: map<string, string>, address: string, postalCode: Option<string>,
    fetch: string -> GeoResponse, codec: JsonCodec): Step
  {
    var key := CacheKey(address, postalCode);
    match CachedCenter(storage, key, codec.parse)
    case Some(center) => Step(Some(center), storage, None)
    case None =>
      var query := FrontendQuery(address, postalCode);
      match FirstCenter(fetch(query))
      case Some(p) =>
        var coordinates := Coordinates(p);
        Step(Some(coordinates), storage[key := codec.stringify(CacheRecord(coordinates, address))], Some(query))
      case None => Step(None, storage, Some(query))
  }

  /** A usable cache entry is returned as it is, with no request and no write, whatever the network would say. */
  lemma CacheHitIsOffline(
    storage: map<string, string>, address: string, postalCode: Option<string>,
    fetch: string -> GeoResponse, codec: JsonCodec)
    requires CachedCenter(storage, CacheKey(address, postalCode), codec.parse).Some?
    ensures var step := CachedGeocode(storage, address, postalCode, fetch, codec);
      step == Step(CachedCenter(storage, CacheKey(address, postalCode), codec.parse), storage, None)
  {
  }

  /**
   * Without a usable entry the query is requested; the call succeeds exactly
   * when the answer has a first center, which is returned as [lng, lat] and
   * written under the key, and nothing else in the storage changes.
   */
  lemma CacheMissRequests(
    storage: map<string, string>, address: string, postalCode: Option<string>,
    fetch: string -> GeoResponse, codec: JsonCodec)
    requires CachedCenter(storage, CacheKey(address, postalCode), codec.parse).None?
    ensures var step := CachedGeocode(storage, address, postalCode, fetch, codec);
      var answer := FirstCenter(fetch(FrontendQuery(address, postalCode)));
      && step.request == Some(FrontendQuery(address, postalCode))
      && (step.coordinates.Some? <==> answer.Some?)
      && (answer.Some? ==> step.coordinates.value == [answer.value.lng, answer.value.lat])
      && step.storage == if answer.Some? then
           storage[CacheKey(address, postalCode) := codec.stringify(CacheRecord(step.coordinates.value, address))]
         else storage
  {
  }

  /** A call writes at most its own key and never removes an entry. */
  lemma OnlyOwnKeyWritten(
    storage: map<string, string>, address: string, postalCode: Option<string>,
    fetch: string -> GeoResponse, codec: JsonCodec)
    ensures var after := CachedGeocode(storage, address, postalCode, fetch, codec).storage;
      && storage.Keys <= after.Keys
      && forall k :: k in storage && k != CacheKey(address, postalCode) ==> after[k] == storage[k]
  {
  }

  /**
   * A call that found a center leaves an entry that serves the next call for
   * the same row without a request, provided the record it wrote on a miss
   * round-trips through the codec.
   */
  lemma SecondCallIsCached(
    storage: map<string, string>, address: string, postalCode: Option<string>,
    fetch: string -> GeoResponse, later: string -> GeoResponse, codec: JsonCodec)
    requires CachedGeocode(storage, address, postalCode, fetch, codec).coordinates.Some?
    requires CachedCenter(storage, CacheKey(address, postalCode), codec.parse).None? ==>
      RoundTripsFor(codec, CacheRecord(CachedGeocode(storage, address, postalCode, fetch, codec).coordinates.value, address))
    ensures var first := CachedGeocode(storage, address, postalCode, fetch, codec);
      CachedGeocode(first.storage, address, postalCode, later, codec) == Step(first.coordinates, first.storage, None)
  {
    var key := CacheKey(address, postalCode);
    var first := CachedGeocode(storage, address, postalCode, fetch, codec);
    if CachedCenter(storage, key, codec.parse).None? {
      var record := CacheRecord(first.coordinates.value, address);
      assert first.storage[key] == codec.stringify(record);
      assert codec.parse(codec.stringify(record)) == Center(record.center);
    }
  }

  /** A cache entry that stays usable: present, truthy and parsing to an array `center`. */
  ghost predicate Usable(storage: map<string, string>, key: string, codec: JsonCodec) {
    CachedCenter(storage, key, codec.parse).Some?
  }

  /** The marker `addMarkerToMap` puts on the map for a makerspace. */
  datatype Marker = Marker(makerspace: RawRecord, lngLat: seq<real>)

  /** The state a marker-loading run builds, row by row: markers, storage, each row's result and request. */
  datatype Run = Run(
    markers: seq<Marker>,
    storage: map<string, string>,
    outcomes: seq<Option<seq<real>>>,
    requests: seq<Option<string>>)

  /** How a run geocodes one row from a given storage. */
  type Geocoder = (map<string, string>, RawRecord) -> Step

  /**
   * The front end's geocoder for a row: `geocodeAddress` on its address and
   * postal code. Only rows with an address reach it; one without gets an
   * empty step: no coordinates, the storage unchanged and no request.
   */
  function RowStep(fetch: string -> GeoResponse, codec: JsonCodec): Geocoder {
    (storage: map<string, string>, m: RawRecord) =>
      if m.address.Some? then CachedGeocode(storage, m.address.value, m.postalCode, fetch, codec)
      else Step(None, storage, None)
  }

  /** The run after one more row: a marker exactly when the row got coordinates. */
  function Extend(run: Run, m: RawRecord, step: Step): Run {
    Run(
      run.markers + (if step.coordinates.Some? then [Marker(m, step.coordinates.value)] else []),
      step.storage,
      run.outcomes + [step.coordinates],
      run.requests + [step.request])
  }

  /** `loadMakerspaceMarkers` over `rows`, starting from `storage`. */
  function LoadRun(storage: map<string, string>, rows: seq<RawRecord>, geocode: Geocoder): (run: Run)
    ensures |run.outcomes| == |rows| && |run.requests| == |rows|
    decreases |rows|
  {
    if rows == [] then Run([], storage, [], [])
    else
      var prev := LoadRun(storage, rows[..|rows| - 1], geocode);
      Extend(prev, rows[|rows| - 1], geocode(prev.storage, rows[|rows| - 1]))
  }

  /** One row more: the run over a longer prefix extends the shorter one by that row's step. */
  lemma RunExtends(storage: map<string, string>, rows: seq<RawRecord>, geocode: Geocoder, i: nat)
    requires i < |rows|
    ensures var prev := LoadRun(storage, rows[..i], geocode);
      LoadRun(storage, rows[..i + 1], geocode) == Extend(prev, rows[i], geocode(prev.storage, rows[i]))
  {
    assert rows[..i + 1][..i] == rows[..i];
  }

  /** Row `i`'s result and request are those of its step from the storage the earlier rows left. */
  lemma {:induction false} RunAt(storage: map<string, string>, rows: seq<RawRecord>, geocode: Geocoder, i: nat)
    requires i < |rows|
    ensures var step := geocode(LoadRun(storage, rows[..i], geocode).storage, rows[i]);
      && LoadRun(storage, rows, geocode).outcomes[i] == step.coordinates
      && LoadRun(storage, rows, geocode).requests[i] == step.request
    decreases |rows|
  {
    var n := |rows| - 1;
    if i < n {
      var init := rows[..n];
      RunAt(storage, init, geocode, i);
      assert init[..i] == rows[..i] && init[i] == rows[i];
    } else {
      assert rows[..n] == rows[..i];
    }
  }

  /** The markers follow the rows: one per row that got coordinates, at those coordinates, in row order. */
  lemma {:induction false} MarkersFollowOutcomes(storage: map<string, string>, rows: seq<RawRecord>, geocode: Geocoder)
    ensures var run := LoadRun(storage, rows, geocode);
      run.markers == MarkersOf(rows, run.outcomes)
    decreases |rows|
  {
    if rows != [] {
      var n := |rows| - 1;
      MarkersFollowOutcomes(storage, rows[..n], geocode);
      var run := LoadRun(storage, rows, geocode);
      var prev := LoadRun(storage, rows[..n], geocode);
      assert run.outcomes[..n] == prev.outcomes;
      assert rows[..n] == rows[..n][..n];
    }
  }

  /** The marker for each row whose outcome is a position, in row order. */
  function MarkersOf(rows: seq<RawRecord>, outcomes: seq<Option<seq<real>>>): (markers: seq<Marker>)
    requires |outcomes| == |rows|
    ensures |markers| <= |rows|
    decreases |rows|
  {
    if rows == [] then []
    else
      var n := |rows| - 1;
      MarkersOf(rows[..n], outcomes[..n]) + match outcomes[n]
        case Some(c) => [Marker(rows[n], c)]
        case None => []
  }

  /**
   * A usable entry stays usable through a run: the row owning the key is then
   * served from it, and a write only ever goes to a key that was not usable.
   */
  lemma {:induction false} RunKeepsUsable(storage: map<string, string>, rows: seq<RawRecord>, fetch: string -> GeoResponse, codec: JsonCodec, key: string)
    requires Usable(storage, key, codec)
    ensures Usable(LoadRun(storage, rows, RowStep(fetch, codec)).storage, key, codec)
    decreases |rows|
  {
    if rows != [] {
      RunKeepsUsable(storage, rows[..|rows| - 1], fetch, codec, key);
    }
  }

  /** Every record a run over `rows` can write, one per row and answer center, round-trips through the codec. */
  ghost predicate RunRecordsRoundTrip(rows: seq<RawRecord>, fetch: string -> GeoResponse, codec: JsonCodec) {
    forall j, p ::
      (0 <= j < |rows| && rows[j].address.Some? &&
       FirstCenter(fetch(FrontendQuery(rows[j].address.value, rows[j].postalCode))) == Some(p)) ==>
        RoundTripsFor(codec, CacheRecord(Coordinates(p), rows[j].address.value))
  }

  /** When the records a run writes round-trip, every row that got coordinates leaves a usable entry under its key. */
  lemma RunCachesSuccesses(storage: map<string, string>, rows: seq<RawRecord>, fetch: string -> GeoResponse, codec: JsonCodec, i: nat)
    requires AllNamed(rows) && RunRecordsRoundTrip(rows, fetch, codec) && i < |rows|
    requires LoadRun(storage, rows, RowStep(fetch, codec)).outcomes[i].Some?
    ensures Usable(LoadRun(storage, rows, RowStep(fetch, codec)).storage, CacheKey(rows[i].address.value, rows[i].postalCode), codec)
  {
    var geocode := RowStep(fetch, codec);
    var key := CacheKey(rows[i].address.value, rows[i].postalCode);
    RunAt(storage, rows, geocode, i);
    var before := LoadRun(storage, rows[..i], geocode).storage;
    var address := rows[i].address.value;
    if CachedCenter(before, key, codec.parse).None? {
      var p := FirstCenter(fetch(FrontendQuery(address, rows[i].postalCode))).value;
      assert CachedGeocode(before, address, rows[i].postalCode, fetch, codec).coordinates == Some(Coordinates(p));
    }
    SecondCallIsCached(before, rows[i].address.value, rows[i].postalCode, fetch, fetch, codec);
    RunExtends(storage, rows, geocode, i);
    assert Usable(LoadRun(storage, rows[..i + 1], geocode).storage, key, codec);
    RunSuffixKeepsUsable(storage, rows, i + 1, fetch, codec, key);
  }

  /** The rows after a prefix keep every entry the prefix left usable. */
  lemma {:induction false} RunSuffixKeepsUsable(storage: map<string, string>, rows: seq<RawRecord>, j: nat, fetch: string -> GeoResponse, codec: JsonCodec, key: string)
    requires j <= |rows|
    requires Usable(LoadRun(storage, rows[..j], RowStep(fetch, codec)).storage, key, codec)
    ensures Usable(LoadRun(storage, rows, RowStep(fetch, codec)).storage, key, codec)
    decreases |rows| - j
  {
    var geocode := RowStep(fetch, codec);
    if j < |rows| {
      var before := LoadRun(storage, rows[..j], geocode).storage;
      RunKeepsUsable(before, [rows[j]], fetch, codec, key);
      RunExtends(storage, rows, geocode, j);
      assert LoadRun(before, [rows[j]], geocode).storage == geocode(before, rows[j]).storage;
      RunSuffixKeepsUsable(storage, rows, j + 1, fetch, codec, key);
    } else {
      assert rows[..j] == rows;
    }
  }

  /**
   * Reloading the markers over the storage a first run left requests nothing
   * for the rows the first run placed: those are served from the cache.
   */
  lemma RerunServesPlacedRowsFromCache(storage: map<string, string>, rows: seq<RawRecord>, fetch: string -> GeoResponse, later: string -> GeoResponse, codec: JsonCodec, i: nat)
    requires AllNamed(rows) && RunRecordsRoundTrip(rows, fetch, codec) && i < |rows|
    requires LoadRun(storage, rows, RowStep(fetch, codec)).outcomes[i].Some?
    ensures LoadRun(LoadRun(storage, rows, RowStep(fetch, codec)).storage, rows, RowStep(later, codec)).requests[i] == None
  {
    var first := LoadRun(storage, rows, RowStep(fetch, codec));
    var key := CacheKey(rows[i].address.value, rows[i].postalCode);
    RunCachesSuccesses(storage, rows, fetch, codec, i);
    RunKeepsUsable(first.storage, rows[..i], later, codec, key);
    RunAt(first.storage, rows, RowStep(later, codec), i);
  }

  /** When every row already has a usable entry, a run requests nothing, writes nothing and places each cached center. */
  lemma {:induction false} WarmRunIsOffline(storage: map<string, string>, rows: seq<RawRecord>, fetch: string -> GeoResponse, codec: JsonCodec)
    requires AllNamed(rows)
    requires forall i :: 0 <= i < |rows| ==> Usable(storage, CacheKey(rows[i].address.value, rows[i].postalCode), codec)
    ensures var run := LoadRun(storage, rows, RowStep(fetch, codec));
      && run.storage == storage
      && (forall i :: 0 <= i < |rows| ==> run.requests[i] == None)
      && (forall i :: 0 <= i < |rows| ==>
            run.outcomes[i] == CachedCenter(storage, CacheKey(rows[i].address.value, rows[i].postalCode), codec.parse))
      && |run.markers| == |rows|
    decreases |rows|
  {
    if rows != [] {
      var geocode := RowStep(fetch, codec);
      var n := |rows| - 1;
      var init := rows[..n];
      WarmRunIsOffline(storage, init, fetch, codec);
      var prev := LoadRun(storage, init, geocode);
      var run := LoadRun(storage, rows, geocode);
      forall i | 0 <= i < |rows|
        ensures run.requests[i] == None
        ensures run.outcomes[i] == CachedCenter(storage, CacheKey(rows[i].address.value, rows[i].postalCode), codec.parse)
      {
        if i < n {
          assert init[i] == rows[i];
          assert run.requests[i] == prev.requests[i] && run.outcomes[i] == prev.outcomes[i];
        }
      }
    }
  }

  /** The map component's state: the browser's `localStorage` and the markers on the map. */
  class MapView {
    var localStorage: map<string, string>
    var markers: seq<Marker>

    constructor(storage: map<string, string>)
      ensures localStorage == storage && markers == []
    {
      localStorage := storage;
      markers := [];
    }

    /** `geocodeAddress`, reading and writing `localStorage`. */
    method GeocodeAddress(address: string, postalCode: Option<string>, fetch: string -> GeoResponse, codec: JsonCodec)
      returns (coordinates: Option<seq<real>>)
      modifies this
      ensures var step := CachedGeocode(old(localStorage), address, postalCode, fetch, codec);
        coordinates == step.coordinates && localStorage == step.storage
      ensures markers == old(markers)
    {
      var cacheKey := CacheKey(address, postalCode);
      var cached := if cacheKey in localStorage then localStorage[cacheKey] else "";
      if cached != "" {
        var parsed := codec.parse(cached);
        if parsed.Center? {
          return Some(parsed.center);
        }
      }
      var query := FrontendQuery(address, postalCode);
      var response := fetch(query);
      match response {
        case Answer(centers) =>
          if |centers| > 0 {
            coordinates := Some(Coordinates(centers[0]));
            localStorage := localStorage[cacheKey := codec.stringify(CacheRecord(coordinates.value, address))];
          } else {
            coordinates := None;
          }
        case _ =>
          coordinates := None;
      }
    }

    /**
     * `loadMakerspaceMarkers`: geocode each listed makerspace in turn, add a
     * marker for each one placed, and pause between makerspaces.
     */
    method LoadMakerspaceMarkers(makerspaces: seq<RawRecord>, fetch: string -> GeoResponse, codec: JsonCodec)
      returns (waits: nat)
      modifies this
      ensures var run := LoadRun(old(localStorage), ValidRecords(makerspaces), RowStep(fetch, codec));
        localStorage == run.storage && markers == old(markers) + run.markers
      ensures waits == if ValidRecords(makerspaces) == [] then 0 else |ValidRecords(makerspaces)| - 1
    {
      var validMakerspaces := ValidRecords(makerspaces);
      ListedAreNamed(validMakerspaces);
      waits := PlaceMarkers(validMakerspaces, fetch, codec);
    }

    /** The loop of `loadMakerspaceMarkers` over the rows that passed the filter. */
    method PlaceMarkers(rows: seq<RawRecord>, fetch: string -> GeoResponse, codec: JsonCodec)
      returns (waits: nat)
      requires AllNamed(rows)
      modifies this
      ensures var run := LoadRun(old(localStorage), rows, RowStep(fetch, codec));
        localStorage == run.storage && markers == old(markers) + run.markers
      ensures waits == if rows == [] then 0 else |rows| - 1
    {
      ghost var storage0, markers0 := localStorage, markers;
      ghost var geocode := RowStep(fetch, codec);
      ghost var run := LoadRun(storage0, [], geocode);
      waits := 0;
      for i := 0 to |rows|
        invariant run == LoadRun(storage0, rows[..i], geocode)
        invariant localStorage == run.storage && markers == markers0 + run.markers
        invariant waits == if i == |rows| && i > 0 then i - 1 else i
      {
        var makerspace := rows[i];
        ghost var step := geocode(localStorage, makerspace);
        var coordinates := GeocodeAddress(makerspace.address.value, makerspace.postalCode, fetch, codec);
        ghost var placed := Extend(run, makerspace, step).markers;
        if coordinates.Some? {
          markers := markers + [Marker(makerspace, coordinates.value)];
          assert placed == run.markers + [Marker(makerspace, coordinates.value)];
        } else {
          assert placed == run.markers;
        }
        assert markers == markers0 + placed;
        RunExtends(storage0, rows, geocode, i);
        run := Extend(run, makerspace, step);
        if i < |rows| - 1 {
          waits := waits + 1;
        }
      }
      assert rows[..|rows|] == rows;
    }
  }
}
