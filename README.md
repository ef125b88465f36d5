# Makerspace map: geocoding, search and location store, in Dafny

This project models the logic of the CCT499 makerspace map, a web application. Its parts:

- a back-end script geocodes a dataset of Toronto-area makerspaces once and writes a static GeoJSON FeatureCollection (RFC 7946);
- the map's front end geocodes the same rows in the browser, memoises the answers in `localStorage`, and places one marker per makerspace it could place;
- a search box filters the features by a case-insensitive substring;
- a REST controller stores user-added locations under a document schema;
- a client form checks coordinates before handing a new location on.

The files:

- `wrappers.dfy`: `Option`, where `None` stands for a missing key or `undefined`, and `Result`.
- `text.dfy`: JavaScript's `trim` (the full ECMAScript whitespace set), `toLowerCase` (Basic Latin and Latin-1 capitals) and `includes`.
- `sequences.dfy`: `Array.prototype.filter` and the subsequence order it keeps.
- `dataset.dfy`: a dataset row, the "valid row" filter both pipelines share, and the geocoder's answer.
- `static_geojson.dfy`: the script's `geocodeAddress`, covering the skip list, the query and the first center. It also has `generateStaticGeoJSON`, covering the loop, features, counters, pauses and metadata. The geocoder is an oracle `string -> GeoResponse`.
- `mapbox_buildings.dfy`: the front end's caching `geocodeAddress` and `loadMakerspaceMarkers`. They live on a class `MapView`, which holds the `localStorage` map and the markers. `JSON.parse` with its shape test and `JSON.stringify` are an abstract codec. JSON reads back a written record whose center holds finite doubles. This is a hypothesis per record, `RoundTripsFor`, A lemma that needs it assumes it for the record one call writes on a miss, or for every record a run could write, one per row and answer center.
- `makerspace_search.dfy`: `filterMakerspaces` and `clearSearch`.
- `location_schema.dfy`: the `Location` schema, meaning its required paths, the `Point` enum and its defaults, as a validating and default-filling function.
- `location_controller.dfy`: the five handlers, as a class over `map<Id, Location>`. The three handlers that change the store are each proved against a function giving the response and the new store. The two reads state their response directly.
- `location_form.dfy`: the form state as a class. `handleChange` updates one field. `handleSubmit` runs its three checks in order and resets the form on success. The output of `parseFloat` is `Option<real>`, with `None` for NaN.

Facts about the code that the model keeps:

- The front end geocodes strictly one row at a time, with a 150 ms pause between rows.
- An update copies only *truthy* fields from the request body. It replaces the point only when both numbers are non-zero.
- The front end's cache key is a plain concatenation, so it does not keep address and postal code apart (`CacheKeysCollide`).
- The controller puts the body's two numbers into the point without checking them. The model has no geospatial index, so it stores a missing number as null and accepts any value. The real database refuses both; see "## Left out".

A warm cache serves the front end's next run from the cache for the rows already placed. `WarmRunIsOffline` and `RerunServesPlacedRowsFromCache` state this. A row that failed is requested again on a later run unless a placed row shares its cache key. Such rows exist, as `CacheKeysCollide` shows, and the failed row is then placed at the other row's center.

## Model

| member | source | states |
|---|---|---|
| `Text.TrimEmptyIffBlank` | backend/src/scripts/generate-static-geojson.js:113 | trimming leaves the empty string exactly when every character is whitespace |
| `Text.ContainsLower` | backend/src/scripts/generate-static-geojson.js:38-40 | an occurrence of a phrase survives lower-casing both the text and the phrase |
| `Dataset.ListedIffNotBlank` | backend/src/scripts/generate-static-geojson.js:112-114 | a row passes the filter exactly when its name and address are present and hold a character that is not whitespace |
| `Dataset.ValidRecordsExact` | backend/src/scripts/generate-static-geojson.js:112-114 | the valid list is exactly the passing rows, each as often as in the input, in input order |
| `Dataset.ValidRecords` | backend/src/scripts/generate-static-geojson.js:112-114 | every kept row passes the name-and-address filter and the list is no longer than the input; `ValidRecordsExact` gives the rest |
| `Dataset.FirstCenter` | backend/src/scripts/generate-static-geojson.js:79-86 | a center is returned exactly for an answer with at least one feature, and it is the first feature's center |
| `StaticGeoJson.IsNonGeocodable` | backend/src/scripts/generate-static-geojson.js:37-41 | an address is skipped exactly when its lower-cased text contains one of the listed phrases (its contract is `NonGeocodableAnyCase` and `GeocoderQuery`) |
| `StaticGeoJson.BlocklistIsLowerCase` | backend/src/scripts/generate-static-geojson.js:26-35 | every skip phrase is unchanged by lower-casing |
| `StaticGeoJson.NonGeocodableAnyCase` | backend/src/scripts/generate-static-geojson.js:37-46 | an address containing a skip phrase in any mix of cases is skipped, with no query and a null result for every geocoder |
| `StaticGeoJson.QueryBase` | backend/src/scripts/generate-static-geojson.js:49-57 | the base is exactly "130 St George St" when the address contains both "Robarts Library" and that street (case-sensitive), and the address otherwise |
| `StaticGeoJson.BuildQueryLayout` | backend/src/scripts/generate-static-geojson.js:59-60 | the query starts with the base, ends with ", Ontario, Canada", and holds ", " plus the postal code in between exactly when the code is truthy |
| `StaticGeoJson.BuildQuery` | backend/src/scripts/generate-static-geojson.js:59-60 | the query is the base, ", " and the postal code when it is truthy, then ", Ontario, Canada" (proved in `BuildQueryLayout`) |
| `StaticGeoJson.GeocoderQuery` | backend/src/scripts/generate-static-geojson.js:37-60 | no request is made exactly when the lower-cased address contains a skip phrase |
| `StaticGeoJson.GeocodeAddress` | backend/src/scripts/generate-static-geojson.js:24-100 | the result is the geocoder's first center for the built query in [lng, lat] order, and null exactly when the address is skipped or the request yields no center (errors included) |
| `StaticGeoJson.MakeFeature` | backend/src/scripts/generate-static-geojson.js:139-158 | a feature is a Point at [lng, lat] with the row's index as id, its name, address and raw postal code; each of the seven optional properties is its column's value when truthy and "" otherwise |
| `StaticGeoJson.LocationsAt` | backend/src/scripts/generate-static-geojson.js:125-135 | entry i of the per-row results is the geocoding of valid row i |
| `StaticGeoJson.FeatureCountIsLocatedCount` | backend/src/scripts/generate-static-geojson.js:137-164 | there is one feature per located row |
| `StaticGeoJson.FeatureIdsAscend` | backend/src/scripts/generate-static-geojson.js:146 | feature ids are below the number of rows and strictly increasing |
| `StaticGeoJson.FeaturesMatchLocations` | backend/src/scripts/generate-static-geojson.js:137-160 | each feature is built from the row its id names, at that row's geocoded position |
| `StaticGeoJson.FeatureForEveryLocatedRow` | backend/src/scripts/generate-static-geojson.js:137-161 | every located row has a feature carrying its index |
| `StaticGeoJson.FeatureIffLocated` | backend/src/scripts/generate-static-geojson.js:137-164 | a row has a feature exactly when it was located |
| `StaticGeoJson.LoopStep` | backend/src/scripts/generate-static-geojson.js:125-170 | one loop iteration appends the row's result, adds a feature and a success exactly when it was located |
| `StaticGeoJson.GeocodeRows` | backend/src/scripts/generate-static-geojson.js:120-170 | the loop yields the features of the located rows in order, successes plus failures equal the row count, successes equal the located rows, and it pauses max(n-1, 0) times |
| `StaticGeoJson.GenerateStaticGeoJSON` | backend/src/scripts/generate-static-geojson.js:102-182 | the collection holds the features of the valid rows, and the metadata holds the total, the successes and the failures |
| `StaticGeoJson.MetadataCounts` | backend/src/scripts/generate-static-geojson.js:173-182 | the success count equals the number of features and is at most the total |
| `MapboxBuildings.CacheKey` | frontend/src/components/MapboxBuildings.js:79 | the key is "geocode:", the address, "-" and the printed postal code; its injectivity and collisions are the three lemmas below |
| `MapboxBuildings.CacheKeyAddressInjective` | frontend/src/components/MapboxBuildings.js:79 | for one postal code, distinct addresses get distinct keys |
| `MapboxBuildings.CacheKeyPostalInjective` | frontend/src/components/MapboxBuildings.js:79 | for one address, the key fixes the printed postal code |
| `MapboxBuildings.CacheKeysCollide` | frontend/src/components/MapboxBuildings.js:79 | different (address, code) pairs can share a key, and a missing code shares the key of the code "undefined" |
| `MapboxBuildings.FrontendQuery` | frontend/src/components/MapboxBuildings.js:95-97 | the address, ", " and the postal code when it is truthy, then ", Ontario, Canada"; `FrontendQueryMatchesScript` relates it to the script's query |
| `MapboxBuildings.FrontendQueryMatchesScript` | frontend/src/components/MapboxBuildings.js:95-97 | without the Robarts rewrite, the front end's query equals the script's |
| `MapboxBuildings.CachedGeocode` | frontend/src/components/MapboxBuildings.js:78-128 | the caching geocode step: a usable entry is served, otherwise the query is requested and a center is written under the key; its properties are `CacheHitIsOffline`, `CacheMissRequests`, `OnlyOwnKeyWritten` and `SecondCallIsCached` (a later lookup with that key is then a hit, when the written record round-trips) |
| `MapboxBuildings.CacheHitIsOffline` | frontend/src/components/MapboxBuildings.js:82-88 | a usable cached entry is returned with no request and no write, whatever the network would answer |
| `MapboxBuildings.CacheMissRequests` | frontend/src/components/MapboxBuildings.js:81-127 | without a usable entry, the query is requested; the call succeeds exactly when the answer has a center, which is returned and written under the key; otherwise the storage is unchanged |
| `MapboxBuildings.OnlyOwnKeyWritten` | frontend/src/components/MapboxBuildings.js:109-127 | a call writes at most its own key and never removes an entry |
| `MapboxBuildings.SecondCallIsCached` | frontend/src/components/MapboxBuildings.js:109-119 | when the record written on a miss round-trips through the codec, a successful call makes the next call for the same row a cache hit with the same result and no request |
| `MapboxBuildings.LoadRun` | frontend/src/components/MapboxBuildings.js:142-159 | the run over the rows has one outcome and one request entry per row; the run lemmas below give its markers and storage |
| `MapboxBuildings.RunExtends` | frontend/src/components/MapboxBuildings.js:142-159 | the run over one more row extends the shorter run by that row's step |
| `MapboxBuildings.RunAt` | frontend/src/components/MapboxBuildings.js:142-159 | row i's result and request are those of its geocoding from the storage the earlier rows left |
| `MapboxBuildings.MarkersFollowOutcomes` | frontend/src/components/MapboxBuildings.js:151-153 | a marker is added exactly for each row with coordinates, at them, in row order |
| `MapboxBuildings.RunKeepsUsable` | frontend/src/components/MapboxBuildings.js:82-92 | a usable cache entry stays usable through a whole run |
| `MapboxBuildings.RunCachesSuccesses` | frontend/src/components/MapboxBuildings.js:109-118 | when the records the run can write round-trip, every row placed in a run leaves a usable entry under its key at the end of the run |
| `MapboxBuildings.RunSuffixKeepsUsable` | frontend/src/components/MapboxBuildings.js:142-159 | the rows after a prefix keep every entry the prefix left usable |
| `MapboxBuildings.RerunServesPlacedRowsFromCache` | frontend/src/components/MapboxBuildings.js:82-88 | when the records the first run can write round-trip, reloading over the storage it left makes no request for the rows it placed |
| `MapboxBuildings.WarmRunIsOffline` | frontend/src/components/MapboxBuildings.js:130-164 | with a usable entry for every row, a run makes no request, writes nothing and places every cached center |
| `MapboxBuildings.MapView.GeocodeAddress` | frontend/src/components/MapboxBuildings.js:78-128 | the result and the new `localStorage` are those of the cached-geocode step from the old storage; markers are untouched |
| `MapboxBuildings.MapView.LoadMakerspaceMarkers` | frontend/src/components/MapboxBuildings.js:130-164 | the storage and the markers become those of the run over the valid rows, and it pauses max(n-1, 0) times |
| `MapboxBuildings.MapView.PlaceMarkers` | frontend/src/components/MapboxBuildings.js:142-159 | the loop leaves the storage and markers of the run over the rows, and pauses between rows but not after the last |
| `MakerspaceSearch.FilterMakerspaces` | frontend/src/components/MakerspaceSearch.js:8-27 | the result is no longer than the list and holds only makerspaces kept for the term |
| `MakerspaceSearch.FilterMakerspacesSpec` | frontend/src/components/MakerspaceSearch.js:8-27 | the result is an order-preserving subsequence holding each kept makerspace as often as the input and no other, at most as long as the input, and the input itself for an empty term |
| `MakerspaceSearch.ShownIffKept` | frontend/src/components/MakerspaceSearch.js:12-21 | a makerspace is shown exactly when the lower-cased term occurs in one of its five lower-cased fields, or the term is empty |
| `MakerspaceSearch.NoPropertiesNeverShown` | frontend/src/components/MakerspaceSearch.js:16-20 | a makerspace with all five fields missing is never shown for a non-empty term |
| `MakerspaceSearch.TermCaseIgnored` | frontend/src/components/MakerspaceSearch.js:12 | terms that lower-case alike give the same result |
| `MakerspaceSearch.FieldCaseIgnored` | frontend/src/components/MakerspaceSearch.js:12-20 | a field containing the term spelled in any case (any text that lower-cases like the term) matches |
| `MakerspaceSearch.ClearSearch` | frontend/src/components/MakerspaceSearch.js:33-35 | clearing empties the search term; `ClearSearchShowsAll` states what is then shown |
| `MakerspaceSearch.ClearSearchShowsAll` | frontend/src/components/MakerspaceSearch.js:33-35 | after clearing the term, the whole list is shown |
| `LocationSchema.Validate` | backend/models/Location.js:3-31 | a document is accepted exactly when name and description are non-empty strings, the point type is absent or "Point", and the coordinate list is present; accepted documents are valid, with type "Point", category "general" and creation time now filled in where absent |
| `LocationSchema.Violations` | backend/models/Location.js:3-31 | the set of schema paths whose validator rejects the document; `Validate` and `RefusalNamesViolations` state when each is present |
| `LocationSchema.RefusalNamesViolations` | backend/models/Location.js:4-21 | a refusal names exactly the paths whose rule is broken |
| `LocationSchema.ResaveKeepsValid` | backend/models/Location.js:3-31 | saving a valid stored location again accepts it unchanged |
| `LocationController.NewDoc` | backend/controllers/locationController.js:28-36 | the document built from the body: the point [longitude, latitude] of type "Point" and the category or "general" (stated in `CreateStoresPoint`) |
| `LocationController.CreateEffect` | backend/controllers/locationController.js:27-44 | creation answers 201 or 400 and adds at most the new id to the store |
| `LocationController.ApplyUpdate` | backend/controllers/locationController.js:54-62 | a truthy name, description or category is written, two truthy numbers replace the point with [longitude, latitude] of type "Point", the creation time is kept, and a valid document stays valid |
| `LocationController.UpdateEffect` | backend/controllers/locationController.js:47-69 | an update answers 200 for a present id and 404 otherwise, never adds or removes an id, stores the updated document under the id and replies with it, and leaves every other document as it was |
| `LocationController.DeleteEffect` | backend/controllers/locationController.js:72-84 | a delete answers 200 for a present id and 404 otherwise; afterwards the id is absent and no id was added |
| `LocationController.CreateStoresPoint` | backend/controllers/locationController.js:27-44 | creation answers 201 exactly when name and description are set, replying with the stored document; it holds the body's name and description, the point is [longitude, latitude] of type "Point", the category is the body's when truthy and "general" otherwise; otherwise it answers 400 and stores nothing |
| `LocationController.CreateKeepsOthers` | backend/controllers/locationController.js:28-40 | creation under a fresh id leaves every other document as it was |
| `LocationController.AbsentIdNotFound` | backend/controllers/locationController.js:47-85 | update and delete of an absent id answer 404 and change nothing |
| `LocationController.UpdateKeepsValid` | backend/controllers/locationController.js:54-65 | an update keeps a valid document valid, so saving it succeeds |
| `LocationController.FalsyValuesIgnored` | backend/controllers/locationController.js:54-62 | a falsy body value leaves its field unchanged (an empty string cannot clear a field, a zero coordinate keeps the point), and creation time never changes |
| `LocationController.UpdateIdempotent` | backend/controllers/locationController.js:54-62 | applying the same update twice equals applying it once |
| `LocationController.DeleteRemovesExactly` | backend/controllers/locationController.js:73-80 | deleting a present id removes exactly that document, and a second delete answers 404 |
| `LocationController.LocationStore.GetAllLocations` | backend/controllers/locationController.js:4-11 | the answer is 200 with every stored document |
| `LocationController.LocationStore.GetLocationById` | backend/controllers/locationController.js:14-24 | the answer is 200 with the document, or 404 "Location not found" for an absent id |
| `LocationController.LocationStore.CreateLocation` | backend/controllers/locationController.js:27-44 | the response and store are those of the create step under the next fresh id, which is never in use; the store stays valid |
| `LocationController.LocationStore.UpdateLocation` | backend/controllers/locationController.js:47-69 | the field-by-field update in place yields the response and store of the update step; the store stays valid |
| `LocationController.LocationStore.DeleteLocation` | backend/controllers/locationController.js:72-84 | the response and store are those of the delete step; the store stays valid |
| `LocationForm.WithField` | client/src/components/LocationForm.js:13-19 | the changed input takes the new value and every other input keeps its value |
| `LocationForm.Submit` | client/src/components/LocationForm.js:21-49 | a submission always carries a latitude in [-90, 90] and a longitude in [-180, 180]; a refusal is one of the three messages |
| `LocationForm.SubmitVerdicts` | client/src/components/LocationForm.js:21-49 | each message is given exactly when its check is the first to fail (NaN, then latitude in [-90, 90], then longitude in [-180, 180]); a submission happens exactly when all pass, with the parsed numbers and the other inputs as typed |
| `LocationForm.BoundsInclusive` | client/src/components/LocationForm.js:33-41 | latitudes ±90 and longitudes ±180 are accepted |
| `LocationForm.LocationFormState.constructor` | client/src/components/LocationForm.js:5-11 | the form starts with empty inputs and category "general" |
| `LocationForm.LocationFormState.HandleChange` | client/src/components/LocationForm.js:13-19 | only the named input changes |
| `LocationForm.LocationFormState.HandleSubmit` | client/src/components/LocationForm.js:21-59 | a failed check shows its message and keeps the form; a pass hands the location on once and resets the form to its initial inputs |

## Left out

- HTTP calls to the Mapbox geocoder are an oracle from the query text to an answer. The URL encoding, the access token, `limit`, `proximity` and `country` are not modelled. A malformed response body is treated like an error, and a body without `features` like an empty answer.
- Reading the dataset file, writing the output file, `fs.statSync` and all console output are left out. The script's top-level catch only logs.
- Time: the script's `generated` timestamp is a parameter. The front end's cache timestamp is hidden inside the abstract `stringify`. The schema's `Date.now` is a parameter `now`. The pauses (200 ms in the script, 150 ms in the front end) are counted, not timed.
- `async`/`await` is left out. Both loops issue one request at a time, so they are ordinary sequential loops.
- MapboxBuildings.CachedGeocode / SecondCallIsCached / RunCachesSuccesses / RerunServesPlacedRowsFromCache: that a written entry reads back is a hypothesis on each record written (`RoundTripsFor`), not proved. The codec is abstract, and centers are reals rather than the doubles JSON round-trips.
- `JSON.parse` and `JSON.stringify` are an abstract codec. A `localStorage.setItem` that throws (quota exceeded) would make the front end's call return null, and that case is not modelled.
- Centers are modelled as pairs of reals. The script destructures only the first two numbers, and the front end passes the center array on as it is. A center that is not a two-number array is not modelled, and neither are floating-point, NaN or Infinity.
- `parseFloat` is a parameter `string -> Option<real>`; its parsing of prefixes, exponents and `Infinity` is not modelled.
- `toLowerCase` covers Basic Latin and Latin-1 capitals only; other Unicode case mappings are not modelled.
- LocationController.CreateStoresPoint / LocationController.LocationStore.UpdateLocation: null or out-of-range coordinates are accepted and stored here. The real database refuses them because of the 2dsphere index on `coordinates`, and the controller then answers 400.
- Mongoose persistence is left out: ObjectId generation, the 2dsphere index, cast errors on malformed ids or non-numeric values, and the 500 answers for database failures. Ids are natural numbers from a counter, and `find()` returns the stored map with no order.
- LocationController.LocationStore.UpdateLocation: there is no 400 path. A valid stored document stays valid after any update (`UpdateKeepsValid`), and cast errors are not modelled.
- MapboxBuildings.RowStep: a row without an address gets an empty step (no coordinates, storage unchanged, no request) rather than the call `geocodeAddress(undefined, …)` would make; only rows that passed the filter, which always have an address, reach it.
- StaticGeoJson.RowLocation: a row without an address yields `None` without calling the geocoder, rather than what `geocodeAddress(undefined, …)` would do; only rows with an address reach it, as above.
- Map initialisation, the 3D buildings layer, popups, marker styling and the React effects that publish the search result are UI and are not modelled.
