/**
 * The makerspace dataset both geocoding pipelines read, and the answer of the
 * Mapbox places-search endpoint they call.
 */
module Dataset {
  import opened Wrappers
  import opened Text
  import Sequences

  /**
   * One row of the dataset. Each field is `None` where the row has no such key;
   * `r` is the display name, the others carry the dataset's column names.
   */
  datatype RawRecord = RawRecord(
    r: Option<string>,
    address: Option<string>,
    postalCode: Option<string>,
    generalCategory: Option<string>,
    primaryAccessModels: Option<string>,
    skillsRequired: Option<string>,
    phoneNumber: Option<string>,
    emailAddress: Option<string>,
    link: Option<string>,
    notes: Option<string>)

  /** JavaScript truthiness of an optional string: present and not empty. */
  predicate Truthy(v: Option<string>) {
    v.Some? && v.value != ""
  }

  /** The value is truthy and still not empty once trimmed. */
  predicate HasText(v: Option<string>) {
    Truthy(v) && Trim(v.value) != ""
  }

  /** A row worth geocoding: it has a name and an address that are not blank. */
  predicate IsListed(m: RawRecord) {
    HasText(m.r) && HasText(m.address)
  }

  predicate AllListed(ms: seq<RawRecord>) {
    forall i :: 0 <= i < |ms| ==> IsListed(ms[i])
  }

  /** The row has a name and an address to read; every listed row has both. */
  predicate Named(m: RawRecord) {
    m.r.Some? && m.address.Some?
  }

  predicate AllNamed(rows: seq<RawRecord>) {
    forall i :: 0 <= i < |rows| ==> Named(rows[i])
  }

  /** Every row that passed the filter has a name and an address. */
  lemma ListedAreNamed(rows: seq<RawRecord>)
    requires AllListed(rows)
    ensures AllNamed(rows)
  {
  }

  /** The rows kept for geocoding: those with a name and an address that are not blank, in order. */
  function ValidRecords(ms: seq<RawRecord>): (valid: seq<RawRecord>)
    ensures AllListed(valid) && |valid| <= |ms|
  {
    Sequences.Filter(IsListed, ms)
  }

  /** A row is listed exactly when its name and its address hold a character that is not whitespace. */
  lemma ListedIffNotBlank(m: RawRecord)
    ensures IsListed(m) <==> m.r.Some? && !IsBlank(m.r.value) && m.address.Some? && !IsBlank(m.address.value)
  {
    if m.r.Some? {
      TrimEmptyIffBlank(m.r.value);
    }
    if m.address.Some? {
      TrimEmptyIffBlank(m.address.value);
    }
  }

  /**
   * The valid list is exactly the listed rows, each as often as in the input,
   * in the input's order.
   */
  lemma ValidRecordsExact(ms: seq<RawRecord>)
    ensures AllListed(ValidRecords(ms))
    ensures Sequences.IsSubsequence(ValidRecords(ms), ms)
    ensures forall m :: multiset(ValidRecords(ms))[m] == if IsListed(m) then multiset(ms)[m] else 0
  {
    Sequences.FilterIsSubsequence(IsListed, ms);
    Sequences.FilterMultiplicity(IsListed, ms);
  }

  /** A longitude/latitude pair, the `center` of a geocoding result. */
  datatype Position = Position(lng: real, lat: real)

  /** The coordinate array of a position, longitude first (section 3.1.1 of RFC 7946). */
  function Coordinates(p: Position): (c: seq<real>)
    ensures |c| == 2 && c[0] == p.lng && c[1] == p.lat
  {
    [p.lng, p.lat]
  }

  /**
   * What one request to the geocoding endpoint yields: a transport failure, an
   * HTTP error status, or the `center` of each returned feature, best first
   * (a body without `features` is an empty list).
   */
  datatype GeoResponse = NetworkError | HttpError(status: int) | Answer(centers: seq<Position>)

  /** The center of the first result, or `None` for an error or an empty answer. */
  function FirstCenter(response: GeoResponse): (r: Option<Position>)
    ensures r.Some? <==> response.Answer? && |response.centers| > 0
    ensures r.Some? ==> r.value == response.centers[0]
  {
    match response
    case Answer(centers) => if |centers| > 0 then Some(centers[0]) else None
    case _ => None
  }

  /** The region appended to every geocoding query. */
  const RegionSuffix := ", Ontario, Canada"
}
