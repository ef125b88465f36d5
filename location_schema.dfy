/**
 * The `Location` document schema of the REST back end: two required strings,
 * a GeoJSON point whose type may only be "Point", a category and a creation
 * time, with the schema's defaults.
 */
module LocationSchema {
  import opened Wrappers
  import opened Dataset

  const PointType := "Point"
  const DefaultCategory := "general"

  /** A GeoJSON point as stored: its type and its numbers; a number the request left out is stored as null (`None`). */
  datatype GeoPoint = GeoPoint(kind: string, coordinates: seq<Option<real>>)

  /** A stored location, every default filled in; `createdAt` is a time in milliseconds. */
  datatype Location = Location(
    name: string,
    description: string,
    coordinates: GeoPoint,
    category: string,
    createdAt: int)

  /** A document as handed to the model before validation; `None` where a path is not set. */
  datatype LocationDoc = LocationDoc(
    name: Option<string>,
    description: Option<string>,
    pointType: Option<string>,
    coordinates: Option<seq<Option<real>>>,
    category: Option<string>,
    createdAt: Option<int>)

  /** The schema paths a validation error can name. */
  datatype SchemaPath = NamePath | DescriptionPath | PointTypePath | CoordinatesPath

  /** A required string is set and not empty. */
  predicate RequiredString(v: Option<string>) {
    Truthy(v)
  }

  /** The paths whose validator rejects the document: the required ones, and the enum. */
  function Violations(doc: LocationDoc): set<SchemaPath> {
    (if RequiredString(doc.name) then {} else {NamePath})
    + (if RequiredString(doc.description) then {} else {DescriptionPath})
    + (if doc.pointType.None? || doc.pointType.value == PointType then {} else {PointTypePath})
    + (if doc.coordinates.Some? then {} else {CoordinatesPath})
  }

  /** What every stored location satisfies. */
  predicate ValidLocation(loc: Location) {
    loc.name != "" && loc.description != "" && loc.coordinates.kind == PointType
  }

  /**
   * Saving a document: refused with the violated paths, or stored with the
   * defaults filled in: type "Point", category "general", creation time `now`.
   */
  function Validate(doc: LocationDoc, now: int): (r: Result<Location, set<SchemaPath>>)
    ensures r.Success? <==>
      && RequiredString(doc.name) && RequiredString(doc.description)
      && (doc.pointType.None? || doc.pointType.value == PointType)
      && doc.coordinates.Some?
    ensures r.Success? ==> ValidLocation(r.value)
    ensures r.Success? ==>
      && r.value.name == doc.name.value && r.value.description == doc.description.value
      && r.value.coordinates == GeoPoint(PointType, doc.coordinates.value)
      && r.value.category == doc.category.GetOr(DefaultCategory)
      && r.value.createdAt == doc.createdAt.GetOr(now)
    ensures r.Failure? ==> r.error != {}
  {
    var errors := Violations(doc);
    if errors == {} then
      Success(Location(
        doc.name.value,
        doc.description.value,
        GeoPoint(doc.pointType.GetOr(PointType), doc.coordinates.value),
        doc.category.GetOr(DefaultCategory),
        doc.createdAt.GetOr(now)))
    else
      Failure(errors)
  }

  /** A refusal names exactly the paths whose rule the document breaks. */
  lemma RefusalNamesViolations(doc: LocationDoc, now: int)
    requires Validate(doc, now).Failure?
    ensures NamePath in Validate(doc, now).error <==> !RequiredString(doc.name)
    ensures DescriptionPath in Validate(doc, now).error <==> !RequiredString(doc.description)
    ensures PointTypePath in Validate(doc, now).error <==> doc.pointType.Some? && doc.pointType.value != PointType
    ensures CoordinatesPath in Validate(doc, now).error <==> doc.coordinates.None?
  {
  }

  /** A stored location, seen as a document with every path set. */
  function AsDoc(loc: Location): LocationDoc {
    LocationDoc(
      Some(loc.name), Some(loc.description), Some(loc.coordinates.kind),
      Some(loc.coordinates.coordinates), Some(loc.category), Some(loc.createdAt))
  }

  /** Saving a valid location again stores it unchanged, whatever the time. */
  lemma ResaveKeepsValid(loc: Location, now: int)
    requires ValidLocation(loc)
    ensures Validate(AsDoc(loc), now) == Success(loc)
  {
  }
}
