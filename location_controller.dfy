/**
 * The REST controller for locations: list, read, create, update and delete
 * over the stored `Location` documents, with the status codes it answers.
 */
module LocationController {
  import opened Wrappers
  import opened Dataset
  import opened LocationSchema

  /** A document id; the store hands out fresh ones from a counter. */
  type Id = nat

  const NotFoundMessage := "Location not found"
  const DeletedMessage := "Location deleted successfully"

  /** The request body fields the controller reads; `None` where the body lacks one. */
  datatype RequestBody = RequestBody(
    name: Option<string>,
    description: Option<string>,
    category: Option<string>,
    longitude: Option<real>,
    latitude: Option<real>)

  /** JavaScript truthiness of an optional number: present and not zero. */
  predicate TruthyNumber(v: Option<real>) {
    v.Some? && v.value != 0.0
  }

  /** The JSON a handler sends. */
  datatype Reply =
    | Listing(locations: map<Id, Location>)
    | Found(id: Id, location: Location)
    | Message(text: string)
    | Rejected(errors: set<SchemaPath>)

  datatype Response = Response(status: int, reply: Reply)

  /** The response and the stored documents after a request. */
  datatype Effect = Effect(response: Response, locations: map<Id, Location>)

  /** The document `createLocation` builds: a point at [longitude, latitude], category "general" unless one is given. */
  function NewDoc(body: RequestBody): LocationDoc {
    LocationDoc(
      body.name,
      body.description,
      Some(PointType),
      Some([body.longitude, body.latitude]),
      Some(if Truthy(body.category) then body.category.value else DefaultCategory),
      None)
  }

  /** `createLocation`: store the new document under `id` and answer 201, or answer 400 with the violated paths. */
  function CreateEffect(locations: map<Id, Location>, id: Id, body: RequestBody, now: int): (effect: Effect)
    ensures effect.response.status == 201 || effect.response.status == 400
    ensures effect.locations.Keys <= locations.Keys + {id}
  {
    match Validate(NewDoc(body), now)
    case Success(loc) => Effect(Response(201, Found(id, loc)), locations[id := loc])
    case Failure(errors) => Effect(Response(400, Rejected(errors)), locations)
  }

  /** The document after `updateLocation` copied the truthy fields of the body into it. */
  function ApplyUpdate(loc: Location, body: RequestBody): (updated: Location)
    ensures Truthy(body.name) ==> updated.name == body.name.value
    ensures Truthy(body.description) ==> updated.description == body.description.value
    ensures Truthy(body.category) ==> updated.category == body.category.value
    ensures TruthyNumber(body.longitude) && TruthyNumber(body.latitude) ==>
      updated.coordinates == GeoPoint(PointType, [body.longitude, body.latitude])
    ensures updated.createdAt == loc.createdAt
    ensures ValidLocation(loc) ==> ValidLocation(updated)
  {
    Location(
      if Truthy(body.name) then body.name.value else loc.name,
      if Truthy(body.description) then body.description.value else loc.description,
      if TruthyNumber(body.longitude) && TruthyNumber(body.latitude) then
        GeoPoint(PointType, [body.longitude, body.latitude])
      else loc.coordinates,
      if Truthy(body.category) then body.category.value else loc.category,
      loc.createdAt)
  }

  /** `updateLocation`: 404 for an absent id, otherwise the updated document, saved. */
  function UpdateEffect(locations: map<Id, Location>, id: Id, body: RequestBody): (effect: Effect)
    ensures effect.locations.Keys == locations.Keys
    ensures effect.response.status == (if id in locations then 200 else 404)
    ensures id in locations ==>
      effect.locations[id] == ApplyUpdate(locations[id], body) && effect.response.reply == Found(id, effect.locations[id])
    ensures forall other :: other in locations && other != id ==> effect.locations[other] == locations[other]
  {
    if id !in locations then Effect(Response(404, Message(NotFoundMessage)), locations)
    else
      var updated := ApplyUpdate(locations[id], body);
      Effect(Response(200, Found(id, updated)), locations[id := updated])
  }

  /** `deleteLocation`: 404 for an absent id, otherwise the document is removed. */
  function DeleteEffect(locations: map<Id, Location>, id: Id): (effect: Effect)
    ensures id !in effect.locations && effect.locations.Keys <= locations.Keys
    ensures effect.response.status == (if id in locations then 200 else 404)
  {
    if id !in locations then Effect(Response(404, Message(NotFoundMessage)), locations)
    else Effect(Response(200, Message(DeletedMessage)), locations - {id})
  }

  /**
   * Creation answers 201 exactly when the body has a name and a description,
   * and replies with the stored document. That document holds the body's name
   * and description and the point [longitude, latitude] of type "Point". Its
   * category is the body's when truthy and "general" otherwise, and its time
   * is `now`.
   */
  lemma CreateStoresPoint(locations: map<Id, Location>, id: Id, body: RequestBody, now: int)
    ensures var effect := CreateEffect(locations, id, body, now);
      && (effect.response.status == 201 <==> Truthy(body.name) && Truthy(body.description))
      && (effect.response.status == 201 ==>
            && id in effect.locations
            && effect.locations[id].coordinates == GeoPoint(PointType, [body.longitude, body.latitude])
            && effect.locations[id].category == (if Truthy(body.category) then body.category.value else DefaultCategory)
            && effect.locations[id].name == body.name.value
            && effect.locations[id].description == body.description.value
            && effect.response.reply == Found(id, effect.locations[id])
            && effect.locations[id].createdAt == now
            && ValidLocation(effect.locations[id]))
      && (effect.response.status != 201 ==> effect.response.status == 400 && effect.locations == locations)
  {
  }

  /** A created document takes a fresh id and leaves every other document as it was. */
  lemma CreateKeepsOthers(locations: map<Id, Location>, id: Id, body: RequestBody, now: int)
    requires id !in locations
    ensures var after := CreateEffect(locations, id, body, now).locations;
      && locations.Keys <= after.Keys
      && (forall other :: other in locations ==> after[other] == locations[other])
      && after.Keys - locations.Keys <= {id}
  {
  }

  /** Update and delete of an absent id answer 404 and change nothing; `GetLocationById` states the same for a read. */
  lemma AbsentIdNotFound(locations: map<Id, Location>, id: Id, body: RequestBody)
    requires id !in locations
    ensures UpdateEffect(locations, id, body) == Effect(Response(404, Message(NotFoundMessage)), locations)
    ensures DeleteEffect(locations, id) == Effect(Response(404, Message(NotFoundMessage)), locations)
  {
  }

  /** An update keeps a stored document valid, so saving it never fails. */
  lemma UpdateKeepsValid(loc: Location, body: RequestBody, now: int)
    requires ValidLocation(loc)
    ensures ValidLocation(ApplyUpdate(loc, body))
    ensures Validate(AsDoc(ApplyUpdate(loc, body)), now) == Success(ApplyUpdate(loc, body))
  {
    ResaveKeepsValid(ApplyUpdate(loc, body), now);
  }

  /**
   * Falsy body values change nothing: an empty string cannot clear a field,
   * and a zero or missing coordinate keeps the stored point.
   */
  lemma FalsyValuesIgnored(loc: Location, body: RequestBody)
    ensures !Truthy(body.name) ==> ApplyUpdate(loc, body).name == loc.name
    ensures !Truthy(body.description) ==> ApplyUpdate(loc, body).description == loc.description
    ensures !Truthy(body.category) ==> ApplyUpdate(loc, body).category == loc.category
    ensures !(TruthyNumber(body.longitude) && TruthyNumber(body.latitude)) ==>
      ApplyUpdate(loc, body).coordinates == loc.coordinates
    ensures ApplyUpdate(loc, body).createdAt == loc.createdAt
    ensures !Truthy(body.name) && !Truthy(body.description) && !Truthy(body.category) && !TruthyNumber(body.latitude) ==>
      ApplyUpdate(loc, body) == loc
  {
  }

  /** Sending the same update twice is the same as sending it once. */
  lemma UpdateIdempotent(loc: Location, body: RequestBody)
    ensures ApplyUpdate(ApplyUpdate(loc, body), body) == ApplyUpdate(loc, body)
  {
  }

  /** Deleting a present id removes exactly that document; deleting it again answers 404. */
  lemma DeleteRemovesExactly(locations: map<Id, Location>, id: Id)
    requires id in locations
    ensures var after := DeleteEffect(locations, id).locations;
      && after.Keys == locations.Keys - {id}
      && (forall other :: other in after ==> after[other] == locations[other])
      && DeleteEffect(after, id).response.status == 404
  {
  }

  /** The stored documents, with the counter that hands out ids. */
  class LocationStore {
    var locations: map<Id, Location>
    var nextId: Id

    /** Every stored document is valid and every id in use is below the counter. */
    ghost predicate Valid()
      reads this
    {
      forall id :: id in locations ==> id < nextId && ValidLocation(locations[id])
    }

    constructor()
      ensures locations == map[] && nextId == 0 && Valid()
    {
      locations := map[];
      nextId := 0;
    }

    /** `getAllLocations`: every stored document. */
    method GetAllLocations() returns (response: Response)
      ensures response.status == 200 && response.reply == Listing(locations)
    {
      response := Response(200, Listing(locations));
    }

    /** `getLocationById`: the document, or 404 for an absent id. */
    method GetLocationById(id: Id) returns (response: Response)
      ensures id in locations ==> response == Response(200, Found(id, locations[id]))
      ensures id !in locations ==> response == Response(404, Message(NotFoundMessage))
    {
      if id !in locations {
        return Response(404, Message(NotFoundMessage));
      }
      response := Response(200, Found(id, locations[id]));
    }

    /** `createLocation`, storing under the next fresh id. */
    method CreateLocation(body: RequestBody, now: int) returns (response: Response)
      requires Valid()
      modifies this
      ensures Valid()
      ensures var effect := CreateEffect(old(locations), old(nextId), body, now);
        response == effect.response && locations == effect.locations
      ensures nextId == if response.status == 201 then old(nextId) + 1 else old(nextId)
      ensures old(nextId) !in old(locations)
    {
      var location := NewDoc(body);
      var saved := Validate(location, now);
      match saved {
        case Success(newLocation) =>
          locations := locations[nextId := newLocation];
          response := Response(201, Found(nextId, newLocation));
          nextId := nextId + 1;
        case Failure(errors) =>
          response := Response(400, Rejected(errors));
      }
    }

    /** `updateLocation`: copy the truthy body fields into the stored document, field by field, and save it. */
    method UpdateLocation(id: Id, body: RequestBody, now: int) returns (response: Response)
      requires Valid()
      modifies this
      ensures Valid() && nextId == old(nextId)
      ensures var effect := UpdateEffect(old(locations), id, body);
        response == effect.response && locations == effect.locations
    {
      if id !in locations {
        return Response(404, Message(NotFoundMessage));
      }
      var location := locations[id];
      if Truthy(body.name) {
        location := location.(name := body.name.value);
      }
      if Truthy(body.description) {
        location := location.(description := body.description.value);
      }
      if Truthy(body.category) {
        location := location.(category := body.category.value);
      }
      if TruthyNumber(body.longitude) && TruthyNumber(body.latitude) {
        location := location.(coordinates := GeoPoint(PointType, [body.longitude, body.latitude]));
      }
      assert location == ApplyUpdate(locations[id], body);
      UpdateKeepsValid(locations[id], body, now);
      var updatedLocation := Validate(AsDoc(location), now).value;
      locations := locations[id := updatedLocation];
      response := Response(200, Found(id, updatedLocation));
    }

    /** `deleteLocation`: remove the document, or 404 for an absent id. */
    method DeleteLocation(id: Id) returns (response: Response)
      requires Valid()
      modifies this
      ensures Valid() && nextId == old(nextId)
      ensures var effect := DeleteEffect(old(locations), id);
        response == effect.response && locations == effect.locations
    {
      if id !in locations {
        return Response(404, Message(NotFoundMessage));
      }
      locations := locations - {id};
      response := Response(200, Message(DeletedMessage));
    }
  }
}
