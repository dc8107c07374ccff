/** The platform HTTP handlers: each turns a request into a service call and
    the service's answer into a status and a JSON body. */
module PlatformController {
  import opened Wrappers
  import opened ObjectIds
  import opened DocumentStore
  import opened Validation
  import opened Http
  import opened PlatformModel
  import opened ServiceCommon
  import ValidatorMiddleware
  import PlatformService

  /** The `switch err` of the handlers: the id and no-data sentinels are bad
      requests, not-found is 404, anything else is a 500 with the handler's
      own text. */
  function ErrorReply(e: Error, fallback: string): (r: Response<Platform>)
    ensures e == Sentinel(ErrInvalidID) ==> r == Fail(400, "Invalid platform ID")
    ensures e == Sentinel(ErrNoUpdateData) ==> r == Fail(400, "At least one field (name or manufacturer) must be provided for update")
    ensures e == Sentinel(ErrPlatformNotFound) ==> r == Fail(404, "Platform not found")
    ensures e !in {Sentinel(ErrInvalidID), Sentinel(ErrNoUpdateData), Sentinel(ErrPlatformNotFound)} ==> r == Fail(500, fallback)
  {
    if e == Sentinel(ErrInvalidID) then Fail(400, "Invalid platform ID")
    else if e == Sentinel(ErrNoUpdateData) then Fail(400, "At least one field (name or manufacturer) must be provided for update")
    else if e == Sentinel(ErrPlatformNotFound) then Fail(404, "Platform not found")
    else Fail(500, fallback)
  }

  method GetPlatforms(c: Collection, name: string, m: Matcher) returns (r: Response<Platform>)
    ensures var keys := MatchingKeys(c, NameFilter("name", name), m);
      && (r.status == 200 <==> forall k :: k in keys ==> Decode(c[k]).Some?)
      && (r.status != 200 ==> r == Fail(500, "Failed to fetch platforms"))
      && (r.status == 200 ==> r.body.Entities? && |r.body.items| == |keys|
                              && (forall p :: p in r.body.items ==> exists k :: k in keys && Decode(c[k]) == Some(p))
                              && (forall k :: k in keys ==> Decode(c[k]).value in r.body.items))
  {
    var found := PlatformService.GetPlatforms(c, name, m);
    r := if found.Success? then Response(200, Entities(found.value)) else Fail(500, "Failed to fetch platforms");
  }

  function GetPlatformByID(c: Collection, id: string): (r: Response<Platform>)
    ensures r.status == 400 <==> !IsObjectIdHex(id)
    ensures r.status == 400 ==> r == Fail(400, "Invalid platform ID")
    ensures r.status == 404 <==> IsObjectIdHex(id) && ParseObjectId(id).value !in c
    ensures r.status == 404 ==> r == Fail(404, "Platform not found")
    ensures r.status == 200 <==> IsObjectIdHex(id) && ParseObjectId(id).value in c && Decode(c[ParseObjectId(id).value]).Some?
    ensures r.status == 200 ==> r.body == Entity(Decode(c[ParseObjectId(id).value]).value)
    ensures r.status !in {200, 400, 404} ==> r == Fail(500, "Failed to fetch platform")
  {
    match PlatformService.GetPlatformByID(c, id)
    case Success(p) => Response(200, Entity(p))
    case Failure(e) => ErrorReply(e, "Failed to fetch platform")
  }

  /** Parse, validate, then create: the service stamps id and timestamps, so
      whatever the client sent for them is replaced. */
  function CreatePlatform(c: Collection, body: Option<Platform>, newId: FreshId, now: int): (r: (Collection, Response<Platform>))
    ensures body.None? ==> r == (c, Fail(400, "Invalid request body"))
    ensures body.Some? && !Valid(body.value) ==>
      r == (c, ValidatorMiddleware.ErrorHandler(ValidationErrors(Validate(body.value)))) && r.1.status == 400
    ensures body.Some? && Valid(body.value) && newId in c ==> r == (c, Fail(500, "Failed to create platform"))
    ensures body.Some? && Valid(body.value) && newId !in c ==>
      && r.1 == Response(201, Entity(body.value.(id := newId, createdAt := now, updatedAt := now)))
      && r.0.Keys == c.Keys + {newId}
      && Decode(r.0[newId]) == Some(r.1.body.item)
    ensures r.1.status == 201 || r.0 == c
  {
    match body
    case None => (c, Fail(400, "Invalid request body"))
    case Some(p) =>
      match ValidatorMiddleware.StructError(Validate(p))
      case Some(err) => (c, ValidatorMiddleware.ErrorHandler(err))
      case None =>
        match PlatformService.CreatePlatform(c, p, newId, now)
        case Failure(_) => (c, Fail(500, "Failed to create platform"))
        case Success((c', stored)) => (c', Response(201, Entity(stored)))
  }

  /** Parse and validate the partial update before the id is looked at. */
  function UpdatePlatform(c: Collection, id: string, body: Option<PlatformUpdate>, now: int): (r: (Collection, Response<Platform>))
    ensures body.None? ==> r == (c, Fail(400, "Invalid request body"))
    ensures body.Some? && !ValidUpdate(body.value) ==>
      r == (c, ValidatorMiddleware.ErrorHandler(ValidationErrors(ValidateUpdate(body.value)))) && r.1.status == 400
    ensures body.Some? && ValidUpdate(body.value) ==>
      var (c', s) := PlatformService.UpdatePlatform(c, id, body.value, now);
      && r.0 == c'
      && (s.Success? ==> r.1 == Response(200, Entity(s.value)))
      && (s.Failure? ==> r.1 == ErrorReply(s.error, "Failed to update platform"))
    ensures r.1.status in {200, 400, 404, 500}
  {
    match body
    case None => (c, Fail(400, "Invalid request body"))
    case Some(u) =>
      match ValidatorMiddleware.StructError(ValidateUpdate(u))
      case Some(err) => (c, ValidatorMiddleware.ErrorHandler(err))
      case None =>
        var (c', s) := PlatformService.UpdatePlatform(c, id, u, now);
        match s
        case Success(p) => (c', Response(200, Entity(p)))
        case Failure(e) => (c', ErrorReply(e, "Failed to update platform"))
  }

  /** The only delete handler that wraps the removed record in an envelope. */
  function DeletePlatform(c: Collection, id: string): (r: (Collection, Response<Platform>))
    ensures r.1.status == 400 <==> !IsObjectIdHex(id)
    ensures r.1.status == 400 ==> r == (c, Fail(400, "Invalid platform ID"))
    ensures IsObjectIdHex(id) ==> r.0 == c - {ParseObjectId(id).value}
    ensures r.1.status == 404 <==> IsObjectIdHex(id) && ParseObjectId(id).value !in c
    ensures r.1.status == 404 ==> r.1 == Fail(404, "Platform not found")
    ensures r.1.status == 200 <==> IsObjectIdHex(id) && ParseObjectId(id).value in c && Decode(c[ParseObjectId(id).value]).Some?
    ensures r.1.status == 200 ==> r.1.body == Deleted("Platform deleted successfully", Decode(c[ParseObjectId(id).value]).value)
    ensures r.1.status !in {200, 400, 404} ==> r.1 == Fail(500, "Failed to delete platform")
  {
    var (c', s) := PlatformService.DeletePlatform(c, id);
    match s
    case Success(p) => (c', Response(200, Deleted("Platform deleted successfully", p)))
    case Failure(e) => (c', ErrorReply(e, "Failed to delete platform"))
  }

  /** A 201 from create is followed by a 200 for the new id with the same body. */
  lemma {:induction false} CreatedIsFetchable(c: Collection, body: Option<Platform>, newId: FreshId, now: int)
    requires CreatePlatform(c, body, newId, now).1.status == 201
    ensures var (c', r) := CreatePlatform(c, body, newId, now);
      GetPlatformByID(c', Hex(newId)) == Response(200, r.body)
  {
    PlatformService.CreateThenGet(c, body.value, newId, now);
  }

  /** Validation comes first: a bad field is reported even when the id in
      the path is malformed as well. */
  lemma {:induction false} ValidationBeforeId(c: Collection, id: string, now: int)
    requires !IsObjectIdHex(id)
    ensures var r := UpdatePlatform(c, id, Some(PlatformUpdate(Some("x"), None)), now).1;
      r.status == 400 && r.body.error.message == "Validation failed"
  {
  }

  /** With a valid body, a malformed id wins over an empty update. */
  lemma {:induction false} IdBeforeEmptiness(c: Collection, id: string, now: int)
    requires !IsObjectIdHex(id)
    ensures UpdatePlatform(c, id, Some(PlatformUpdate(None, None)), now).1 == Fail(400, "Invalid platform ID")
  {
  }
}
