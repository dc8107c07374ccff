/** The developer HTTP handlers: each turns a request into a service call and
    the service's answer into a status and a JSON body. */
module DeveloperController {
  import opened Wrappers
  import opened ObjectIds
  import opened DocumentStore
  import opened Validation
  import opened Http
  import opened DeveloperModel
  import opened ServiceCommon
  import ValidatorMiddleware
  import DeveloperService

  /** The `switch err` of the handlers: the id and no-data sentinels are bad
      requests, not-found is 404, anything else is a 500 with the handler's
      own text. */
  function ErrorReply(e: Error, fallback: string): (r: Response<Developer>)
    ensures e == Sentinel(ErrInvalidDeveloperID) ==> r == Fail(400, "Invalid developer ID")
    ensures e == Sentinel(ErrNoDeveloperUpdateData) ==> r == Fail(400, "At least one field must be provided for update")
    ensures e == Sentinel(ErrDeveloperNotFound) ==> r == Fail(404, "Developer not found")
    ensures e !in {Sentinel(ErrInvalidDeveloperID), Sentinel(ErrNoDeveloperUpdateData), Sentinel(ErrDeveloperNotFound)} ==> r == Fail(500, fallback)
  {
    if e == Sentinel(ErrInvalidDeveloperID) then Fail(400, "Invalid developer ID")
    else if e == Sentinel(ErrNoDeveloperUpdateData) then Fail(400, "At least one field must be provided for update")
    else if e == Sentinel(ErrDeveloperNotFound) then Fail(404, "Developer not found")
    else Fail(500, fallback)
  }

  method GetDevelopers(c: Collection, name: string, m: Matcher) returns (r: Response<Developer>)
    ensures var keys := MatchingKeys(c, NameFilter("name", name), m);
      && (r.status == 200 <==> forall k :: k in keys ==> Decode(c[k]).Some?)
      && (r.status != 200 ==> r == Fail(500, "Failed to fetch developers"))
      && (r.status == 200 ==> r.body.Entities? && |r.body.items| == |keys|
                              && (forall x :: x in r.body.items ==> exists k :: k in keys && Decode(c[k]) == Some(x))
                              && (forall k :: k in keys ==> Decode(c[k]).value in r.body.items))
  {
    var found := DeveloperService.GetDevelopers(c, name, m);
    r := if found.Success? then Response(200, Entities(found.value)) else Fail(500, "Failed to fetch developers");
  }

  function GetDeveloperByID(c: Collection, id: string): (r: Response<Developer>)
    ensures r.status == 400 <==> !IsObjectIdHex(id)
    ensures r.status == 400 ==> r == Fail(400, "Invalid developer ID")
    ensures r.status == 404 <==> IsObjectIdHex(id) && ParseObjectId(id).value !in c
    ensures r.status == 404 ==> r == Fail(404, "Developer not found")
    ensures r.status == 200 <==> IsObjectIdHex(id) && ParseObjectId(id).value in c && Decode(c[ParseObjectId(id).value]).Some?
    ensures r.status == 200 ==> r.body == Entity(Decode(c[ParseObjectId(id).value]).value)
    ensures r.status !in {200, 400, 404} ==> r == Fail(500, "Failed to fetch developer")
  {
    match DeveloperService.GetDeveloperByID(c, id)
    case Success(x) => Response(200, Entity(x))
    case Failure(e) => ErrorReply(e, "Failed to fetch developer")
  }

  /** Parse, validate, then create: the service stamps id and timestamps, so
      whatever the client sent for them is replaced. */
  function CreateDeveloper(c: Collection, body: Option<Developer>, newId: FreshId, now: int): (r: (Collection, Response<Developer>))
    ensures body.None? ==> r == (c, Fail(400, "Invalid request body"))
    ensures body.Some? && !Valid(body.value) ==>
      r == (c, ValidatorMiddleware.ErrorHandler(ValidationErrors(Validate(body.value)))) && r.1.status == 400
    ensures body.Some? && Valid(body.value) && newId in c ==> r == (c, Fail(500, "Failed to create developer"))
    ensures body.Some? && Valid(body.value) && newId !in c ==>
      && r.1 == Response(201, Entity(body.value.(id := newId, createdAt := now, updatedAt := now)))
      && r.0.Keys == c.Keys + {newId}
      && Decode(r.0[newId]) == Some(r.1.body.item)
    ensures r.1.status == 201 || r.0 == c
  {
    match body
    case None => (c, Fail(400, "Invalid request body"))
    case Some(x) =>
      match ValidatorMiddleware.StructError(Validate(x))
      case Some(err) => (c, ValidatorMiddleware.ErrorHandler(err))
      case None =>
        match DeveloperService.CreateDeveloper(c, x, newId, now)
        case Failure(_) => (c, Fail(500, "Failed to create developer"))
        case Success((c', stored)) => (c', Response(201, Entity(stored)))
  }

  /** Parse and validate the partial update before the id is looked at. */
  function UpdateDeveloper(c: Collection, id: string, body: Option<DeveloperUpdate>, now: int): (r: (Collection, Response<Developer>))
    ensures body.None? ==> r == (c, Fail(400, "Invalid request body"))
    ensures body.Some? && !ValidUpdate(body.value) ==>
      r == (c, ValidatorMiddleware.ErrorHandler(ValidationErrors(ValidateUpdate(body.value)))) && r.1.status == 400
    ensures body.Some? && ValidUpdate(body.value) ==>
      var (c', s) := DeveloperService.UpdateDeveloper(c, id, body.value, now);
      && r.0 == c'
      && (s.Success? ==> r.1 == Response(200, Entity(s.value)))
      && (s.Failure? ==> r.1 == ErrorReply(s.error, "Failed to update developer"))
    ensures r.1.status in {200, 400, 404, 500}
  {
    match body
    case None => (c, Fail(400, "Invalid request body"))
    case Some(u) =>
      match ValidatorMiddleware.StructError(ValidateUpdate(u))
      case Some(err) => (c, ValidatorMiddleware.ErrorHandler(err))
      case None =>
        var (c', s) := DeveloperService.UpdateDeveloper(c, id, u, now);
        match s
        case Success(x) => (c', Response(200, Entity(x)))
        case Failure(e) => (c', ErrorReply(e, "Failed to update developer"))
  }

  function DeleteDeveloper(c: Collection, id: string): (r: (Collection, Response<Developer>))
    ensures r.1.status == 400 <==> !IsObjectIdHex(id)
    ensures r.1.status == 400 ==> r == (c, Fail(400, "Invalid developer ID"))
    ensures IsObjectIdHex(id) ==> r.0 == c - {ParseObjectId(id).value}
    ensures r.1.status == 404 <==> IsObjectIdHex(id) && ParseObjectId(id).value !in c
    ensures r.1.status == 404 ==> r.1 == Fail(404, "Developer not found")
    ensures r.1.status == 200 <==> IsObjectIdHex(id) && ParseObjectId(id).value in c && Decode(c[ParseObjectId(id).value]).Some?
    ensures r.1.status == 200 ==> r.1.body == Entity(Decode(c[ParseObjectId(id).value]).value)
    ensures r.1.status !in {200, 400, 404} ==> r.1 == Fail(500, "Failed to delete developer")
  {
    var (c', s) := DeveloperService.DeleteDeveloper(c, id);
    match s
    case Success(x) => (c', Response(200, Entity(x)))
    case Failure(e) => (c', ErrorReply(e, "Failed to delete developer"))
  }

  /** A 201 from create is followed by a 200 for the new id with the same body. */
  lemma {:induction false} CreatedIsFetchable(c: Collection, body: Option<Developer>, newId: FreshId, now: int)
    requires CreateDeveloper(c, body, newId, now).1.status == 201
    ensures var (c', r) := CreateDeveloper(c, body, newId, now);
      GetDeveloperByID(c', Hex(newId)) == Response(200, r.body)
  {
    DeveloperService.CreateThenGet(c, body.value, newId, now);
  }

  /** Validation comes first: a bad field is reported even when the id in
      the path is malformed as well. */
  lemma {:induction false} ValidationBeforeId(c: Collection, id: string, now: int)
    requires !IsObjectIdHex(id)
    ensures var r := UpdateDeveloper(c, id, Some(DeveloperUpdate(Some("x"))), now).1;
      r.status == 400 && r.body.error.message == "Validation failed"
  {
  }

  /** With a valid body, a malformed id wins over an empty update. */
  lemma {:induction false} IdBeforeEmptiness(c: Collection, id: string, now: int)
    requires !IsObjectIdHex(id)
    ensures UpdateDeveloper(c, id, Some(DeveloperUpdate(None)), now).1 == Fail(400, "Invalid developer ID")
  {
  }
}
