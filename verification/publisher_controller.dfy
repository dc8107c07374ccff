/** The publisher HTTP handlers: each turns a request into a service call and
    the service's answer into a status and a JSON body. */
module PublisherController {
  import opened Wrappers
  import opened ObjectIds
  import opened DocumentStore
  import opened Validation
  import opened Http
  import opened PublisherModel
  import opened ServiceCommon
  import ValidatorMiddleware
  import PublisherService

  /** The `switch err` of the handlers: the id and no-data sentinels are bad
      requests, not-found is 404, anything else is a 500 with the handler's
      own text. */
  function ErrorReply(e: Error, fallback: string): (r: Response<Publisher>)
    ensures e == Sentinel(ErrInvalidPublisherID) ==> r == Fail(400, "Invalid publisher ID")
    ensures e == Sentinel(ErrNoPublisherUpdateData) ==> r == Fail(400, "At least one field must be provided for update")
    ensures e == Sentinel(ErrPublisherNotFound) ==> r == Fail(404, "Publisher not found")
    ensures e !in {Sentinel(ErrInvalidPublisherID), Sentinel(ErrNoPublisherUpdateData), Sentinel(ErrPublisherNotFound)} ==> r == Fail(500, fallback)
  {
    if e == Sentinel(ErrInvalidPublisherID) then Fail(400, "Invalid publisher ID")
    else if e == Sentinel(ErrNoPublisherUpdateData) then Fail(400, "At least one field must be provided for update")
    else if e == Sentinel(ErrPublisherNotFound) then Fail(404, "Publisher not found")
    else Fail(500, fallback)
  }

  method GetPublishers(c: Collection, name: string, m: Matcher) returns (r: Response<Publisher>)
    ensures var keys := MatchingKeys(c, NameFilter("name", name), m);
      && (r.status == 200 <==> forall k :: k in keys ==> Decode(c[k]).Some?)
      && (r.status != 200 ==> r == Fail(500, "Failed to fetch publishers"))
      && (r.status == 200 ==> r.body.Entities? && |r.body.items| == |keys|
                              && (forall x :: x in r.body.items ==> exists k :: k in keys && Decode(c[k]) == Some(x))
                              && (forall k :: k in keys ==> Decode(c[k]).value in r.body.items))
  {
    var found := PublisherService.GetPublishers(c, name, m);
    r := if found.Success? then Response(200, Entities(found.value)) else Fail(500, "Failed to fetch publishers");
  }

  function GetPublisherByID(c: Collection, id: string): (r: Response<Publisher>)
    ensures r.status == 400 <==> !IsObjectIdHex(id)
    ensures r.status == 400 ==> r == Fail(400, "Invalid publisher ID")
    ensures r.status == 404 <==> IsObjectIdHex(id) && ParseObjectId(id).value !in c
    ensures r.status == 404 ==> r == Fail(404, "Publisher not found")
    ensures r.status == 200 <==> IsObjectIdHex(id) && ParseObjectId(id).value in c && Decode(c[ParseObjectId(id).value]).Some?
    ensures r.status == 200 ==> r.body == Entity(Decode(c[ParseObjectId(id).value]).value)
    ensures r.status !in {200, 400, 404} ==> r == Fail(500, "Failed to fetch publisher")
  {
    match PublisherService.GetPublisherByID(c, id)
    case Success(x) => Response(200, Entity(x))
    case Failure(e) => ErrorReply(e, "Failed to fetch publisher")
  }

  /** Parse, validate, then create: the service stamps id and timestamps, so
      whatever the client sent for them is replaced. */
  function CreatePublisher(c: Collection, body: Option<Publisher>, newId: FreshId, now: int): (r: (Collection, Response<Publisher>))
    ensures body.None? ==> r == (c, Fail(400, "Invalid request body"))
    ensures body.Some? && !Valid(body.value) ==>
      r == (c, ValidatorMiddleware.ErrorHandler(ValidationErrors(Validate(body.value)))) && r.1.status == 400
    ensures body.Some? && Valid(body.value) && newId in c ==> r == (c, Fail(500, "Failed to create publisher"))
    ensures body.Some? && Valid(body.value) && newId !in c ==>
      && r.1 == Response(201, Entity(body.value.(id := newId, createdAt := now, updatedAt := now)))
      && r.0.Keys == c.Keys + {newId}
      && Decode(r.0[newId]) == Some(r.1.body.item)
    ensures r.1.status == 201 || r.0 == c
  {
    match body
    case None => (c, Fail(400, "Invalid request body"))
    case Some(x) =>
      match ValidatorMiddleware.StructError(Validate(x))
      case Some(err) => (c, ValidatorMiddleware.ErrorHandler(err))
      case None =>
        match PublisherService.CreatePublisher(c, x, newId, now)
        case Failure(_) => (c, Fail(500, "Failed to create publisher"))
        case Success((c', stored)) => (c', Response(201, Entity(stored)))
  }

  /** Parse and validate the partial update before the id is looked at. */
  function UpdatePublisher(c: Collection, id: string, body: Option<PublisherUpdate>, now: int): (r: (Collection, Response<Publisher>))
    ensures body.None? ==> r == (c, Fail(400, "Invalid request body"))
    ensures body.Some? && !ValidUpdate(body.value) ==>
      r == (c, ValidatorMiddleware.ErrorHandler(ValidationErrors(ValidateUpdate(body.value)))) && r.1.status == 400
    ensures body.Some? && ValidUpdate(body.value) ==>
      var (c', s) := PublisherService.UpdatePublisher(c, id, body.value, now);
      && r.0 == c'
      && (s.Success? ==> r.1 == Response(200, Entity(s.value)))
      && (s.Failure? ==> r.1 == ErrorReply(s.error, "Failed to update publisher"))
    ensures r.1.status in {200, 400, 404, 500}
  {
    match body
    case None => (c, Fail(400, "Invalid request body"))
    case Some(u) =>
      match ValidatorMiddleware.StructError(ValidateUpdate(u))
      case Some(err) => (c, ValidatorMiddleware.ErrorHandler(err))
      case None =>
        var (c', s) := PublisherService.UpdatePublisher(c, id, u, now);
        match s
        case Success(x) => (c', Response(200, Entity(x)))
        case Failure(e) => (c', ErrorReply(e, "Failed to update publisher"))
  }

  function DeletePublisher(c: Collection, id: string): (r: (Collection, Response<Publisher>))
    ensures r.1.status == 400 <==> !IsObjectIdHex(id)
    ensures r.1.status == 400 ==> r == (c, Fail(400, "Invalid publisher ID"))
    ensures IsObjectIdHex(id) ==> r.0 == c - {ParseObjectId(id).value}
    ensures r.1.status == 404 <==> IsObjectIdHex(id) && ParseObjectId(id).value !in c
    ensures r.1.status == 404 ==> r.1 == Fail(404, "Publisher not found")
    ensures r.1.status == 200 <==> IsObjectIdHex(id) && ParseObjectId(id).value in c && Decode(c[ParseObjectId(id).value]).Some?
    ensures r.1.status == 200 ==> r.1.body == Entity(Decode(c[ParseObjectId(id).value]).value)
    ensures r.1.status !in {200, 400, 404} ==> r.1 == Fail(500, "Failed to delete publisher")
  {
    var (c', s) := PublisherService.DeletePublisher(c, id);
    match s
    case Success(x) => (c', Response(200, Entity(x)))
    case Failure(e) => (c', ErrorReply(e, "Failed to delete publisher"))
  }

  /** A 201 from create is followed by a 200 for the new id with the same body. */
  lemma {:induction false} CreatedIsFetchable(c: Collection, body: Option<Publisher>, newId: FreshId, now: int)
    requires CreatePublisher(c, body, newId, now).1.status == 201
    ensures var (c', r) := CreatePublisher(c, body, newId, now);
      GetPublisherByID(c', Hex(newId)) == Response(200, r.body)
  {
    PublisherService.CreateThenGet(c, body.value, newId, now);
  }

  /** Validation comes first: a bad field is reported even when the id in
      the path is malformed as well. */
  lemma {:induction false} ValidationBeforeId(c: Collection, id: string, now: int)
    requires !IsObjectIdHex(id)
    ensures var r := UpdatePublisher(c, id, Some(PublisherUpdate(Some("x"))), now).1;
      r.status == 400 && r.body.error.message == "Validation failed"
  {
  }

  /** With a valid body, a malformed id wins over an empty update. */
  lemma {:induction false} IdBeforeEmptiness(c: Collection, id: string, now: int)
    requires !IsObjectIdHex(id)
    ensures UpdatePublisher(c, id, Some(PublisherUpdate(None)), now).1 == Fail(400, "Invalid publisher ID")
  {
  }
}
