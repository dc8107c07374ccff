/** The game HTTP handlers. Create validates the full record; update takes
    the body as a raw JSON object and validates nothing. */
module GameController {
  import opened Wrappers
  import opened ObjectIds
  import opened Bson
  import opened DocumentStore
  import opened Validation
  import opened Http
  import opened GameModel
  import opened ServiceCommon
  import GameRepository
  import GameService

  /** The `switch err` of the handlers. */
  function ErrorReply(e: Error, fallback: string): (r: Response<Game>)
    ensures e == Sentinel(ErrInvalidGameID) ==> r == Fail(400, "Invalid game ID format")
    ensures e == Sentinel(ErrNoUpdateData) ==> r == Fail(400, "No update data provided")
    ensures e == Sentinel(ErrGameNotFound) ==> r == Fail(404, "Game not found")
    ensures e !in {Sentinel(ErrInvalidGameID), Sentinel(ErrNoUpdateData), Sentinel(ErrGameNotFound)} ==> r == Fail(500, fallback)
  {
    if e == Sentinel(ErrInvalidGameID) then Fail(400, "Invalid game ID format")
    else if e == Sentinel(ErrNoUpdateData) then Fail(400, "No update data provided")
    else if e == Sentinel(ErrGameNotFound) then Fail(404, "Game not found")
    else Fail(500, fallback)
  }

  method GetGames(c: Collection, title: string, m: Matcher) returns (r: Response<Game>)
    ensures var keys := MatchingKeys(c, NameFilter("title", title), m);
      && (r.status == 200 <==> forall k :: k in keys ==> Decode(c[k]).Some?)
      && (r.status != 200 ==> r == Fail(500, "Failed to fetch games"))
      && (r.status == 200 ==> r.body.Entities? && |r.body.items| == |keys|
                              && (forall g :: g in r.body.items ==> exists k :: k in keys && Decode(c[k]) == Some(g))
                              && (forall k :: k in keys ==> Decode(c[k]).value in r.body.items)
                              && GameRepository.SortedByTitle(r.body.items))
  {
    var found := GameService.GetGames(c, title, m);
    r := if found.Success? then Response(200, Entities(found.value)) else Fail(500, "Failed to fetch games");
  }

  function GetGameByID(c: Collection, id: string): (r: Response<Game>)
    ensures r.status == 400 <==> !IsObjectIdHex(id)
    ensures r.status == 400 ==> r == Fail(400, "Invalid game ID format")
    ensures r.status == 404 <==> IsObjectIdHex(id) && ParseObjectId(id).value !in c
    ensures r.status == 404 ==> r == Fail(404, "Game not found")
    ensures r.status == 200 <==> IsObjectIdHex(id) && ParseObjectId(id).value in c && Decode(c[ParseObjectId(id).value]).Some?
    ensures r.status == 200 ==> r.body == Entity(Decode(c[ParseObjectId(id).value]).value)
    ensures r.status !in {200, 400, 404} ==> r == Fail(500, "Failed to fetch game")
  {
    match GameService.GetGameByID(c, id)
    case Success(g) => Response(200, Entity(g))
    case Failure(e) => ErrorReply(e, "Failed to fetch game")
  }

  /** `render` is the validator's `err.Error()` text. */
  function CreateGame(c: Collection, body: Option<Game>, generated: FreshId, now: int, render: seq<FieldError> -> string): (r: (Collection, Response<Game>))
    ensures body.None? ==> r == (c, Fail(400, "Invalid request body"))
    ensures body.Some? && !Valid(body.value) ==> r == (c, Fail(400, render(Validate(body.value))))
    ensures body.Some? && Valid(body.value) ==> var key := if body.value.id == Zero then generated else body.value.id;
      && (key in c ==> r == (c, Fail(500, "Failed to create game")))
      && (key !in c ==>
            && r.1 == Response(201, Entity(body.value.(id := key, createdAt := now, updatedAt := now)))
            && r.0.Keys == c.Keys + {key}
            && Decode(r.0[key]) == Some(r.1.body.item))
    ensures r.1.status == 201 || r.0 == c
  {
    match body
    case None => (c, Fail(400, "Invalid request body"))
    case Some(g) =>
      if Validate(g) != [] then (c, Fail(400, render(Validate(g))))
      else
        match GameService.CreateGame(c, g, generated, now)
        case Failure(_) => (c, Fail(500, "Failed to create game"))
        case Success((c', stored)) => (c', Response(201, Entity(stored)))
  }

  /** The body is any JSON object, copied into the update map as is; JSON
      `null` decodes to an empty map. */
  function UpdateGame(c: Collection, id: string, body: Option<Doc>, now: int): (r: (Collection, Response<Game>))
    ensures body.None? ==> r == (c, Fail(400, "Invalid request body"))
    ensures body.Some? ==>
      var (c', s) := GameService.UpdateGame(c, id, body.value, now);
      && r.0 == c'
      && (s.Success? ==> r.1 == Response(200, Entity(s.value)))
      && (s.Failure? ==> r.1 == ErrorReply(s.error, "Failed to update game"))
    ensures body.Some? && |body.value| == 0 ==> r == (c, Fail(400, "No update data provided"))
    ensures r.1.status in {200, 400, 404, 500}
  {
    match body
    case None => (c, Fail(400, "Invalid request body"))
    case Some(update) =>
      var (c', s) := GameService.UpdateGame(c, id, update, now);
      match s
      case Success(g) => (c', Response(200, Entity(g)))
      case Failure(e) => (c', ErrorReply(e, "Failed to update game"))
  }

  function DeleteGame(c: Collection, id: string): (r: (Collection, Response<Game>))
    ensures r.1.status == 400 <==> !IsObjectIdHex(id)
    ensures r.1.status == 400 ==> r == (c, Fail(400, "Invalid game ID format"))
    ensures IsObjectIdHex(id) ==> r.0 == c - {ParseObjectId(id).value}
    ensures r.1.status == 404 <==> IsObjectIdHex(id) && ParseObjectId(id).value !in c
    ensures r.1.status == 404 ==> r.1 == Fail(404, "Game not found")
    ensures r.1.status == 200 <==> IsObjectIdHex(id) && ParseObjectId(id).value in c && Decode(c[ParseObjectId(id).value]).Some?
    ensures r.1.status == 200 ==> r.1.body == Entity(Decode(c[ParseObjectId(id).value]).value)
    ensures r.1.status !in {200, 400, 404} ==> r.1 == Fail(500, "Failed to delete game")
  {
    var (c', s) := GameService.DeleteGame(c, id);
    match s
    case Success(g) => (c', Response(200, Entity(g)))
    case Failure(e) => (c', ErrorReply(e, "Failed to delete game"))
  }

  /** A 201 from create is followed by a 200 for the new id with the same body. */
  lemma {:induction false} CreatedIsFetchable(c: Collection, body: Option<Game>, generated: FreshId, now: int, render: seq<FieldError> -> string)
    ensures var (c', r) := CreateGame(c, body, generated, now, render);
      r.status == 201 ==> GetGameByID(c', Hex(r.body.item.id)) == Response(200, r.body)
  {
    if CreateGame(c, body, generated, now, render).1.status == 201 {
      GameService.CreateThenGet(c, body.value, generated, now);
    }
  }

  /** An empty body is refused as such even when the id is malformed too. */
  lemma {:induction false} EmptinessBeforeId(c: Collection, id: string, now: int)
    requires !IsObjectIdHex(id)
    ensures UpdateGame(c, id, Some(map[]), now).1 == Fail(400, "No update data provided")
  {
  }

  /** A title the create handler would refuse is accepted by the update handler. */
  lemma {:induction false} UpdateAcceptsInvalidTitle(c: Collection, id: string, now: int)
    requires IsObjectIdHex(id) && ParseObjectId(id).value in c
    requires Decode(c[ParseObjectId(id).value]).Some?
    ensures var r := UpdateGame(c, id, Some(map["title" := VStr("")]), now).1;
      r.status == 200 && !Valid(r.body.item)
  {
    GameService.UpdateSkipsValidation(c, id, now);
  }
}
