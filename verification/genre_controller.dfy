/** The genre HTTP handlers. Validation failures are answered with the
    validator's own error text rather than the field list, and a missing
    name is reported before a malformed id. */
module GenreController {
  import opened Wrappers
  import opened ObjectIds
  import opened DocumentStore
  import opened Validation
  import opened Http
  import opened GenreModel
  import opened ServiceCommon
  import GenreService

  /** The `switch err` of the handlers. */
  function ErrorReply(e: Error, fallback: string): (r: Response<Genre>)
    ensures e == Sentinel(ErrInvalidGenreID) ==> r == Fail(400, "Invalid genre ID format")
    ensures e == Sentinel(ErrNoGenreUpdateData) ==> r == Fail(400, "No valid update data provided")
    ensures e == Sentinel(ErrGenreNotFound) ==> r == Fail(404, "Genre not found")
    ensures e !in {Sentinel(ErrInvalidGenreID), Sentinel(ErrNoGenreUpdateData), Sentinel(ErrGenreNotFound)} ==> r == Fail(500, fallback)
  {
    if e == Sentinel(ErrInvalidGenreID) then Fail(400, "Invalid genre ID format")
    else if e == Sentinel(ErrNoGenreUpdateData) then Fail(400, "No valid update data provided")
    else if e == Sentinel(ErrGenreNotFound) then Fail(404, "Genre not found")
    else Fail(500, fallback)
  }

  method GetGenres(c: Collection, name: string, m: Matcher) returns (r: Response<Genre>)
    ensures var keys := MatchingKeys(c, NameFilter("name", name), m);
      && (r.status == 200 <==> forall k :: k in keys ==> Decode(c[k]).Some?)
      && (r.status != 200 ==> r == Fail(500, "Failed to fetch genres"))
      && (r.status == 200 ==> r.body.Entities? && |r.body.items| == |keys|
                              && (forall g :: g in r.body.items ==> exists k :: k in keys && Decode(c[k]) == Some(g))
                              && (forall k :: k in keys ==> Decode(c[k]).value in r.body.items))
  {
    var found := GenreService.GetGenres(c, name, m);
    r := if found.Success? then Response(200, Entities(found.value)) else Fail(500, "Failed to fetch genres");
  }

  function GetGenreByID(c: Collection, id: string): (r: Response<Genre>)
    ensures r.status == 400 <==> !IsObjectIdHex(id)
    ensures r.status == 400 ==> r == Fail(400, "Invalid genre ID format")
    ensures r.status == 404 <==> IsObjectIdHex(id) && ParseObjectId(id).value !in c
    ensures r.status == 404 ==> r == Fail(404, "Genre not found")
    ensures r.status == 200 <==> IsObjectIdHex(id) && ParseObjectId(id).value in c && Decode(c[ParseObjectId(id).value]).Some?
    ensures r.status == 200 ==> r.body == Entity(Decode(c[ParseObjectId(id).value]).value)
    ensures r.status !in {200, 400, 404} ==> r == Fail(500, "Failed to fetch genre")
  {
    match GenreService.GetGenreByID(c, id)
    case Success(g) => Response(200, Entity(g))
    case Failure(e) => ErrorReply(e, "Failed to fetch genre")
  }

  /** `render` is the validator's `err.Error()` text. */
  function CreateGenre(c: Collection, body: Option<Genre>, newId: FreshId, now: int, render: seq<FieldError> -> string): (r: (Collection, Response<Genre>))
    ensures body.None? ==> r == (c, Fail(400, "Invalid request body"))
    ensures body.Some? && !Valid(body.value) ==> r == (c, Fail(400, render(Validate(body.value))))
    ensures body.Some? && Valid(body.value) ==> var key := if body.value.id == Zero then newId else body.value.id;
      && (key in c ==> r == (c, Fail(500, "Failed to create genre")))
      && (key !in c ==>
            && r.1 == Response(201, Entity(body.value.(id := key, createdAt := now, updatedAt := now)))
            && r.0.Keys == c.Keys + {key}
            && Decode(r.0[key]) == Some(r.1.body.item))
    ensures r.1.status == 201 || r.0 == c
  {
    match body
    case None => (c, Fail(400, "Invalid request body"))
    case Some(g) =>
      if Validate(g) != [] then (c, Fail(400, render(Validate(g))))
      else
        match GenreService.CreateGenre(c, g, newId, now)
        case Failure(_) => (c, Fail(500, "Failed to create genre"))
        case Success((c', stored)) => (c', Response(201, Entity(stored)))
  }

  function UpdateGenre(c: Collection, id: string, body: Option<GenreUpdate>, now: int, render: seq<FieldError> -> string): (r: (Collection, Response<Genre>))
    ensures body.None? ==> r == (c, Fail(400, "Invalid request body"))
    ensures body.Some? && !ValidUpdate(body.value) ==> r == (c, Fail(400, render(ValidateUpdate(body.value))))
    ensures body.Some? && ValidUpdate(body.value) ==>
      var (c', s) := GenreService.UpdateGenre(c, id, body.value, now);
      && r.0 == c'
      && (s.Success? ==> r.1 == Response(200, Entity(s.value)))
      && (s.Failure? ==> r.1 == ErrorReply(s.error, "Failed to update genre"))
    ensures r.1.status in {200, 400, 404, 500}
  {
    match body
    case None => (c, Fail(400, "Invalid request body"))
    case Some(u) =>
      if ValidateUpdate(u) != [] then (c, Fail(400, render(ValidateUpdate(u))))
      else
        var (c', s) := GenreService.UpdateGenre(c, id, u, now);
        match s
        case Success(g) => (c', Response(200, Entity(g)))
        case Failure(e) => (c', ErrorReply(e, "Failed to update genre"))
  }

  function DeleteGenre(c: Collection, id: string): (r: (Collection, Response<Genre>))
    ensures r.1.status == 400 <==> !IsObjectIdHex(id)
    ensures r.1.status == 400 ==> r == (c, Fail(400, "Invalid genre ID format"))
    ensures IsObjectIdHex(id) ==> r.0 == c - {ParseObjectId(id).value}
    ensures r.1.status == 404 <==> IsObjectIdHex(id) && ParseObjectId(id).value !in c
    ensures r.1.status == 404 ==> r.1 == Fail(404, "Genre not found")
    ensures r.1.status == 200 <==> IsObjectIdHex(id) && ParseObjectId(id).value in c && Decode(c[ParseObjectId(id).value]).Some?
    ensures r.1.status == 200 ==> r.1.body == Entity(Decode(c[ParseObjectId(id).value]).value)
    ensures r.1.status !in {200, 400, 404} ==> r.1 == Fail(500, "Failed to delete genre")
  {
    var (c', s) := GenreService.DeleteGenre(c, id);
    match s
    case Success(g) => (c', Response(200, Entity(g)))
    case Failure(e) => (c', ErrorReply(e, "Failed to delete genre"))
  }

  /** A 201 from create is followed by a 200 for the new id with the same body. */
  lemma {:induction false} CreatedIsFetchable(c: Collection, body: Option<Genre>, newId: FreshId, now: int, render: seq<FieldError> -> string)
    requires CreateGenre(c, body, newId, now, render).1.status == 201
    ensures var (c', r) := CreateGenre(c, body, newId, now, render);
      GetGenreByID(c', Hex(r.body.item.id)) == Response(200, r.body)
  {
    GenreService.CreateThenGet(c, body.value, newId, now);
  }

  /** An update without a name is answered as such even when the id in the
      path is malformed too. */
  lemma {:induction false} EmptinessBeforeId(c: Collection, id: string, now: int, render: seq<FieldError> -> string)
    requires !IsObjectIdHex(id)
    ensures UpdateGenre(c, id, Some(GenreUpdate(None)), now, render).1 == Fail(400, "No valid update data provided")
  {
  }
}
