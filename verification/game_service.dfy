/** Game business rules: the thinnest service. Create goes straight to the
    repository, and an update is any non-empty map, checked for emptiness
    before its id is parsed and never validated. */
module GameService {
  import opened Wrappers
  import opened ObjectIds
  import opened Bson
  import opened DocumentStore
  import opened GameModel
  import opened ServiceCommon
  import GameRepository

  method GetGames(c: Collection, title: string, m: Matcher) returns (r: Result<seq<Game>, Error>)
    ensures var keys := MatchingKeys(c, NameFilter("title", title), m);
      && (r.Success? <==> forall k :: k in keys ==> Decode(c[k]).Some?)
      && (r.Failure? ==> r.error == Storage(DecodeFailure))
      && (r.Success? ==> |r.value| == |keys|
                         && (forall g :: g in r.value ==> exists k :: k in keys && Decode(c[k]) == Some(g))
                         && (forall k :: k in keys ==> Decode(c[k]).value in r.value)
                         && GameRepository.SortedByTitle(r.value))
  {
    var found := GameRepository.FindAll(c, NameFilter("title", title), m);
    r := if found.Success? then Success(found.value) else Failure(Storage(found.error));
  }

  function GetGameByID(c: Collection, id: string): (r: Result<Game, Error>)
    ensures !IsObjectIdHex(id) ==> r == Failure(Sentinel(ErrInvalidGameID))
    ensures IsObjectIdHex(id) ==> var key := ParseObjectId(id).value;
      && (key !in c ==> r == Failure(Sentinel(ErrGameNotFound)))
      && (key in c && Decode(c[key]).Some? ==> r == Success(Decode(c[key]).value))
      && (key in c && Decode(c[key]).None? ==> r == Failure(Storage(DecodeFailure)))
  {
    match ParseObjectId(id)
    case None => Failure(Sentinel(ErrInvalidGameID))
    case Some(key) =>
      match GameRepository.FindByID(c, key)
      case Failure(e) => Failure(Storage(e))
      case Success(None) => Failure(Sentinel(ErrGameNotFound))
      case Success(Some(g)) => Success(g)
  }

  function CreateGame(c: Collection, g: Game, generated: FreshId, now: int): (r: Result<(Collection, Game), Error>)
    ensures var key := if g.id == Zero then generated else g.id;
      && (r.Failure? <==> key in c)
      && (r.Failure? ==> r.error == Storage(DuplicateKey(key)))
      && (r.Success? ==> var (c', stored) := r.value;
                         && stored == g.(id := key, createdAt := now, updatedAt := now)
                         && c'.Keys == c.Keys + {key}
                         && (forall k :: k in c ==> c'[k] == c[k])
                         && Decode(c'[key]) == Some(stored))
    ensures WellKeyed(c) && r.Success? ==> WellKeyed(r.value.0)
  {
    match GameRepository.Create(c, g, generated, now)
    case Failure(e) => Failure(Storage(e))
    case Success(res) => Success(res)
  }

  /** An empty map is refused with the platform package's `ErrNoUpdateData`
      (the game service declares no such error of its own). */
  function UpdateGame(c: Collection, id: string, update: Doc, now: int): (r: (Collection, Result<Game, Error>))
    ensures |update| == 0 ==> r == (c, Failure(Sentinel(ErrNoUpdateData)))
    ensures |update| > 0 && !IsObjectIdHex(id) ==> r == (c, Failure(Sentinel(ErrInvalidGameID)))
    ensures |update| > 0 && IsObjectIdHex(id) ==> var key := ParseObjectId(id).value;
      && ((exists k :: k in update && !PlainField(k)) ==> r == (c, Failure(Storage(UnsupportedFieldPath))))
      && ((forall k :: k in update ==> PlainField(k)) ==>
            && (key !in c ==> r == (c, Failure(Sentinel(ErrGameNotFound))))
            && (key in c && "_id" in update && update["_id"] != VId(key) ==> r == (c, Failure(Storage(ImmutableId))))
            && (key in c && ("_id" in update ==> update["_id"] == VId(key)) ==>
                  var after := c[key] + GameRepository.Fields(update, now);
                  && r.0 == c[key := after]
                  && r.1 == (if Decode(after).Some? then Success(Decode(after).value) else Failure(Storage(DecodeFailure)))))
    ensures WellKeyed(c) ==> WellKeyed(r.0)
  {
    if |update| == 0 then (c, Failure(Sentinel(ErrNoUpdateData)))
    else
      match ParseObjectId(id)
      case None => (c, Failure(Sentinel(ErrInvalidGameID)))
      case Some(key) =>
        var (c', found) := GameRepository.Update(c, key, update, now);
        match found
        case Failure(e) => (c', Failure(Storage(e)))
        case Success(None) => (c', Failure(Sentinel(ErrGameNotFound)))
        case Success(Some(g)) => (c', Success(g))
  }

  function DeleteGame(c: Collection, id: string): (r: (Collection, Result<Game, Error>))
    ensures !IsObjectIdHex(id) ==> r == (c, Failure(Sentinel(ErrInvalidGameID)))
    ensures IsObjectIdHex(id) ==> var key := ParseObjectId(id).value;
      && r.0 == c - {key}
      && (key !in c ==> r.1 == Failure(Sentinel(ErrGameNotFound)))
      && (key in c && Decode(c[key]).Some? ==> r.1 == Success(Decode(c[key]).value))
      && (key in c && Decode(c[key]).None? ==> r.1 == Failure(Storage(DecodeFailure)))
  {
    match ParseObjectId(id)
    case None => (c, Failure(Sentinel(ErrInvalidGameID)))
    case Some(key) =>
      var (c', found) := GameRepository.Delete(c, key);
      match found
      case Failure(e) => (c', Failure(Storage(e)))
      case Success(None) => (c', Failure(Sentinel(ErrGameNotFound)))
      case Success(Some(g)) => (c', Success(g))
  }

  /** A created game can be fetched by the hex form of its id. */
  lemma {:induction false} CreateThenGet(c: Collection, g: Game, generated: FreshId, now: int)
    requires CreateGame(c, g, generated, now).Success?
    ensures var (c', stored) := CreateGame(c, g, generated, now).value;
      GetGameByID(c', Hex(stored.id)) == Success(stored)
  {
    var (c', stored) := CreateGame(c, g, generated, now).value;
    assert stored.id != Zero;
    ParseHexRoundTrip(stored.id);
  }

  /** A deleted game is gone: fetching it again is not-found. */
  lemma {:induction false} DeleteThenGet(c: Collection, id: string)
    requires DeleteGame(c, id).1.Success?
    ensures GetGameByID(DeleteGame(c, id).0, id) == Failure(Sentinel(ErrGameNotFound))
  {
  }

  /** An id in a JSON body is never an ObjectId, so a body that names
      `_id` always hits the server's immutable-field error. */
  lemma {:induction false} JsonIdRejected(c: Collection, id: string, update: Doc, now: int)
    requires IsObjectIdHex(id) && ParseObjectId(id).value in c
    requires "_id" in update && FromJson(update["_id"])
    requires forall k :: k in update ==> PlainField(k)
    ensures UpdateGame(c, id, update, now) == (c, Failure(Storage(ImmutableId)))
  {
  }

  /** An empty field name in the body reaches `$set` and is refused by the
      server, so nothing is written. */
  lemma {:induction false} EmptyFieldNameRefused(c: Collection, id: string, v: Value, now: int)
    requires IsObjectIdHex(id)
    ensures UpdateGame(c, id, map["" := v], now) == (c, Failure(Storage(UnsupportedFieldPath)))
  {
    var update := map["" := v];
    assert "" in update && !PlainField("");
  }

  /** The client cannot choose `updatedAt`: whatever it sends, the stored
      value is the server's time. */
  lemma {:induction false} UpdatedAtForced(c: Collection, id: string, update: Doc, now: int)
    ensures UpdateGame(c, id, update, now).1.Success? ==> UpdateGame(c, id, update, now).1.value.updatedAt == now
  {
    if UpdateGame(c, id, update, now).1.Success? {
      var key := ParseObjectId(id).value;
      var after := c[key] + GameRepository.Fields(update, now);
      assert after["updatedAt"] == VTime(now);
    }
  }

  /** Setting a string title and `updatedAt` on a readable game document
      changes exactly those two fields of the game read back. */
  lemma RetitleReads(d: Doc, t: string, now: int)
    requires Decodable(d)
    ensures Decode(d + map["title" := VStr(t), "updatedAt" := VTime(now)]) == Some(Decode(d).value.(title := t, updatedAt := now))
  {
    var e := d + map["title" := VStr(t), "updatedAt" := VTime(now)];
    assert IdOf(e) == IdOf(d);
    assert StringOf(e, "description") == StringOf(d, "description");
    assert StringOf(e, "developer") == StringOf(d, "developer");
    assert StringOf(e, "publisher") == StringOf(d, "publisher");
    assert StringOf(e, "coverImage") == StringOf(d, "coverImage");
    assert TimeOf(e, "releaseDate") == TimeOf(d, "releaseDate");
    assert TimeOf(e, "createdAt") == TimeOf(d, "createdAt");
    assert IdsOf(e, "platforms") == IdsOf(d, "platforms");
    assert StringsOf(e, "genre") == StringsOf(d, "genre");
    assert NumberOf(e, "metacriticScore") == NumberOf(d, "metacriticScore");
    assert NumberOf(e, "usersScore") == NumberOf(d, "usersScore");
  }

  /** No validation on update: a title the create path would refuse is
      stored and returned. */
  lemma {:induction false} UpdateSkipsValidation(c: Collection, id: string, now: int)
    requires IsObjectIdHex(id) && ParseObjectId(id).value in c
    requires Decode(c[ParseObjectId(id).value]).Some?
    ensures var r := UpdateGame(c, id, map["title" := VStr("")], now);
      r.1.Success? && r.1.value.title == "" && !Valid(r.1.value)
  {
    var key := ParseObjectId(id).value;
    var update := map["title" := VStr("")];
    assert PlainField("title");
    assert GameRepository.Fields(update, now) == map["title" := VStr(""), "updatedAt" := VTime(now)];
    RetitleReads(c[key], "", now);
  }

  /** A field of the wrong kind is written anyway; the request then fails
      on decoding, and so does every later read of that game. */
  lemma {:induction false} IllTypedUpdatePoisons(c: Collection, id: string, now: int)
    requires IsObjectIdHex(id) && ParseObjectId(id).value in c
    ensures var (c', r) := UpdateGame(c, id, map["title" := VNum(1.0)], now);
      && r == Failure(Storage(DecodeFailure))
      && c'[ParseObjectId(id).value]["title"] == VNum(1.0)
      && GetGameByID(c', id) == Failure(Storage(DecodeFailure))
  {
    var key := ParseObjectId(id).value;
    var update := map["title" := VNum(1.0)];
    assert PlainField("title");
    assert forall k :: k in update ==> PlainField(k);
    var after := c[key] + GameRepository.Fields(update, now);
    var (c', r) := UpdateGame(c, id, update, now);
    assert c' == c[key := after];
    assert after["title"] == VNum(1.0);
    assert Decode(after).None?;
    assert r == Failure(Storage(DecodeFailure));
    UnreadableStored(c, id, after);
  }

  /** Once a document that does not decode sits under an id, reads of it fail. */
  lemma UnreadableStored(c: Collection, id: string, after: Doc)
    requires IsObjectIdHex(id) && Decode(after).None?
    ensures GetGameByID(c[ParseObjectId(id).value := after], id) == Failure(Storage(DecodeFailure))
  {
  }
}
