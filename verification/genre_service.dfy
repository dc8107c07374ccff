/** Genre business rules. Unlike the other services, an update is checked
    for data before its id is parsed, only the timestamps are stamped on
    create, and the plain field map goes to the repository. */
module GenreService {
  import opened Wrappers
  import opened ObjectIds
  import opened Bson
  import opened DocumentStore
  import opened GenreModel
  import opened ServiceCommon
  import GenreRepository

  method GetGenres(c: Collection, name: string, m: Matcher) returns (r: Result<seq<Genre>, Error>)
    ensures var keys := MatchingKeys(c, NameFilter("name", name), m);
      && (r.Success? <==> forall k :: k in keys ==> Decode(c[k]).Some?)
      && (r.Failure? ==> r.error == Storage(DecodeFailure))
      && (r.Success? ==> |r.value| == |keys|
                         && (forall g :: g in r.value ==> exists k :: k in keys && Decode(c[k]) == Some(g))
                         && (forall k :: k in keys ==> Decode(c[k]).value in r.value))
  {
    var found := GenreRepository.FindAll(c, NameFilter("name", name), m);
    r := if found.Success? then Success(found.value) else Failure(Storage(found.error));
  }

  function GetGenreByID(c: Collection, id: string): (r: Result<Genre, Error>)
    ensures !IsObjectIdHex(id) ==> r == Failure(Sentinel(ErrInvalidGenreID))
    ensures IsObjectIdHex(id) ==> var key := ParseObjectId(id).value;
      && (key !in c ==> r == Failure(Sentinel(ErrGenreNotFound)))
      && (key in c && Decode(c[key]).Some? ==> r == Success(Decode(c[key]).value))
      && (key in c && Decode(c[key]).None? ==> r == Failure(Storage(DecodeFailure)))
  {
    match ParseObjectId(id)
    case None => Failure(Sentinel(ErrInvalidGenreID))
    case Some(key) =>
      match GenreRepository.FindByID(c, key)
      case Failure(e) => Failure(Storage(e))
      case Success(None) => Failure(Sentinel(ErrGenreNotFound))
      case Success(Some(g)) => Success(g)
  }

  /** Stamps both timestamps and leaves the id to the repository, so a
      client-chosen id survives. */
  function CreateGenre(c: Collection, g: Genre, newId: FreshId, now: int): (r: Result<(Collection, Genre), Error>)
    ensures var key := if g.id == Zero then newId else g.id;
      && (r.Failure? <==> key in c)
      && (r.Failure? ==> r.error == Storage(DuplicateKey(key)))
      && (r.Success? ==> var (c', stored) := r.value;
                         && stored == g.(id := key, createdAt := now, updatedAt := now)
                         && c'.Keys == c.Keys + {key}
                         && (forall k :: k in c ==> c'[k] == c[k])
                         && Decode(c'[key]) == Some(stored))
    ensures WellKeyed(c) && r.Success? ==> WellKeyed(r.value.0)
  {
    match GenreRepository.Create(c, g.(createdAt := now, updatedAt := now), newId)
    case Failure(e) => Failure(Storage(e))
    case Success(res) => Success(res)
  }

  /** The field map handed to the repository: the new name and `updatedAt`. */
  function Patch(name: string, now: int): (d: Doc)
    ensures d.Keys == {"updatedAt", "name"}
    ensures d["updatedAt"] == VTime(now) && d["name"] == VStr(name)
  {
    map["updatedAt" := VTime(now), "name" := VStr(name)]
  }

  /** What an update means for a stored genre: the name is replaced and
      `updatedAt` moves to now. */
  function Apply(g: Genre, name: string, now: int): Genre {
    g.(name := name, updatedAt := now)
  }

  lemma PatchIsPlain(name: string, now: int)
    ensures forall k :: k in Patch(name, now) ==> PlainField(k)
    ensures "_id" !in Patch(name, now)
  {
    forall k | k in Patch(name, now)
      ensures PlainField(k)
    {
      PlainKey(k);
    }
  }

  lemma PlainKey(k: string)
    requires k in {"updatedAt", "name"}
    ensures PlainField(k)
  {
  }

  lemma MergeAt(c: Collection, key: ObjectId, name: string, now: int)
    ensures key in c && Decode(c[key]).Some? ==>
      Decode(c[key] + Patch(name, now)) == Some(Apply(Decode(c[key]).value, name, now))
  {
  }

  function UpdateGenre(c: Collection, id: string, u: GenreUpdate, now: int): (r: (Collection, Result<Genre, Error>))
    ensures u.name.None? ==> r == (c, Failure(Sentinel(ErrNoGenreUpdateData)))
    ensures u.name.Some? && !IsObjectIdHex(id) ==> r == (c, Failure(Sentinel(ErrInvalidGenreID)))
    ensures u.name.Some? && IsObjectIdHex(id) ==> var key := ParseObjectId(id).value;
      && (key !in c ==> r == (c, Failure(Sentinel(ErrGenreNotFound))))
      && (key in c ==> r.0 == c[key := c[key] + Patch(u.name.value, now)])
      && (key in c && Decode(c[key]).Some? ==> r.1 == Success(Apply(Decode(c[key]).value, u.name.value, now)))
      && (key in c && r.1.Failure? ==> r.1 == Failure(Storage(DecodeFailure)))
    ensures WellKeyed(c) ==> WellKeyed(r.0)
  {
    if u.name.None? then (c, Failure(Sentinel(ErrNoGenreUpdateData)))
    else
      match ParseObjectId(id)
      case None => (c, Failure(Sentinel(ErrInvalidGenreID)))
      case Some(key) =>
        PatchIsPlain(u.name.value, now);
        MergeAt(c, key, u.name.value, now);
        var (c', found) := GenreRepository.Update(c, key, Patch(u.name.value, now));
        match found
        case Failure(e) => (c', Failure(Storage(e)))
        case Success(None) => (c', Failure(Sentinel(ErrGenreNotFound)))
        case Success(Some(g)) => (c', Success(g))
  }

  function DeleteGenre(c: Collection, id: string): (r: (Collection, Result<Genre, Error>))
    ensures !IsObjectIdHex(id) ==> r == (c, Failure(Sentinel(ErrInvalidGenreID)))
    ensures IsObjectIdHex(id) ==> var key := ParseObjectId(id).value;
      && r.0 == c - {key}
      && (key !in c ==> r.1 == Failure(Sentinel(ErrGenreNotFound)))
      && (key in c && Decode(c[key]).Some? ==> r.1 == Success(Decode(c[key]).value))
      && (key in c && Decode(c[key]).None? ==> r.1 == Failure(Storage(DecodeFailure)))
  {
    match ParseObjectId(id)
    case None => (c, Failure(Sentinel(ErrInvalidGenreID)))
    case Some(key) =>
      var (c', found) := GenreRepository.Delete(c, key);
      match found
      case Failure(e) => (c', Failure(Storage(e)))
      case Success(None) => (c', Failure(Sentinel(ErrGenreNotFound)))
      case Success(Some(g)) => (c', Success(g))
  }

  /** A created genre can be fetched by the hex form of its final id. */
  lemma {:induction false} CreateThenGet(c: Collection, g: Genre, newId: FreshId, now: int)
    requires CreateGenre(c, g, newId, now).Success?
    ensures var (c', stored) := CreateGenre(c, g, newId, now).value;
      GetGenreByID(c', Hex(stored.id)) == Success(stored)
  {
    var (c', stored) := CreateGenre(c, g, newId, now).value;
    assert stored.id != Zero;
    ParseHexRoundTrip(stored.id);
  }

  /** Updating a stored, readable genre with at least one field succeeds,
      and fetching the same id afterwards returns what the update returned. */
  lemma {:induction false} UpdateThenGet(c: Collection, id: string, u: GenreUpdate, now: int)
    requires IsObjectIdHex(id) && u.name.Some?
    requires ParseObjectId(id).value in c && Decode(c[ParseObjectId(id).value]).Some?
    ensures UpdateGenre(c, id, u, now).1.Success?
    ensures GetGenreByID(UpdateGenre(c, id, u, now).0, id) == UpdateGenre(c, id, u, now).1
  {
    MergeAt(c, ParseObjectId(id).value, u.name.value, now);
  }

  /** A deleted genre is gone: fetching it again is not-found. */
  lemma {:induction false} DeleteThenGet(c: Collection, id: string)
    requires DeleteGenre(c, id).1.Success?
    ensures GetGenreByID(DeleteGenre(c, id).0, id) == Failure(Sentinel(ErrGenreNotFound))
  {
  }

  /** Emptiness is checked first: an update without a name is refused as
      such even when the id is malformed too. */
  lemma {:induction false} EmptyBeforeId(c: Collection, id: string, now: int)
    requires !IsObjectIdHex(id)
    ensures UpdateGenre(c, id, GenreUpdate(None), now).1 == Failure(Sentinel(ErrNoGenreUpdateData))
  {
  }
}
