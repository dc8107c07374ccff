/** Publisher business rules: the id is parsed before anything else, an
    update needs a name, and the service stamps id and times. */
module PublisherService {
  import opened Wrappers
  import opened ObjectIds
  import opened Bson
  import opened DocumentStore
  import opened PublisherModel
  import opened ServiceCommon
  import PublisherRepository

  method GetPublishers(c: Collection, name: string, m: Matcher) returns (r: Result<seq<Publisher>, Error>)
    ensures var keys := MatchingKeys(c, NameFilter("name", name), m);
      && (r.Success? <==> forall k :: k in keys ==> Decode(c[k]).Some?)
      && (r.Failure? ==> r.error == Storage(DecodeFailure))
      && (r.Success? ==> |r.value| == |keys|
                         && (forall x :: x in r.value ==> exists k :: k in keys && Decode(c[k]) == Some(x))
                         && (forall k :: k in keys ==> Decode(c[k]).value in r.value))
  {
    var found := PublisherRepository.FindAll(c, NameFilter("name", name), m);
    r := if found.Success? then Success(found.value) else Failure(Storage(found.error));
  }

  function GetPublisherByID(c: Collection, id: string): (r: Result<Publisher, Error>)
    ensures !IsObjectIdHex(id) ==> r == Failure(Sentinel(ErrInvalidPublisherID))
    ensures IsObjectIdHex(id) ==> var key := ParseObjectId(id).value;
      && (key !in c ==> r == Failure(Sentinel(ErrPublisherNotFound)))
      && (key in c && Decode(c[key]).Some? ==> r == Success(Decode(c[key]).value))
      && (key in c && Decode(c[key]).None? ==> r == Failure(Storage(DecodeFailure)))
  {
    match ParseObjectId(id)
    case None => Failure(Sentinel(ErrInvalidPublisherID))
    case Some(key) =>
      match PublisherRepository.FindByID(c, key)
      case Failure(e) => Failure(Storage(e))
      case Success(None) => Failure(Sentinel(ErrPublisherNotFound))
      case Success(Some(x)) => Success(x)
  }

  /** The publisher as the service hands it to the repository. */
  function Stamped(x: Publisher, newId: FreshId, now: int): Publisher {
    x.(id := newId, createdAt := now, updatedAt := now)
  }

  /** Overwrites id and both timestamps whatever the client sent, then
      inserts; the stamped publisher is what the caller sees afterwards. */
  function CreatePublisher(c: Collection, x: Publisher, newId: FreshId, now: int): (r: Result<(Collection, Publisher), Error>)
    ensures r.Failure? <==> newId in c
    ensures r.Failure? ==> r.error == Storage(DuplicateKey(newId))
    ensures r.Success? ==> var (c', stored) := r.value;
      && stored.id == newId && stored.createdAt == now && stored.updatedAt == now
      && stored.name == x.name
      && c'.Keys == c.Keys + {newId}
      && (forall k :: k in c ==> c'[k] == c[k])
      && Decode(c'[newId]) == Some(stored)
    ensures WellKeyed(c) && r.Success? ==> WellKeyed(r.value.0)
  {
    var stored := Stamped(x, newId, now);
    match PublisherRepository.Create(c, stored, newId)
    case Failure(e) => Failure(Storage(e))
    case Success(c') => Success((c', stored))
  }

  /** The `$set` fields: `updatedAt` always, and each field the client sent. */
  function Patch(u: PublisherUpdate, now: int): (d: Doc)
    ensures d.Keys == {"updatedAt"} + (if u.name.Some? then {"name"} else {})
    ensures d["updatedAt"] == VTime(now)
    ensures u.name.Some? ==> d["name"] == VStr(u.name.value)
  {
    var d := map["updatedAt" := VTime(now)];
    if u.name.Some? then d["name" := VStr(u.name.value)] else d
  }

  /** What an update means for a stored publisher: a sent name replaces the
      old one, `updatedAt` moves to now, everything else stays. */
  function Apply(x: Publisher, u: PublisherUpdate, now: int): Publisher {
    x.(name := u.name.GetOr(x.name), updatedAt := now)
  }

  /** Setting the patch fields on a stored publisher's document yields the
      document of `Apply`. */
  lemma MergePatch(d: Doc, u: PublisherUpdate, now: int)
    requires Decode(d).Some?
    ensures Decode(d + Patch(u, now)) == Some(Apply(Decode(d).value, u, now))
  {
  }

  /** `{"$set": patch}` passes the server's update-document checks and
      leaves `_id` alone. */
  lemma PatchIsSetDocument(u: PublisherUpdate, now: int)
    ensures UpdateDocProblem(SetDoc(Patch(u, now))).None?
    ensures "_id" !in Patch(u, now)
  {
    var d := Patch(u, now);
    forall k | k in d
      ensures PlainField(k)
    {
      PlainKey(k);
    }
    SetDocAccepted(d);
  }

  lemma PlainKey(k: string)
    requires k in {"updatedAt", "name"}
    ensures PlainField(k)
  {
  }

  lemma MergeAt(c: Collection, key: ObjectId, u: PublisherUpdate, now: int)
    ensures key in c && Decode(c[key]).Some? ==>
      Decode(c[key] + Patch(u, now)) == Some(Apply(Decode(c[key]).value, u, now))
  {
    if key in c && Decode(c[key]).Some? {
      MergePatch(c[key], u, now);
    }
  }

  function UpdatePublisher(c: Collection, id: string, u: PublisherUpdate, now: int): (r: (Collection, Result<Publisher, Error>))
    ensures !IsObjectIdHex(id) ==> r == (c, Failure(Sentinel(ErrInvalidPublisherID)))
    ensures IsObjectIdHex(id) && u.name.None? ==> r == (c, Failure(Sentinel(ErrNoPublisherUpdateData)))
    ensures IsObjectIdHex(id) && u.name.Some? ==> var key := ParseObjectId(id).value;
      && (key !in c ==> r == (c, Failure(Sentinel(ErrPublisherNotFound))))
      && (key in c ==> r.0 == c[key := c[key] + Patch(u, now)])
      && (key in c && Decode(c[key]).Some? ==> r.1 == Success(Apply(Decode(c[key]).value, u, now)))
      && (key in c && r.1.Failure? ==> r.1 == Failure(Storage(DecodeFailure)))
    ensures WellKeyed(c) ==> WellKeyed(r.0)
  {
    match ParseObjectId(id)
    case None => (c, Failure(Sentinel(ErrInvalidPublisherID)))
    case Some(key) =>
      if u.name.None? then (c, Failure(Sentinel(ErrNoPublisherUpdateData)))
      else
        PatchIsSetDocument(u, now);
        MergeAt(c, key, u, now);
        var patch := Patch(u, now);
        var (c', found) := PublisherRepository.Update(c, key, SetDoc(patch));
        match found
        case Failure(e) => (c', Failure(Storage(e)))
        case Success(None) => (c', Failure(Sentinel(ErrPublisherNotFound)))
        case Success(Some(x)) => (c', Success(x))
  }

  function DeletePublisher(c: Collection, id: string): (r: (Collection, Result<Publisher, Error>))
    ensures !IsObjectIdHex(id) ==> r == (c, Failure(Sentinel(ErrInvalidPublisherID)))
    ensures IsObjectIdHex(id) ==> var key := ParseObjectId(id).value;
      && r.0 == c - {key}
      && (key !in c ==> r.1 == Failure(Sentinel(ErrPublisherNotFound)))
      && (key in c && Decode(c[key]).Some? ==> r.1 == Success(Decode(c[key]).value))
      && (key in c && Decode(c[key]).None? ==> r.1 == Failure(Storage(DecodeFailure)))
  {
    match ParseObjectId(id)
    case None => (c, Failure(Sentinel(ErrInvalidPublisherID)))
    case Some(key) =>
      var (c', found) := PublisherRepository.Delete(c, key);
      match found
      case Failure(e) => (c', Failure(Storage(e)))
      case Success(None) => (c', Failure(Sentinel(ErrPublisherNotFound)))
      case Success(Some(x)) => (c', Success(x))
  }

  /** A created publisher can be fetched by the hex form of its new id. */
  lemma {:induction false} CreateThenGet(c: Collection, x: Publisher, newId: FreshId, now: int)
    requires CreatePublisher(c, x, newId, now).Success?
    ensures var (c', stored) := CreatePublisher(c, x, newId, now).value;
      GetPublisherByID(c', Hex(newId)) == Success(stored)
  {
    ParseHexRoundTrip(newId);
  }

  /** Updating a stored, readable publisher with at least one field succeeds,
      and fetching the same id afterwards returns what the update returned. */
  lemma {:induction false} UpdateThenGet(c: Collection, id: string, u: PublisherUpdate, now: int)
    requires IsObjectIdHex(id) && u.name.Some?
    requires ParseObjectId(id).value in c && Decode(c[ParseObjectId(id).value]).Some?
    ensures UpdatePublisher(c, id, u, now).1.Success?
    ensures GetPublisherByID(UpdatePublisher(c, id, u, now).0, id) == UpdatePublisher(c, id, u, now).1
  {
    MergeAt(c, ParseObjectId(id).value, u, now);
  }

  /** A deleted publisher is gone: fetching it again is not-found. */
  lemma {:induction false} DeleteThenGet(c: Collection, id: string)
    requires DeletePublisher(c, id).1.Success?
    ensures GetPublisherByID(DeletePublisher(c, id).0, id) == Failure(Sentinel(ErrPublisherNotFound))
  {
  }

  /** The repository does not wrap: handing it the bare field map instead of
      `{"$set": …}` is refused by the server and changes nothing. */
  lemma {:induction false} RepositoryTakesUpdateVerbatim(c: Collection, key: ObjectId, u: PublisherUpdate, now: int)
    ensures PublisherRepository.Update(c, key, Patch(u, now)) == (c, Failure(NotAnUpdateDocument))
  {
    var patch := Patch(u, now);
    assert "updatedAt" in patch && !IsOperator("updatedAt");
  }
}
