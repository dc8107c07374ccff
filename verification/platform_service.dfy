/** Platform business rules: the id is parsed before anything else, an
    update needs at least one field, and the service stamps id and times. */
module PlatformService {
  import opened Wrappers
  import opened ObjectIds
  import opened Bson
  import opened DocumentStore
  import opened PlatformModel
  import opened ServiceCommon
  import PlatformRepository

  method GetPlatforms(c: Collection, name: string, m: Matcher) returns (r: Result<seq<Platform>, Error>)
    ensures var keys := MatchingKeys(c, NameFilter("name", name), m);
      && (r.Success? <==> forall k :: k in keys ==> Decode(c[k]).Some?)
      && (r.Failure? ==> r.error == Storage(DecodeFailure))
      && (r.Success? ==> |r.value| == |keys|
                         && (forall p :: p in r.value ==> exists k :: k in keys && Decode(c[k]) == Some(p))
                         && (forall k :: k in keys ==> Decode(c[k]).value in r.value))
  {
    var found := PlatformRepository.FindAll(c, NameFilter("name", name), m);
    r := if found.Success? then Success(found.value) else Failure(Storage(found.error));
  }

  function GetPlatformByID(c: Collection, id: string): (r: Result<Platform, Error>)
    ensures !IsObjectIdHex(id) ==> r == Failure(Sentinel(ErrInvalidID))
    ensures IsObjectIdHex(id) ==> var key := ParseObjectId(id).value;
      && (key !in c ==> r == Failure(Sentinel(ErrPlatformNotFound)))
      && (key in c && Decode(c[key]).Some? ==> r == Success(Decode(c[key]).value))
      && (key in c && Decode(c[key]).None? ==> r == Failure(Storage(DecodeFailure)))
  {
    match ParseObjectId(id)
    case None => Failure(Sentinel(ErrInvalidID))
    case Some(key) =>
      match PlatformRepository.FindByID(c, key)
      case Failure(e) => Failure(Storage(e))
      case Success(None) => Failure(Sentinel(ErrPlatformNotFound))
      case Success(Some(p)) => Success(p)
  }

  /** The platform as the service hands it to the repository. */
  function Stamped(p: Platform, newId: FreshId, now: int): Platform {
    p.(id := newId, createdAt := now, updatedAt := now)
  }

  /** Overwrites id and both timestamps whatever the client sent, then
      inserts; the stamped platform is what the caller sees afterwards. */
  function CreatePlatform(c: Collection, p: Platform, newId: FreshId, now: int): (r: Result<(Collection, Platform), Error>)
    ensures r.Failure? <==> newId in c
    ensures r.Failure? ==> r.error == Storage(DuplicateKey(newId))
    ensures r.Success? ==> var (c', stored) := r.value;
      && stored.id == newId && stored.createdAt == now && stored.updatedAt == now
      && stored.name == p.name && stored.manufacturer == p.manufacturer
      && c'.Keys == c.Keys + {newId}
      && (forall k :: k in c ==> c'[k] == c[k])
      && Decode(c'[newId]) == Some(stored)
    ensures WellKeyed(c) && r.Success? ==> WellKeyed(r.value.0)
  {
    var stored := Stamped(p, newId, now);
    match PlatformRepository.Create(c, stored, newId)
    case Failure(e) => Failure(Storage(e))
    case Success(c') => Success((c', stored))
  }

  /** The `$set` fields: `updatedAt` always, and each field the client sent. */
  function Patch(u: PlatformUpdate, now: int): (d: Doc)
    ensures d.Keys == {"updatedAt"} + (if u.name.Some? then {"name"} else {})
                     + (if u.manufacturer.Some? then {"manufacturer"} else {})
    ensures d["updatedAt"] == VTime(now)
    ensures u.name.Some? ==> d["name"] == VStr(u.name.value)
    ensures u.manufacturer.Some? ==> d["manufacturer"] == VStr(u.manufacturer.value)
  {
    var d := map["updatedAt" := VTime(now)];
    var d := if u.name.Some? then d["name" := VStr(u.name.value)] else d;
    if u.manufacturer.Some? then d["manufacturer" := VStr(u.manufacturer.value)] else d
  }

  /** What an update means for a stored platform: sent fields replace the
      old ones, `updatedAt` moves to now, everything else stays. */
  function Apply(p: Platform, u: PlatformUpdate, now: int): Platform {
    p.(name := u.name.GetOr(p.name), manufacturer := u.manufacturer.GetOr(p.manufacturer), updatedAt := now)
  }

  /** Setting the patch fields on a stored platform's document yields the
      document of `Apply`. */
  lemma MergePatch(d: Doc, u: PlatformUpdate, now: int)
    requires Decode(d).Some?
    ensures Decode(d + Patch(u, now)) == Some(Apply(Decode(d).value, u, now))
  {
  }

  /** `{"$set": patch}` passes the server's update-document checks and
      leaves `_id` alone. */
  lemma PatchIsSetDocument(u: PlatformUpdate, now: int)
    ensures UpdateDocProblem(SetDoc(Patch(u, now))).None?
    ensures "_id" !in Patch(u, now)
  {
    var d := Patch(u, now);
    forall k | k in d
      ensures PlainField(k)
    {
      PlainKey(k);
    }
    SetDocAccepted(d);
  }

  lemma PlainKey(k: string)
    requires k in {"updatedAt", "name", "manufacturer"}
    ensures PlainField(k)
  {
  }

  lemma MergeAt(c: Collection, key: ObjectId, u: PlatformUpdate, now: int)
    ensures key in c && Decode(c[key]).Some? ==>
      Decode(c[key] + Patch(u, now)) == Some(Apply(Decode(c[key]).value, u, now))
  {
    if key in c && Decode(c[key]).Some? {
      MergePatch(c[key], u, now);
    }
  }

  function UpdatePlatform(c: Collection, id: string, u: PlatformUpdate, now: int): (r: (Collection, Result<Platform, Error>))
    ensures !IsObjectIdHex(id) ==> r == (c, Failure(Sentinel(ErrInvalidID)))
    ensures IsObjectIdHex(id) && u.name.None? && u.manufacturer.None? ==> r == (c, Failure(Sentinel(ErrNoUpdateData)))
    ensures IsObjectIdHex(id) && (u.name.Some? || u.manufacturer.Some?) ==> var key := ParseObjectId(id).value;
      && (key !in c ==> r == (c, Failure(Sentinel(ErrPlatformNotFound))))
      && (key in c ==> r.0 == c[key := c[key] + Patch(u, now)])
      && (key in c && Decode(c[key]).Some? ==> r.1 == Success(Apply(Decode(c[key]).value, u, now)))
      && (key in c && r.1.Failure? ==> r.1 == Failure(Storage(DecodeFailure)))
    ensures WellKeyed(c) ==> WellKeyed(r.0)
  {
    match ParseObjectId(id)
    case None => (c, Failure(Sentinel(ErrInvalidID)))
    case Some(key) =>
      if u.name.None? && u.manufacturer.None? then (c, Failure(Sentinel(ErrNoUpdateData)))
      else
        PatchIsSetDocument(u, now);
        MergeAt(c, key, u, now);
        var patch := Patch(u, now);
        var (c', found) := PlatformRepository.Update(c, key, SetDoc(patch));
        match found
        case Failure(e) => (c', Failure(Storage(e)))
        case Success(None) => (c', Failure(Sentinel(ErrPlatformNotFound)))
        case Success(Some(p)) => (c', Success(p))
  }

  function DeletePlatform(c: Collection, id: string): (r: (Collection, Result<Platform, Error>))
    ensures !IsObjectIdHex(id) ==> r == (c, Failure(Sentinel(ErrInvalidID)))
    ensures IsObjectIdHex(id) ==> var key := ParseObjectId(id).value;
      && r.0 == c - {key}
      && (key !in c ==> r.1 == Failure(Sentinel(ErrPlatformNotFound)))
      && (key in c && Decode(c[key]).Some? ==> r.1 == Success(Decode(c[key]).value))
      && (key in c && Decode(c[key]).None? ==> r.1 == Failure(Storage(DecodeFailure)))
  {
    match ParseObjectId(id)
    case None => (c, Failure(Sentinel(ErrInvalidID)))
    case Some(key) =>
      var (c', found) := PlatformRepository.Delete(c, key);
      match found
      case Failure(e) => (c', Failure(Storage(e)))
      case Success(None) => (c', Failure(Sentinel(ErrPlatformNotFound)))
      case Success(Some(p)) => (c', Success(p))
  }

  /** A created platform can be fetched by the hex form of its new id. */
  lemma {:induction false} CreateThenGet(c: Collection, p: Platform, newId: FreshId, now: int)
    requires CreatePlatform(c, p, newId, now).Success?
    ensures var (c', stored) := CreatePlatform(c, p, newId, now).value;
      GetPlatformByID(c', Hex(newId)) == Success(stored)
  {
    ParseHexRoundTrip(newId);
  }

  /** Updating a stored, readable platform with at least one field succeeds,
      and fetching the same id afterwards returns what the update returned. */
  lemma {:induction false} UpdateThenGet(c: Collection, id: string, u: PlatformUpdate, now: int)
    requires IsObjectIdHex(id) && (u.name.Some? || u.manufacturer.Some?)
    requires ParseObjectId(id).value in c && Decode(c[ParseObjectId(id).value]).Some?
    ensures UpdatePlatform(c, id, u, now).1.Success?
    ensures GetPlatformByID(UpdatePlatform(c, id, u, now).0, id) == UpdatePlatform(c, id, u, now).1
  {
    MergeAt(c, ParseObjectId(id).value, u, now);
  }

  /** A deleted platform is gone: fetching it again is not-found. */
  lemma {:induction false} DeleteThenGet(c: Collection, id: string)
    requires DeletePlatform(c, id).1.Success?
    ensures GetPlatformByID(DeletePlatform(c, id).0, id) == Failure(Sentinel(ErrPlatformNotFound))
  {
  }

  /** The repository does not wrap: handing it the bare field map instead of
      `{"$set": …}` is refused by the server and changes nothing. */
  lemma {:induction false} RepositoryTakesUpdateVerbatim(c: Collection, key: ObjectId, u: PlatformUpdate, now: int)
    ensures PlatformRepository.Update(c, key, Patch(u, now)) == (c, Failure(NotAnUpdateDocument))
  {
    var patch := Patch(u, now);
    assert "updatedAt" in patch && !IsOperator("updatedAt");
  }
}
