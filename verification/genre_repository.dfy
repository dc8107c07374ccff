/** The genre collection. `Create` fills in a missing id itself and
    `Update` wraps the caller's fields in `$set`. */
module GenreRepository {
  import opened Wrappers
  import opened ObjectIds
  import opened Bson
  import opened DocumentStore
  import opened GenreModel
  import Repository

  method FindAll(c: Collection, f: Filter, m: Matcher) returns (r: Result<seq<Genre>, StoreError>)
    ensures r.Success? <==> forall k :: k in MatchingKeys(c, f, m) ==> Decode(c[k]).Some?
    ensures r.Failure? ==> r.error == DecodeFailure
    ensures r.Success? ==> |r.value| == |MatchingKeys(c, f, m)|
    ensures r.Success? ==> forall g :: g in r.value ==> exists k :: k in MatchingKeys(c, f, m) && Decode(c[k]) == Some(g)
    ensures r.Success? ==> forall k :: k in MatchingKeys(c, f, m) ==> Decode(c[k]).value in r.value
  {
    r := Repository.FindAll(c, f, m, Decode);
  }

  function FindByID(c: Collection, id: ObjectId): (r: Result<Option<Genre>, StoreError>)
    ensures id !in c ==> r == Success(None)
    ensures id in c && Decode(c[id]).Some? ==> r == Success(Decode(c[id]))
    ensures id in c && Decode(c[id]).None? ==> r == Failure(DecodeFailure)
  {
    Repository.FindByID(c, id, Decode)
  }

  /** A zero id is replaced by a new one before the insert; a client-chosen
      id is kept. The record with its final id is what the caller sees. */
  function Create(c: Collection, g: Genre, newId: FreshId): (r: Result<(Collection, Genre), StoreError>)
    ensures var key := if g.id == Zero then newId else g.id;
      && (r.Failure? <==> key in c)
      && (r.Failure? ==> r.error == DuplicateKey(key))
      && (r.Success? ==> var (c', stored) := r.value;
                         && stored == g.(id := key)
                         && c'.Keys == c.Keys + {key}
                         && (forall k :: k in c ==> c'[k] == c[k])
                         && Decode(c'[key]) == Some(stored))
    ensures WellKeyed(c) && r.Success? ==> WellKeyed(r.value.0)
  {
    var stored := if g.id == Zero then g.(id := newId) else g;
    match InsertOne(c, Encode(stored), newId)
    case Failure(e) => Failure(e)
    case Success((c', key)) =>
      assert c'[key] == Encode(stored);
      DecodeEncode(stored);
      Success((c', stored))
  }

  /** The fields are wrapped as `{"$set": fields}` here. */
  function Update(c: Collection, id: ObjectId, fields: Doc): (r: (Collection, Result<Option<Genre>, StoreError>))
    ensures (exists k :: k in fields && !PlainField(k)) ==> r == (c, Failure(UnsupportedFieldPath))
    ensures (forall k :: k in fields ==> PlainField(k)) && id !in c ==> r == (c, Success(None))
    ensures (forall k :: k in fields ==> PlainField(k)) && id in c && "_id" in fields && fields["_id"] != VId(id) ==>
      r == (c, Failure(ImmutableId))
    ensures (forall k :: k in fields ==> PlainField(k)) && id in c && ("_id" in fields ==> fields["_id"] == VId(id)) ==>
      var after := c[id] + fields;
      && r.0 == c[id := after]
      && r.1 == (if Decode(after).Some? then Success(Decode(after)) else Failure(DecodeFailure))
    ensures WellKeyed(c) ==> WellKeyed(r.0)
  {
    SetDocAccepted(fields);
    Repository.Update(c, id, SetDoc(fields), Decode)
  }

  function Delete(c: Collection, id: ObjectId): (r: (Collection, Result<Option<Genre>, StoreError>))
    ensures r.0 == c - {id}
    ensures id !in c ==> r.1 == Success(None)
    ensures id in c && Decode(c[id]).Some? ==> r.1 == Success(Decode(c[id]))
    ensures id in c && Decode(c[id]).None? ==> r.1 == Failure(DecodeFailure)
  {
    Repository.Delete(c, id, Decode)
  }
}
