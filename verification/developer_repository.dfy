/** The developer collection. `Create` inserts the record as given and
    `Update` hands the caller's update document to the server unchanged. */
module DeveloperRepository {
  import opened Wrappers
  import opened ObjectIds
  import opened Bson
  import opened DocumentStore
  import opened DeveloperModel
  import Repository

  method FindAll(c: Collection, f: Filter, m: Matcher) returns (r: Result<seq<Developer>, StoreError>)
    ensures r.Success? <==> forall k :: k in MatchingKeys(c, f, m) ==> Decode(c[k]).Some?
    ensures r.Failure? ==> r.error == DecodeFailure
    ensures r.Success? ==> |r.value| == |MatchingKeys(c, f, m)|
    ensures r.Success? ==> forall x :: x in r.value ==> exists k :: k in MatchingKeys(c, f, m) && Decode(c[k]) == Some(x)
    ensures r.Success? ==> forall k :: k in MatchingKeys(c, f, m) ==> Decode(c[k]).value in r.value
  {
    r := Repository.FindAll(c, f, m, Decode);
  }

  function FindByID(c: Collection, id: ObjectId): (r: Result<Option<Developer>, StoreError>)
    ensures id !in c ==> r == Success(None)
    ensures id in c && Decode(c[id]).Some? ==> r == Success(Decode(c[id]))
    ensures id in c && Decode(c[id]).None? ==> r == Failure(DecodeFailure)
  {
    Repository.FindByID(c, id, Decode)
  }

  /** Stores the developer under its own id, or under the driver's id when
      the id is zero; no field is filled in here. */
  function Create(c: Collection, x: Developer, generated: FreshId): (r: Result<Collection, StoreError>)
    ensures var key := if x.id == Zero then generated else x.id;
      && (r.Failure? <==> key in c)
      && (r.Failure? ==> r.error == DuplicateKey(key))
      && (r.Success? ==> r.value.Keys == c.Keys + {key}
                         && (forall k :: k in c ==> r.value[k] == c[k])
                         && Decode(r.value[key]) == Some(x.(id := key)))
    ensures WellKeyed(c) && r.Success? ==> WellKeyed(r.value)
  {
    match InsertOne(c, Encode(x), generated)
    case Failure(e) => Failure(e)
    case Success((c', key)) =>
      assert c'[key] == Encode(x.(id := key));
      DecodeEncode(x.(id := key));
      Success(c')
  }

  /** The update document goes to the server verbatim. */
  function Update(c: Collection, id: ObjectId, u: Doc): (r: (Collection, Result<Option<Developer>, StoreError>))
    ensures UpdateDocProblem(u).Some? ==> r == (c, Failure(UpdateDocProblem(u).value))
    ensures UpdateDocProblem(u).None? && id !in c ==> r == (c, Success(None))
    ensures UpdateDocProblem(u).None? && id in c && "_id" in u["$set"].fields && u["$set"].fields["_id"] != VId(id) ==>
      r == (c, Failure(ImmutableId))
    ensures UpdateDocProblem(u).None? && id in c && ("_id" in u["$set"].fields ==> u["$set"].fields["_id"] == VId(id)) ==>
      var after := c[id] + u["$set"].fields;
      && r.0 == c[id := after]
      && r.1 == (if Decode(after).Some? then Success(Decode(after)) else Failure(DecodeFailure))
    ensures WellKeyed(c) ==> WellKeyed(r.0)
  {
    Repository.Update(c, id, u, Decode)
  }

  function Delete(c: Collection, id: ObjectId): (r: (Collection, Result<Option<Developer>, StoreError>))
    ensures r.0 == c - {id}
    ensures id !in c ==> r.1 == Success(None)
    ensures id in c && Decode(c[id]).Some? ==> r.1 == Success(Decode(c[id]))
    ensures id in c && Decode(c[id]).None? ==> r.1 == Failure(DecodeFailure)
  {
    Repository.Delete(c, id, Decode)
  }
}
