/** The pattern every repository repeats around one collection: a missing
    document is `Success(None)` (Go's `(nil, nil)`), a document the struct
    cannot hold is a decode error, and other driver errors pass through. */
module Repository {
  import opened Wrappers
  import opened ObjectIds
  import opened Bson
  import opened DocumentStore

  /** `Find` followed by `cursor.All`: the decoded matching documents, in the
      order the server returned them. */
  method FindAll<T>(c: Collection, f: Filter, m: Matcher, decode: Doc -> Option<T>) returns (r: Result<seq<T>, StoreError>)
    ensures r.Success? <==> forall k :: k in MatchingKeys(c, f, m) ==> decode(c[k]).Some?
    ensures r.Failure? ==> r.error == DecodeFailure
    ensures r.Success? ==> |r.value| == |MatchingKeys(c, f, m)|
    ensures r.Success? ==> forall x :: x in r.value ==> exists k :: k in MatchingKeys(c, f, m) && decode(c[k]) == Some(x)
    ensures r.Success? ==> forall k :: k in MatchingKeys(c, f, m) ==> decode(c[k]).value in r.value
  {
    var ids := Find(c, f, m);
    var docs := seq(|ids|, i requires 0 <= i < |ids| => c[ids[i]]);
    var decoded := DecodeAll(docs, decode);
    if decoded.Some? {
      r := Success(decoded.value);
      forall k | k in MatchingKeys(c, f, m)
        ensures decode(c[k]).Some? && decode(c[k]).value in r.value
      {
        var i :| 0 <= i < |ids| && ids[i] == k;
        assert decode(docs[i]) == Some(r.value[i]);
      }
      forall x | x in r.value
        ensures exists k :: k in MatchingKeys(c, f, m) && decode(c[k]) == Some(x)
      {
        var i :| 0 <= i < |r.value| && r.value[i] == x;
        assert decode(c[ids[i]]) == Some(x);
      }
    } else {
      r := Failure(DecodeFailure);
      var i :| 0 <= i < |docs| && decode(docs[i]).None?;
      assert ids[i] in MatchingKeys(c, f, m);
    }
  }

  function FindByID<T>(c: Collection, id: ObjectId, decode: Doc -> Option<T>): (r: Result<Option<T>, StoreError>)
    ensures id !in c ==> r == Success(None)
    ensures id in c && decode(c[id]).Some? ==> r == Success(decode(c[id]))
    ensures id in c && decode(c[id]).None? ==> r == Failure(DecodeFailure)
  {
    match FindOne(c, id)
    case None => Success(None)
    case Some(d) => if decode(d).Some? then Success(decode(d)) else Failure(DecodeFailure)
  }

  /** `FindOneAndUpdate` with the document given, returning the image after
      the update. A decode failure is reported after the write has happened. */
  function Update<T>(c: Collection, id: ObjectId, u: Doc, decode: Doc -> Option<T>): (r: (Collection, Result<Option<T>, StoreError>))
    ensures UpdateDocProblem(u).Some? ==> r == (c, Failure(UpdateDocProblem(u).value))
    ensures UpdateDocProblem(u).None? && id !in c ==> r == (c, Success(None))
    ensures r.1.Success? && r.1.value.None? ==> r.0 == c && id !in c
    ensures UpdateDocProblem(u).None? && id in c && "_id" in u["$set"].fields && u["$set"].fields["_id"] != VId(id) ==>
      r == (c, Failure(ImmutableId))
    ensures UpdateDocProblem(u).None? && id in c && ("_id" in u["$set"].fields ==> u["$set"].fields["_id"] == VId(id)) ==>
      var after := c[id] + u["$set"].fields;
      && r.0 == c[id := after]
      && r.1 == (if decode(after).Some? then Success(decode(after)) else Failure(DecodeFailure))
    ensures WellKeyed(c) ==> WellKeyed(r.0)
  {
    match FindOneAndUpdate(c, id, u)
    case Failure(e) => (c, Failure(e))
    case Success((c', None)) => (c', Success(None))
    case Success((c', Some(d))) => (c', if decode(d).Some? then Success(decode(d)) else Failure(DecodeFailure))
  }

  /** `FindOneAndDelete`: the removed document, decoded; other documents
      are untouched. */
  function Delete<T>(c: Collection, id: ObjectId, decode: Doc -> Option<T>): (r: (Collection, Result<Option<T>, StoreError>))
    ensures r.0 == c - {id}
    ensures id !in c ==> r.1 == Success(None)
    ensures id in c && decode(c[id]).Some? ==> r.1 == Success(decode(c[id]))
    ensures id in c && decode(c[id]).None? ==> r.1 == Failure(DecodeFailure)
  {
    match FindOneAndDelete(c, id)
    case (c', None) => (c', Success(None))
    case (c', Some(d)) => (c', if decode(d).Some? then Success(decode(d)) else Failure(DecodeFailure))
  }
}
