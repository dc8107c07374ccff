/** An in-memory stand-in for one MongoDB collection, keyed by `_id`, with the
    five driver calls the repositories make: `Find`, `FindOne`, `InsertOne`,
    `FindOneAndUpdate` (returning the document after the update) and
    `FindOneAndDelete` (returning the removed document). */
module DocumentStore {
  import opened Wrappers
  import opened ObjectIds
  import opened Bson

  type Collection = map<ObjectId, Doc>

  datatype StoreError =
    | DuplicateKey(id: ObjectId)     // insert of an `_id` already present
    | IdNotObjectId                  // inserted `_id` of another kind
    | EmptyUpdate                    // update document with no element
    | NotAnUpdateDocument            // a top-level key that is not an operator
    | UnsupportedOperator            // an operator other than `$set`
    | SetOperandNotDocument          // `$set` applied to a non-document
    | UnsupportedFieldPath           // `$set` key that is `$`-prefixed or dotted
    | ImmutableId                    // `$set` would change `_id`
    | DecodeFailure                  // stored document does not fit the struct

  /** The query filters the services build: everything, or a `$regex` on one
      field with options. */
  datatype Filter = All | Regex(field: string, pattern: string, options: string)

  /** The server's regular-expression engine, as (pattern, options, subject). */
  type Matcher = (string, string, string) -> bool

  /** `$regex` against one field value: a string matches by the engine; an
      array matches when one of its string elements does; no other kind
      matches. */
  predicate RegexHits(v: Value, p: string, o: string, m: Matcher) {
    match v
    case VStr(s) => m(p, o, s)
    case VArr(items) => exists i :: 0 <= i < |items| && items[i].VStr? && m(p, o, items[i].s)
    case _ => false
  }

  predicate Matches(d: Doc, f: Filter, m: Matcher) {
    match f
    case All => true
    case Regex(field, p, o) => field in d && RegexHits(d[field], p, o, m)
  }

  ghost function MatchingKeys(c: Collection, f: Filter, m: Matcher): set<ObjectId> {
    set k | k in c && Matches(c[k], f, m)
  }

  /** Every stored document carries its own key as `_id`. */
  ghost predicate WellKeyed(c: Collection) {
    forall k :: k in c ==> "_id" in c[k] && c[k]["_id"] == VId(k)
  }

  predicate IsOperator(k: string) {
    |k| > 0 && k[0] == '$'
  }

  predicate IsDotted(k: string) {
    '.' in k
  }

  /** A `$set` field name the model applies as one top-level field. The
      server refuses an empty name; `$`-prefixed names and dotted paths are
      outside the model and refused as well. */
  predicate PlainField(k: string) {
    k != "" && !IsOperator(k) && !IsDotted(k)
  }

  /** The update document `{"$set": fields}`. */
  function SetDoc(fields: Doc): (u: Doc)
    ensures u.Keys == {"$set"}
    ensures u["$set"] == VObj(fields)
  {
    map["$set" := VObj(fields)]
  }

  /** `InsertOne`: a document without `_id` gets the driver-generated id; the
      key must be new. */
  function InsertOne(c: Collection, d: Doc, generated: FreshId): (r: Result<(Collection, ObjectId), StoreError>)
    ensures "_id" in d && !d["_id"].VId? ==> r == Failure(IdNotObjectId)
    ensures r.Success? ==> var (c', key) := r.value;
      && key !in c
      && ("_id" in d ==> d["_id"] == VId(key))
      && ("_id" !in d ==> key == generated)
      && c' == c[key := d["_id" := VId(key)]]
    ensures r.Failure? && r != Failure(IdNotObjectId) ==> var key := if "_id" in d then d["_id"].id else generated;
      key in c && r == Failure(DuplicateKey(key))
    ensures WellKeyed(c) && r.Success? ==> WellKeyed(r.value.0)
  {
    if "_id" in d && !d["_id"].VId? then Failure(IdNotObjectId)
    else
      var key := if "_id" in d then d["_id"].id else generated;
      if key in c then Failure(DuplicateKey(key))
      else Success((c[key := d["_id" := VId(key)]], key))
  }

  function FindOne(c: Collection, id: ObjectId): (r: Option<Doc>)
    ensures r.Some? <==> id in c
    ensures r.Some? ==> r.value == c[id]
  {
    if id in c then Some(c[id]) else None
  }

  /** Why an update document is refused before any document is looked at. */
  function UpdateDocProblem(u: Doc): (r: Option<StoreError>)
    ensures r.None? <==> u.Keys == {"$set"} && u["$set"].VObj?
                         && forall k :: k in u["$set"].fields ==> PlainField(k)
  {
    if |u| == 0 then Some(EmptyUpdate)
    else if exists k :: k in u && !IsOperator(k) then Some(NotAnUpdateDocument)
    else if u.Keys != {"$set"} then Some(UnsupportedOperator)
    else if !u["$set"].VObj? then Some(SetOperandNotDocument)
    else if exists k :: k in u["$set"].fields && !PlainField(k) then Some(UnsupportedFieldPath)
    else None
  }

  /** `{"$set": fields}` is accepted exactly when every field name is plain. */
  lemma SetDocAccepted(fields: Doc)
    ensures UpdateDocProblem(SetDoc(fields)).None? <==> forall k :: k in fields ==> PlainField(k)
  {
  }

  /** `FindOneAndUpdate` with `ReturnDocument(After)`: `$set` overwrites the
      named top-level fields, keeps every other field, and returns the new
      image; an absent key is not an error but yields no document. */
  function FindOneAndUpdate(c: Collection, id: ObjectId, u: Doc): (r: Result<(Collection, Option<Doc>), StoreError>)
    ensures UpdateDocProblem(u).Some? ==> r == Failure(UpdateDocProblem(u).value)
    ensures UpdateDocProblem(u).None? && id !in c ==> r == Success((c, None))
    ensures r.Success? && r.value.1.Some? ==>
      && id in c
      && r.value.1.value == c[id] + u["$set"].fields
      && r.value.0 == c[id := r.value.1.value]
    ensures r.Success? && r.value.1.None? ==> r.value.0 == c
    ensures r.Failure? ==> UpdateDocProblem(u).Some? || r == Failure(ImmutableId)
    ensures r == Failure(ImmutableId) ==> id in c && "_id" in u["$set"].fields && u["$set"].fields["_id"] != VId(id)
    ensures WellKeyed(c) && r.Success? ==> WellKeyed(r.value.0)
  {
    match UpdateDocProblem(u)
    case Some(e) => Failure(e)
    case None =>
      var fields := u["$set"].fields;
      if id !in c then Success((c, None))
      else if "_id" in fields && fields["_id"] != VId(id) then Failure(ImmutableId)
      else
        var d := c[id] + fields;
        Success((c[id := d], Some(d)))
  }

  /** `FindOneAndDelete`: removes the keyed document and returns it. */
  function FindOneAndDelete(c: Collection, id: ObjectId): (r: (Collection, Option<Doc>))
    ensures r.1.Some? <==> id in c
    ensures r.1.Some? ==> r.1.value == c[id]
    ensures r.0 == c - {id}
    ensures forall k :: k in c && k != id ==> k in r.0 && r.0[k] == c[k]
  {
    if id in c then (c - {id}, Some(c[id])) else (c, None)
  }

  /** `Find` without a sort option: the keys of every matching document, each
      once, in an order the server is free to choose. */
  method Find(c: Collection, f: Filter, m: Matcher) returns (ids: seq<ObjectId>)
    ensures forall i :: 0 <= i < |ids| ==> ids[i] in c && Matches(c[ids[i]], f, m)
    ensures forall k :: k in c && Matches(c[k], f, m) ==> k in ids
    ensures Distinct(ids)
    ensures |ids| == |MatchingKeys(c, f, m)|
  {
    ids := [];
    var remaining := c.Keys;
    while remaining != {}
      invariant remaining <= c.Keys
      invariant forall i :: 0 <= i < |ids| ==> ids[i] in c && ids[i] !in remaining && Matches(c[ids[i]], f, m)
      invariant forall k :: k in c && k !in remaining && Matches(c[k], f, m) ==> k in ids
      invariant Distinct(ids)
      decreases remaining
    {
      var k :| k in remaining;
      if Matches(c[k], f, m) {
        ids := ids + [k];
      }
      remaining := remaining - {k};
    }
    assert (set k | k in ids) == MatchingKeys(c, f, m);
    DistinctCardinality(ids);
  }

  predicate Distinct<T(==)>(s: seq<T>) {
    forall i, j :: 0 <= i < j < |s| ==> s[i] != s[j]
  }

  lemma {:induction false} DistinctCardinality<T>(s: seq<T>)
    requires Distinct(s)
    ensures |set x | x in s| == |s|
  {
    if s != [] {
      var rest := s[1..];
      DistinctCardinality(rest);
      assert (set x | x in s) == {s[0]} + (set x | x in rest);
      assert s[0] !in (set x | x in rest);
    }
  }

  /** Decodes a cursor's documents in order; one failure fails the batch. */
  function DecodeAll<T>(ds: seq<Doc>, decode: Doc -> Option<T>): (r: Option<seq<T>>)
    ensures r.Some? <==> forall i :: 0 <= i < |ds| ==> decode(ds[i]).Some?
    ensures r.Some? ==> |r.value| == |ds| && forall i :: 0 <= i < |ds| ==> decode(ds[i]) == Some(r.value[i])
  {
    if ds == [] then Some([])
    else
      match (decode(ds[0]), DecodeAll(ds[1..], decode))
      case (Some(x), Some(xs)) => Some([x] + xs)
      case _ =>
        assert forall i :: 1 <= i < |ds| ==> ds[i] == ds[1..][i - 1];
        None
  }
}
