/** The game collection. The only repository that sorts (by title), stamps
    both timestamps on create, reports the inserted id back into the record,
    and sets `updatedAt` inside the `$set` it builds around the caller's map. */
module GameRepository {
  import opened Wrappers
  import opened ObjectIds
  import opened Bson
  import opened DocumentStore
  import opened Ordering
  import opened GameModel
  import Repository

  /** Ascending by title: each title is at most the next one. */
  predicate SortedByTitle(gs: seq<Game>) {
    forall i :: 0 < i < |gs| ==> StringLe(gs[i - 1].title, gs[i].title)
  }

  /** Puts one game into a title-sorted sequence. */
  function InsertByTitle(g: Game, gs: seq<Game>): (r: seq<Game>)
    requires SortedByTitle(gs)
    ensures SortedByTitle(r)
    ensures multiset(r) == multiset(gs) + multiset{g}
    ensures r[0] == g || (gs != [] && r[0] == gs[0])
  {
    if gs == [] then [g]
    else if StringLe(g.title, gs[0].title) then [g] + gs
    else
      StringLeTotal(g.title, gs[0].title);
      var rest := InsertByTitle(g, gs[1..]);
      assert gs == [gs[0]] + gs[1..];
      [gs[0]] + rest
  }

  /** The order `SetSort(bson.D{{"title", 1}})` asks of the server; games
      with equal titles may come in any order, here that of the input. */
  function SortByTitle(gs: seq<Game>): (r: seq<Game>)
    ensures SortedByTitle(r)
    ensures multiset(r) == multiset(gs)
  {
    if gs == [] then []
    else
      assert gs == [gs[0]] + gs[1..];
      InsertByTitle(gs[0], SortByTitle(gs[1..]))
  }

  /** Neighbour order extends to any two positions. */
  lemma {:induction false} SortedPairwise(gs: seq<Game>, i: nat, j: nat)
    requires SortedByTitle(gs) && i <= j < |gs|
    ensures StringLe(gs[i].title, gs[j].title)
    decreases j - i
  {
    if i == j {
      StringLeReflexive(gs[i].title);
    } else {
      SortedPairwise(gs, i + 1, j);
      StringLeTransitive(gs[i].title, gs[i + 1].title, gs[j].title);
    }
  }

  method FindAll(c: Collection, f: Filter, m: Matcher) returns (r: Result<seq<Game>, StoreError>)
    ensures r.Success? <==> forall k :: k in MatchingKeys(c, f, m) ==> Decode(c[k]).Some?
    ensures r.Failure? ==> r.error == DecodeFailure
    ensures r.Success? ==> |r.value| == |MatchingKeys(c, f, m)|
    ensures r.Success? ==> forall g :: g in r.value ==> exists k :: k in MatchingKeys(c, f, m) && Decode(c[k]) == Some(g)
    ensures r.Success? ==> forall k :: k in MatchingKeys(c, f, m) ==> Decode(c[k]).value in r.value
    ensures r.Success? ==> SortedByTitle(r.value)
  {
    var found := Repository.FindAll(c, f, m, Decode);
    if found.Failure? {
      r := Failure(found.error);
    } else {
      var sorted := SortByTitle(found.value);
      assert |sorted| == |multiset(sorted)| == |found.value|;
      assert forall g :: g in sorted <==> g in found.value by {
        forall g ensures g in sorted <==> g in found.value {
          assert g in sorted <==> g in multiset(sorted);
        }
      }
      r := Success(sorted);
    }
  }

  function FindByID(c: Collection, id: ObjectId): (r: Result<Option<Game>, StoreError>)
    ensures id !in c ==> r == Success(None)
    ensures id in c && Decode(c[id]).Some? ==> r == Success(Decode(c[id]))
    ensures id in c && Decode(c[id]).None? ==> r == Failure(DecodeFailure)
  {
    Repository.FindByID(c, id, Decode)
  }

  /** Stamps both timestamps, inserts, and writes the inserted id back:
      the client's id when it sent one, else the driver's. */
  function Create(c: Collection, g: Game, generated: FreshId, now: int): (r: Result<(Collection, Game), StoreError>)
    ensures var key := if g.id == Zero then generated else g.id;
      && (r.Failure? <==> key in c)
      && (r.Failure? ==> r.error == DuplicateKey(key))
      && (r.Success? ==> var (c', stored) := r.value;
                         && stored == g.(id := key, createdAt := now, updatedAt := now)
                         && c'.Keys == c.Keys + {key}
                         && (forall k :: k in c ==> c'[k] == c[k])
                         && Decode(c'[key]) == Some(stored))
    ensures WellKeyed(c) && r.Success? ==> WellKeyed(r.value.0)
  {
    var stamped := g.(createdAt := now, updatedAt := now);
    match InsertOne(c, Encode(stamped), generated)
    case Failure(e) => Failure(e)
    case Success((c', key)) =>
      EncodeWithId(stamped, key);
      DecodeEncode(stamped.(id := key));
      Success((c', stamped.(id := key)))
  }

  /** The `$set` fields: the caller's map with `updatedAt` forced to now. */
  function Fields(update: Doc, now: int): (d: Doc)
    ensures d.Keys == update.Keys + {"updatedAt"}
    ensures d["updatedAt"] == VTime(now)
    ensures forall k :: k in update && k != "updatedAt" ==> d[k] == update[k]
  {
    update["updatedAt" := VTime(now)]
  }

  /** Adding `updatedAt` does not change whether the server accepts the `$set`. */
  lemma FieldsAccepted(update: Doc, now: int)
    ensures UpdateDocProblem(SetDoc(Fields(update, now))).None? <==> forall k :: k in update ==> PlainField(k)
    ensures UpdateDocProblem(SetDoc(Fields(update, now))).Some? ==>
      UpdateDocProblem(SetDoc(Fields(update, now))) == Some(UnsupportedFieldPath)
  {
    var fields := Fields(update, now);
    assert PlainField("updatedAt");
    SetDocAccepted(fields);
  }

  /** Any map is accepted as the update, unvalidated; only the server's
      own checks on `$set` stand between it and the stored document. */
  function Update(c: Collection, id: ObjectId, update: Doc, now: int): (r: (Collection, Result<Option<Game>, StoreError>))
    ensures (exists k :: k in update && !PlainField(k)) ==> r == (c, Failure(UnsupportedFieldPath))
    ensures (forall k :: k in update ==> PlainField(k)) ==>
      && (id !in c ==> r == (c, Success(None)))
      && (id in c && "_id" in update && update["_id"] != VId(id) ==> r == (c, Failure(ImmutableId)))
      && (id in c && ("_id" in update ==> update["_id"] == VId(id)) ==>
            var after := c[id] + Fields(update, now);
            && r.0 == c[id := after]
            && r.1 == (if Decode(after).Some? then Success(Decode(after)) else Failure(DecodeFailure)))
    ensures WellKeyed(c) ==> WellKeyed(r.0)
  {
    var fields := Fields(update, now);
    FieldsAccepted(update, now);
    Repository.Update(c, id, SetDoc(fields), Decode)
  }

  function Delete(c: Collection, id: ObjectId): (r: (Collection, Result<Option<Game>, StoreError>))
    ensures r.0 == c - {id}
    ensures id !in c ==> r.1 == Success(None)
    ensures id in c && Decode(c[id]).Some? ==> r.1 == Success(Decode(c[id]))
    ensures id in c && Decode(c[id]).None? ==> r.1 == Failure(DecodeFailure)
  {
    Repository.Delete(c, id, Decode)
  }
}
