/** A video game, its (typed) partial-update payload, their validation tags
    and their document form. Scores are modelled as reals. */
module GameModel {
  import opened Wrappers
  import opened ObjectIds
  import opened Bson
  import opened Validation

  datatype Game = Game(
    id: ObjectId,
    title: string,
    description: string,
    developer: string,
    publisher: string,
    releaseDate: int,            // 0 is the zero time
    platforms: seq<ObjectId>,
    genre: seq<string>,
    coverImage: string,
    metacriticScore: real,
    usersScore: real,
    createdAt: int,
    updatedAt: int)

  /** Every field optional; there is no cover image field. */
  datatype GameUpdate = GameUpdate(
    title: Option<string>,
    description: Option<string>,
    developer: Option<string>,
    publisher: Option<string>,
    releaseDate: Option<int>,
    platforms: Option<seq<ObjectId>>,
    genre: Option<seq<string>>,
    metacriticScore: Option<real>,
    usersScore: Option<real>)

  predicate ValidTitle(s: string) { 1 <= |s| <= 100 }
  predicate ValidStudio(s: string) { 2 <= |s| <= 50 }
  predicate ValidScore(x: real) { 0.0 <= x <= 100.0 }

  predicate Valid(g: Game) {
    && ValidTitle(g.title)
    && |g.description| >= 1
    && ValidStudio(g.developer)
    && ValidStudio(g.publisher)
    && g.releaseDate != 0
    && |g.platforms| >= 1
    && |g.genre| >= 1
    && |g.coverImage| >= 1
    && ValidScore(g.metacriticScore)
    && ValidScore(g.usersScore)
  }

  /** Bounds apply only to the fields that are present. */
  predicate ValidUpdate(u: GameUpdate) {
    && (u.title.Some? ==> ValidTitle(u.title.value))
    && (u.description.Some? ==> |u.description.value| >= 1)
    && (u.developer.Some? ==> ValidStudio(u.developer.value))
    && (u.publisher.Some? ==> ValidStudio(u.publisher.value))
    && (u.platforms.Some? ==> |u.platforms.value| >= 1)
    && (u.genre.Some? ==> |u.genre.value| >= 1)
    && (u.metacriticScore.Some? ==> ValidScore(u.metacriticScore.value))
    && (u.usersScore.Some? ==> ValidScore(u.usersScore.value))
  }

  /** The four text fields, in declaration order. */
  function ValidateTexts(g: Game): (errs: seq<FieldError>)
    ensures errs == [] <==> ValidTitle(g.title) && |g.description| >= 1 && ValidStudio(g.developer) && ValidStudio(g.publisher)
  {
    Report(CheckLength("Title", KString, |g.title|, true, Some(1), Some(100))) +
    Report(CheckLength("Description", KString, |g.description|, true, Some(1), None)) +
    Report(CheckLength("Developer", KString, |g.developer|, true, Some(2), Some(50))) +
    Report(CheckLength("Publisher", KString, |g.publisher|, true, Some(2), Some(50)))
  }

  /** Release date, the two reference lists and the cover image. */
  function ValidateRequired(g: Game): (errs: seq<FieldError>)
    ensures errs == [] <==> g.releaseDate != 0 && |g.platforms| >= 1 && |g.genre| >= 1 && |g.coverImage| >= 1
  {
    Report(CheckRequired("ReleaseDate", KTime, g.releaseDate == 0)) +
    Report(CheckLength("Platforms", KSlice, |g.platforms|, true, Some(1), None)) +
    Report(CheckLength("Genre", KSlice, |g.genre|, true, Some(1), None)) +
    Report(CheckLength("CoverImage", KString, |g.coverImage|, true, None, None))
  }

  function Validate(g: Game): (errs: seq<FieldError>)
    ensures errs == [] <==> Valid(g)
  {
    ValidateTexts(g) + ValidateRequired(g) +
    Report(CheckRange("MetacriticScore", g.metacriticScore, 0, 100)) +
    Report(CheckRange("UsersScore", g.usersScore, 0, 100))
  }

  function CheckOptionalSlice(field: string, len: Option<nat>): (r: Option<FieldError>)
    ensures r.None? <==> len.None? || len.value >= 1
  {
    match len
    case None => None
    case Some(n) => CheckLength(field, KSlice, n, false, Some(1), None)
  }

  function CheckOptionalRange(field: string, x: Option<real>): (r: Option<FieldError>)
    ensures r.None? <==> x.None? || ValidScore(x.value)
  {
    match x
    case None => None
    case Some(v) => CheckRange(field, v, 0, 100)
  }

  function ValidateUpdate(u: GameUpdate): (errs: seq<FieldError>)
    ensures errs == [] <==> ValidUpdate(u)
  {
    Report(CheckOptionalLength("Title", u.title, 1, Some(100))) +
    Report(CheckOptionalLength("Description", u.description, 1, None)) +
    Report(CheckOptionalLength("Developer", u.developer, 2, Some(50))) +
    Report(CheckOptionalLength("Publisher", u.publisher, 2, Some(50))) +
    Report(CheckOptionalSlice("Platforms", if u.platforms.Some? then Some(|u.platforms.value|) else None)) +
    Report(CheckOptionalSlice("Genre", if u.genre.Some? then Some(|u.genre.value|) else None)) +
    Report(CheckOptionalRange("MetacriticScore", u.metacriticScore)) +
    Report(CheckOptionalRange("UsersScore", u.usersScore))
  }

  function Encode(g: Game): Doc {
    IdField(g.id) + map[
      "title" := VStr(g.title),
      "description" := VStr(g.description),
      "developer" := VStr(g.developer),
      "publisher" := VStr(g.publisher),
      "releaseDate" := VTime(g.releaseDate),
      "platforms" := IdArray(g.platforms),
      "genre" := StringArray(g.genre),
      "coverImage" := VStr(g.coverImage),
      "metacriticScore" := VNum(g.metacriticScore),
      "usersScore" := VNum(g.usersScore),
      "createdAt" := VTime(g.createdAt),
      "updatedAt" := VTime(g.updatedAt)]
  }

  predicate Decodable(d: Doc) {
    && IdOf(d).Some?
    && StringOf(d, "title").Some?
    && StringOf(d, "description").Some?
    && StringOf(d, "developer").Some?
    && StringOf(d, "publisher").Some?
    && TimeOf(d, "releaseDate").Some?
    && IdsOf(d, "platforms").Some?
    && StringsOf(d, "genre").Some?
    && StringOf(d, "coverImage").Some?
    && NumberOf(d, "metacriticScore").Some?
    && NumberOf(d, "usersScore").Some?
    && TimeOf(d, "createdAt").Some?
    && TimeOf(d, "updatedAt").Some?
  }

  /** Every field decodes by its kind's rule, or the whole document fails. */
  function Decode(d: Doc): (r: Option<Game>)
    ensures r.Some? <==> Decodable(d)
    ensures r.Some? ==>
      && r.value.id == IdOf(d).value
      && r.value.title == StringOf(d, "title").value
      && r.value.description == StringOf(d, "description").value
      && r.value.developer == StringOf(d, "developer").value
      && r.value.publisher == StringOf(d, "publisher").value
      && r.value.releaseDate == TimeOf(d, "releaseDate").value
      && r.value.platforms == IdsOf(d, "platforms").value
      && r.value.genre == StringsOf(d, "genre").value
      && r.value.coverImage == StringOf(d, "coverImage").value
      && r.value.metacriticScore == NumberOf(d, "metacriticScore").value
      && r.value.usersScore == NumberOf(d, "usersScore").value
      && r.value.createdAt == TimeOf(d, "createdAt").value
      && r.value.updatedAt == TimeOf(d, "updatedAt").value
  {
    if Decodable(d) then
      Some(Game(
        IdOf(d).value,
        StringOf(d, "title").value,
        StringOf(d, "description").value,
        StringOf(d, "developer").value,
        StringOf(d, "publisher").value,
        TimeOf(d, "releaseDate").value,
        IdsOf(d, "platforms").value,
        StringsOf(d, "genre").value,
        StringOf(d, "coverImage").value,
        NumberOf(d, "metacriticScore").value,
        NumberOf(d, "usersScore").value,
        TimeOf(d, "createdAt").value,
        TimeOf(d, "updatedAt").value))
    else None
  }

  lemma EncodedTexts(g: Game)
    ensures StringOf(Encode(g), "title") == Some(g.title)
    ensures StringOf(Encode(g), "description") == Some(g.description)
    ensures StringOf(Encode(g), "developer") == Some(g.developer)
    ensures StringOf(Encode(g), "publisher") == Some(g.publisher)
    ensures StringOf(Encode(g), "coverImage") == Some(g.coverImage)
  {
  }

  lemma EncodedTimes(g: Game)
    ensures IdOf(Encode(g)) == Some(g.id)
    ensures TimeOf(Encode(g), "releaseDate") == Some(g.releaseDate)
    ensures TimeOf(Encode(g), "createdAt") == Some(g.createdAt)
    ensures TimeOf(Encode(g), "updatedAt") == Some(g.updatedAt)
    ensures NumberOf(Encode(g), "metacriticScore") == Some(g.metacriticScore)
    ensures NumberOf(Encode(g), "usersScore") == Some(g.usersScore)
  {
  }

  lemma EncodedLists(g: Game)
    ensures IdsOf(Encode(g), "platforms") == Some(g.platforms)
    ensures StringsOf(Encode(g), "genre") == Some(g.genre)
  {
    var ids := IdArray(g.platforms).items;
    assert forall i :: 0 <= i < |ids| ==> ids[i] == VId(g.platforms[i]);
    assert seq(|ids|, i requires 0 <= i < |ids| && ids[i].VId? => ids[i].id) == g.platforms;
    var items := StringArray(g.genre).items;
    assert forall i :: 0 <= i < |items| ==> items[i] == VStr(g.genre[i]);
    assert seq(|items|, i requires 0 <= i < |items| && items[i].VStr? => items[i].s) == g.genre;
  }

  /** Setting `_id` on an encoded game is encoding the game with that id. */
  lemma EncodeWithId(g: Game, key: ObjectId)
    requires key != Zero
    ensures Encode(g)["_id" := VId(key)] == Encode(g.(id := key))
  {
  }

  /** A stored game reads back unchanged, reference lists included. */
  lemma DecodeEncode(g: Game)
    ensures Decode(Encode(g)) == Some(g)
  {
    EncodedTexts(g);
    EncodedTimes(g);
    EncodedLists(g);
  }
}
