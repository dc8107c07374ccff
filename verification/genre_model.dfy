/** A gaming genre, its partial-update payload, their validation tags and
    their document form. The record carries `createdAt`/`updatedAt` because
    the genre service writes both, although the Go struct declares only the
    id and the name. */
module GenreModel {
  import opened Wrappers
  import opened ObjectIds
  import opened Bson
  import opened Validation

  datatype Genre = Genre(id: ObjectId, name: string, createdAt: int, updatedAt: int)

  datatype GenreUpdate = GenreUpdate(name: Option<string>)

  /** `min=2,max=50`, counted in characters. */
  predicate ValidName(s: string) {
    2 <= |s| <= 50
  }

  /** The name is required and bounded; the id is free. */
  predicate Valid(g: Genre) {
    ValidName(g.name)
  }

  predicate ValidUpdate(u: GenreUpdate) {
    u.name.Some? ==> ValidName(u.name.value)
  }

  function Validate(g: Genre): (errs: seq<FieldError>)
    ensures errs == [] <==> Valid(g)
    ensures forall e :: e in errs ==> e.field == "Name" && e.kind == KString
    ensures |errs| <= 1
  {
    Report(CheckLength("Name", KString, |g.name|, true, Some(2), Some(50)))
  }

  function ValidateUpdate(u: GenreUpdate): (errs: seq<FieldError>)
    ensures errs == [] <==> ValidUpdate(u)
    ensures forall e :: e in errs ==> e.field == "Name" && e.tag in {"min", "max"}
  {
    Report(CheckOptionalLength("Name", u.name, 2, Some(50)))
  }

  function Encode(g: Genre): Doc {
    IdField(g.id) + map["name" := VStr(g.name), "createdAt" := VTime(g.createdAt), "updatedAt" := VTime(g.updatedAt)]
  }

  function Decode(d: Doc): Option<Genre> {
    if IdOf(d).Some? && StringOf(d, "name").Some? && TimeOf(d, "createdAt").Some? && TimeOf(d, "updatedAt").Some?
    then Some(Genre(IdOf(d).value, StringOf(d, "name").value, TimeOf(d, "createdAt").value, TimeOf(d, "updatedAt").value))
    else None
  }

  /** A stored genre reads back unchanged. */
  lemma DecodeEncode(g: Genre)
    ensures Decode(Encode(g)) == Some(g)
  {
  }
}
