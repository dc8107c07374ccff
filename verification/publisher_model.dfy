/** A video game publisher, its partial-update payload, their validation tags and their
    document form. */
module PublisherModel {
  import opened Wrappers
  import opened ObjectIds
  import opened Bson
  import opened Validation

  datatype Publisher = Publisher(id: ObjectId, name: string, createdAt: int, updatedAt: int)

  /** The only updatable field; `None` is a JSON field left out. */
  datatype PublisherUpdate = PublisherUpdate(name: Option<string>)

  /** `min=2,max=100`, counted in characters. */
  predicate ValidName(s: string) {
    2 <= |s| <= 100
  }

  /** The name is required and bounded; id and timestamps are free. */
  predicate Valid(x: Publisher) {
    ValidName(x.name)
  }

  predicate ValidUpdate(u: PublisherUpdate) {
    u.name.Some? ==> ValidName(u.name.value)
  }

  function Validate(x: Publisher): (errs: seq<FieldError>)
    ensures errs == [] <==> Valid(x)
    ensures forall e :: e in errs ==> e.field == "Name" && e.kind == KString
    ensures |errs| <= 1
  {
    Report(CheckLength("Name", KString, |x.name|, true, Some(2), Some(100)))
  }

  function ValidateUpdate(u: PublisherUpdate): (errs: seq<FieldError>)
    ensures errs == [] <==> ValidUpdate(u)
    ensures forall e :: e in errs ==> e.field == "Name" && e.tag in {"min", "max"}
  {
    Report(CheckOptionalLength("Name", u.name, 2, Some(100)))
  }

  function Encode(x: Publisher): Doc {
    IdField(x.id) + map["name" := VStr(x.name), "createdAt" := VTime(x.createdAt), "updatedAt" := VTime(x.updatedAt)]
  }

  function Decode(d: Doc): Option<Publisher> {
    if IdOf(d).Some? && StringOf(d, "name").Some? && TimeOf(d, "createdAt").Some? && TimeOf(d, "updatedAt").Some?
    then Some(Publisher(IdOf(d).value, StringOf(d, "name").value, TimeOf(d, "createdAt").value, TimeOf(d, "updatedAt").value))
    else None
  }

  /** A stored publisher reads back unchanged. */
  lemma DecodeEncode(x: Publisher)
    ensures Decode(Encode(x)) == Some(x)
  {
  }
}
