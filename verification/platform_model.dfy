/** A gaming platform, its partial-update payload, their validation tags and
    their document form. */
module PlatformModel {
  import opened Wrappers
  import opened ObjectIds
  import opened Bson
  import opened Validation

  datatype Platform = Platform(id: ObjectId, name: string, manufacturer: string, createdAt: int, updatedAt: int)

  /** Every field optional: `None` is a JSON field left out. */
  datatype PlatformUpdate = PlatformUpdate(name: Option<string>, manufacturer: Option<string>)

  /** `min=2,max=50`, counted in characters. */
  predicate ValidText(s: string) {
    2 <= |s| <= 50
  }

  /** Name and manufacturer are required and bounded; id and timestamps are free. */
  predicate Valid(p: Platform) {
    ValidText(p.name) && ValidText(p.manufacturer)
  }

  /** Absent fields always pass; present ones obey the same bounds. */
  predicate ValidUpdate(u: PlatformUpdate) {
    (u.name.Some? ==> ValidText(u.name.value)) && (u.manufacturer.Some? ==> ValidText(u.manufacturer.value))
  }

  function Validate(p: Platform): (errs: seq<FieldError>)
    ensures errs == [] <==> Valid(p)
    ensures forall e :: e in errs ==> e.field in {"Name", "Manufacturer"} && e.kind == KString
    ensures |errs| <= 2
  {
    Report(CheckLength("Name", KString, |p.name|, true, Some(2), Some(50))) +
    Report(CheckLength("Manufacturer", KString, |p.manufacturer|, true, Some(2), Some(50)))
  }

  function ValidateUpdate(u: PlatformUpdate): (errs: seq<FieldError>)
    ensures errs == [] <==> ValidUpdate(u)
    ensures forall e :: e in errs ==> e.field in {"Name", "Manufacturer"} && e.tag in {"min", "max"}
  {
    Report(CheckOptionalLength("Name", u.name, 2, Some(50))) +
    Report(CheckOptionalLength("Manufacturer", u.manufacturer, 2, Some(50)))
  }

  function Encode(p: Platform): Doc {
    IdField(p.id) + map["name" := VStr(p.name), "manufacturer" := VStr(p.manufacturer),
                        "createdAt" := VTime(p.createdAt), "updatedAt" := VTime(p.updatedAt)]
  }

  function Decode(d: Doc): Option<Platform> {
    if IdOf(d).Some? && StringOf(d, "name").Some? && StringOf(d, "manufacturer").Some?
       && TimeOf(d, "createdAt").Some? && TimeOf(d, "updatedAt").Some?
    then Some(Platform(IdOf(d).value, StringOf(d, "name").value, StringOf(d, "manufacturer").value,
                       TimeOf(d, "createdAt").value, TimeOf(d, "updatedAt").value))
    else None
  }

  /** A stored platform reads back unchanged. */
  lemma DecodeEncode(p: Platform)
    ensures Decode(Encode(p)) == Some(p)
  {
  }
}
