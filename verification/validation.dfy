/** The struct-tag validator the controllers call: each field's tags are tried
    in order, the first failing tag yields one `FieldError`, and fields are
    reported in declaration order. */
module Validation {
  import opened Wrappers

  /** The reflected kind of the validated value (pointers already followed). */
  datatype Kind = KString | KSlice | KFloat | KTime

  /** One failed constraint: Go field name, tag, tag parameter, value kind. */
  datatype FieldError = FieldError(field: string, tag: string, param: string, kind: Kind)

  /** What `validate.Struct` hands back: the list of field errors, or an error
      of another type (raised for arguments that are not structs). */
  datatype ValidatorError = ValidationErrors(errs: seq<FieldError>) | OtherError

  function DecimalDigit(n: nat): char
    requires n < 10
  {
    ('0' as int + n) as char
  }

  /** Decimal rendering of a tag parameter such as `min=2`. */
  function NatToDecimal(n: nat): (s: string)
    ensures |s| >= 1
    ensures forall i :: 0 <= i < |s| ==> '0' <= s[i] <= '9'
  {
    if n < 10 then [DecimalDigit(n)] else NatToDecimal(n / 10) + [DecimalDigit(n % 10)]
  }

  /** `required`, then `min=lo`, then `max=hi` on a length (runes of a
      string, elements of a slice). */
  function CheckLength(field: string, kind: Kind, len: nat, required: bool, min: Option<nat>, max: Option<nat>): (r: Option<FieldError>)
    ensures r.None? <==> (required ==> len > 0) && (min.Some? ==> min.value <= len) && (max.Some? ==> len <= max.value)
    ensures r.Some? ==> r.value.field == field && r.value.kind == kind
    ensures r.Some? && r.value.tag == "required" ==> required && len == 0
    ensures r.Some? && r.value.tag == "min" ==> min.Some? && len < min.value && r.value.param == NatToDecimal(min.value)
    ensures r.Some? && r.value.tag == "max" ==> max.Some? && len > max.value && r.value.param == NatToDecimal(max.value)
    ensures r.Some? ==> r.value.tag in {"required", "min", "max"}
  {
    if required && len == 0 then Some(FieldError(field, "required", "", kind))
    else if min.Some? && len < min.value then Some(FieldError(field, "min", NatToDecimal(min.value), kind))
    else if max.Some? && len > max.value then Some(FieldError(field, "max", NatToDecimal(max.value), kind))
    else None
  }

  /** `omitempty,min=lo,max=hi` on a string pointer: nil passes, a present
      value is checked even when empty. */
  function CheckOptionalLength(field: string, s: Option<string>, min: nat, max: Option<nat>): (r: Option<FieldError>)
    ensures r.None? <==> s.None? || (min <= |s.value| && (max.Some? ==> |s.value| <= max.value))
    ensures r.Some? ==> r.value.field == field && r.value.kind == KString && r.value.tag in {"min", "max"}
  {
    match s
    case None => None
    case Some(v) => CheckLength(field, KString, |v|, false, Some(min), max)
  }

  /** `required` on a value whose zero-ness is given (a `time.Time`). */
  function CheckRequired(field: string, kind: Kind, isZero: bool): (r: Option<FieldError>)
    ensures r.Some? <==> isZero
    ensures r.Some? ==> r.value == FieldError(field, "required", "", kind)
  {
    if isZero then Some(FieldError(field, "required", "", kind)) else None
  }

  /** `min=lo,max=hi` on a float. */
  function CheckRange(field: string, x: real, lo: nat, hi: nat): (r: Option<FieldError>)
    ensures r.None? <==> lo as real <= x <= hi as real
    ensures r.Some? ==> r.value.field == field && r.value.kind == KFloat && r.value.tag in {"min", "max"}
    ensures r.Some? && r.value.tag == "min" ==> x < lo as real
  {
    if x < lo as real then Some(FieldError(field, "min", NatToDecimal(lo), KFloat))
    else if x > hi as real then Some(FieldError(field, "max", NatToDecimal(hi), KFloat))
    else None
  }

  /** One field's outcome as a list of at most one error; a struct's errors
      are the concatenation of these in field order. */
  function Report(r: Option<FieldError>): (errs: seq<FieldError>)
    ensures errs == [] <==> r.None?
    ensures r.Some? ==> errs == [r.value]
  {
    if r.Some? then [r.value] else []
  }
}
