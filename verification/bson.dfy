/** BSON-like document values as the MongoDB driver stores them, with the
    field readers the struct decoder applies (absent or null reads as the Go
    zero value, a value of another kind is a decode error). */
module Bson {
  import opened Wrappers
  import opened ObjectIds

  datatype Value =
    | VNull
    | VBool(b: bool)
    | VNum(n: real)
    | VStr(s: string)
    | VTime(t: int)
    | VId(id: ObjectId)
    | VArr(items: seq<Value>)
    | VObj(fields: map<string, Value>)

  type Doc = map<string, Value>

  /** Kinds that `encoding/json` produces when it decodes into `interface{}`:
      it never yields a date or an ObjectId. */
  predicate FromJson(v: Value) {
    !v.VTime? && !v.VId?
  }

  /** `_id` with `omitempty`: the zero id is left out of the document. */
  function IdField(id: ObjectId): (d: Doc)
    ensures "_id" in d <==> id != Zero
    ensures "_id" in d ==> d["_id"] == VId(id)
    ensures d.Keys <= {"_id"}
  {
    if id == Zero then map[] else map["_id" := VId(id)]
  }

  function IdOf(d: Doc): Option<ObjectId> {
    if "_id" !in d then Some(Zero)
    else match d["_id"]
      case VId(id) => Some(id)
      case VNull => Some(Zero)
      case _ => None
  }

  function StringOf(d: Doc, k: string): Option<string> {
    if k !in d then Some("")
    else match d[k]
      case VStr(s) => Some(s)
      case VNull => Some("")
      case _ => None
  }

  function TimeOf(d: Doc, k: string): Option<int> {
    if k !in d then Some(0)
    else match d[k]
      case VTime(t) => Some(t)
      case VNull => Some(0)
      case _ => None
  }

  function NumberOf(d: Doc, k: string): Option<real> {
    if k !in d then Some(0.0)
    else match d[k]
      case VNum(n) => Some(n)
      case VNull => Some(0.0)
      case _ => None
  }

  function IdArray(ids: seq<ObjectId>): Value {
    VArr(seq(|ids|, i requires 0 <= i < |ids| => VId(ids[i])))
  }

  function StringArray(ss: seq<string>): Value {
    VArr(seq(|ss|, i requires 0 <= i < |ss| => VStr(ss[i])))
  }

  function IdsOf(d: Doc, k: string): Option<seq<ObjectId>> {
    if k !in d then Some([])
    else match d[k]
      case VNull => Some([])
      case VArr(items) =>
        if forall i :: 0 <= i < |items| ==> items[i].VId?
        then Some(seq(|items|, i requires 0 <= i < |items| && items[i].VId? => items[i].id))
        else None
      case _ => None
  }

  function StringsOf(d: Doc, k: string): Option<seq<string>> {
    if k !in d then Some([])
    else match d[k]
      case VNull => Some([])
      case VArr(items) =>
        if forall i :: 0 <= i < |items| ==> items[i].VStr?
        then Some(seq(|items|, i requires 0 <= i < |items| && items[i].VStr? => items[i].s))
        else None
      case _ => None
  }
}
