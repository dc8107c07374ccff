/** The request validator of the `api/middleware` package: binds the body,
    validates it, and answers field errors as a map from field name to a
    short message. */
module RequestValidator {
  import opened Wrappers
  import opened Validation
  import opened Http

  /** The short text for one failed tag. */
  function Message(fe: FieldError): (msg: string)
    ensures msg == "Invalid value" <==> fe.tag !in {"required", "email", "min", "max"}
    ensures fe.tag == "required" ==> msg == "This field is required"
    ensures fe.tag == "email" ==> msg == "Invalid email format"
    ensures fe.tag == "min" ==> msg == "Value is too short"
    ensures fe.tag == "max" ==> msg == "Value is too long"
  {
    if fe.tag == "required" then "This field is required"
    else if fe.tag == "email" then "Invalid email format"
    else if fe.tag == "min" then "Value is too short"
    else if fe.tag == "max" then "Value is too long"
    else "Invalid value"
  }

  /** The message of the last error reported for field `f`, if any. */
  function LastMessage(errs: seq<FieldError>, f: string): Option<string> {
    if errs == [] then None
    else if errs[|errs| - 1].field == f then Some(Message(errs[|errs| - 1]))
    else LastMessage(errs[..|errs| - 1], f)
  }

  /** The errors map, filled in list order: a key for every failing field,
      and when a field fails twice the later error's message wins. */
  function Collect(errs: seq<FieldError>): (r: map<string, string>)
    ensures forall f :: f in r <==> LastMessage(errs, f).Some?
    ensures forall f :: f in r ==> r[f] == LastMessage(errs, f).value
  {
    if errs == [] then map[]
    else
      var last := errs[|errs| - 1];
      Collect(errs[..|errs| - 1])[last.field := Message(last)]
  }

  /** `ValidateRequest`: an unbindable body is a 400 with an `error` text, a
      body with field errors a 400 with the errors map, a valid body passes. */
  function ValidateRequest<T>(body: Option<T>, validate: T -> seq<FieldError>): (r: Outcome<T>)
    ensures body.None? ==> r == Halt(Response(400, Fields(map["error" := "Invalid request body"])))
    ensures body.Some? ==> (r.Next? <==> validate(body.value) == [])
    ensures r.Next? ==> body == Some(r.value)
    ensures body.Some? && validate(body.value) != [] ==>
      r == Halt(Response(400, FieldMessages(Collect(validate(body.value)))))
  {
    match body
    case None => Halt(Response(400, Fields(map["error" := "Invalid request body"])))
    case Some(v) =>
      var errs := validate(v);
      if errs == [] then Next(v) else Halt(Response(400, FieldMessages(Collect(errs))))
  }

  /** Distinct fields each keep their own message: nothing is lost when no
      field fails twice. */
  lemma {:induction false} CollectDistinct(errs: seq<FieldError>)
    requires forall i, j :: 0 <= i < j < |errs| ==> errs[i].field != errs[j].field
    ensures |Collect(errs)| == |errs|
    ensures forall i :: 0 <= i < |errs| ==> errs[i].field in Collect(errs) && Collect(errs)[errs[i].field] == Message(errs[i])
  {
    if errs != [] {
      var init := errs[..|errs| - 1];
      var last := errs[|errs| - 1];
      CollectDistinct(init);
      assert last.field !in Collect(init) by {
        NoLaterField(init, last.field);
      }
      forall i | 0 <= i < |errs|
        ensures errs[i].field in Collect(errs) && Collect(errs)[errs[i].field] == Message(errs[i])
      {
        if i < |init| {
          assert init[i] == errs[i];
        }
      }
    }
  }

  /** A field no error names has no last message. */
  lemma {:induction false} NoLaterField(errs: seq<FieldError>, f: string)
    requires forall i :: 0 <= i < |errs| ==> errs[i].field != f
    ensures LastMessage(errs, f).None?
  {
    if errs != [] {
      var init := errs[..|errs| - 1];
      assert forall i :: 0 <= i < |init| ==> init[i] == errs[i];
      NoLaterField(init, f);
    }
  }
}
