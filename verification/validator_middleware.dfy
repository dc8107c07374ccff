/** The request-validation middleware of the `middleware` package: field
    errors become `{field, message}` pairs under "Validation failed". */
module ValidatorMiddleware {
  import opened Wrappers
  import opened Validation
  import opened Http

  /** `p` occurs somewhere inside `s`. */
  predicate Occurs(p: string, s: string) {
    p <= s || (s != [] && Occurs(p, s[1..]))
  }

  lemma {:induction false} OccursBetween(a: string, p: string, b: string)
    ensures Occurs(p, a + p + b)
  {
    if a == [] {
      assert a + p + b == p + b;
    } else {
      assert (a + p + b)[1..] == a[1..] + p + b;
      OccursBetween(a[1..], p, b);
    }
  }

  /** The friendly text for one failed tag; the kind decides whether a bound
      counts characters. Unknown tags fall back to "Invalid value", and every
      bound or choice list is quoted in its message. */
  function ErrorMessage(fe: FieldError): (msg: string)
    ensures msg == "Invalid value" <==> fe.tag !in {"required", "min", "max", "oneof"}
    ensures fe.tag in {"min", "max", "oneof"} ==> Occurs(fe.param, msg)
    ensures fe.tag == "required" ==> msg == "This field is required"
    ensures fe.tag == "min" && fe.kind == KString ==> msg == "Must be at least " + fe.param + " characters long"
    ensures fe.tag == "min" && fe.kind != KString ==> msg == "Must be at least " + fe.param
    ensures fe.tag == "max" && fe.kind == KString ==> msg == "Must not exceed " + fe.param + " characters"
    ensures fe.tag == "max" && fe.kind != KString ==> msg == "Must not exceed " + fe.param
    ensures fe.tag == "oneof" ==> msg == "Must be one of: " + fe.param
    ensures fe.tag in {"min", "max"} && fe.kind == KString ==> Occurs(" characters", msg)
  {
    if fe.tag == "required" then "This field is required"
    else if fe.tag == "min" then
      if fe.kind == KString then
        OccursBetween("Must be at least ", fe.param, " characters long");
        OccursBetween("Must be at least " + fe.param, " characters", " long");
        assert "Must be at least " + fe.param + " characters" + " long" == "Must be at least " + fe.param + " characters long";
        "Must be at least " + fe.param + " characters long"
      else
        OccursBetween("Must be at least ", fe.param, "");
        assert "Must be at least " + fe.param + "" == "Must be at least " + fe.param;
        "Must be at least " + fe.param
    else if fe.tag == "max" then
      if fe.kind == KString then
        OccursBetween("Must not exceed ", fe.param, " characters");
        OccursBetween("Must not exceed " + fe.param, " characters", "");
        assert "Must not exceed " + fe.param + " characters" + "" == "Must not exceed " + fe.param + " characters";
        "Must not exceed " + fe.param + " characters"
      else
        OccursBetween("Must not exceed ", fe.param, "");
        assert "Must not exceed " + fe.param + "" == "Must not exceed " + fe.param;
        "Must not exceed " + fe.param
    else if fe.tag == "oneof" then
      OccursBetween("Must be one of: ", fe.param, "");
      assert "Must be one of: " + fe.param + "" == "Must be one of: " + fe.param;
      "Must be one of: " + fe.param
    else "Invalid value"
  }

  function LowerChar(ch: char): char {
    if 'A' <= ch <= 'Z' then (ch as int + 32) as char else ch
  }

  /** `strings.ToLower` on the ASCII letters that Go field names use. */
  function ToLower(s: string): (t: string)
    ensures |t| == |s|
    ensures forall i :: 0 <= i < |s| ==> !('A' <= t[i] <= 'Z')
    ensures forall i :: 0 <= i < |s| && !('A' <= s[i] <= 'Z') ==> t[i] == s[i]
    ensures forall i :: 0 <= i < |s| && 'A' <= s[i] <= 'Z' ==> t[i] as int == s[i] as int + 32
  {
    seq(|s|, i requires 0 <= i < |s| => LowerChar(s[i]))
  }

  lemma ToLowerIdempotent(s: string)
    ensures ToLower(ToLower(s)) == ToLower(s)
  {
  }

  /** `ErrorHandlerMiddleware`: validation errors become a 400 listing one
      entry per field error, in order; any other error is a bare 500. */
  function ErrorHandler<T>(err: ValidatorError): (r: Response<T>)
    ensures err.ValidationErrors? ==>
      && r.status == 400 && r.body.Problem?
      && r.body.error.status == 400 && r.body.error.message == "Validation failed"
      && |r.body.error.errors| == |err.errs|
      && forall i :: 0 <= i < |err.errs| ==>
           r.body.error.errors[i] == ValidationError(ToLower(err.errs[i].field), ErrorMessage(err.errs[i]))
    ensures err.OtherError? ==> r == Fail(500, "Internal Server Error")
  {
    match err
    case OtherError => Fail(500, "Internal Server Error")
    case ValidationErrors(errs) =>
      var entries := seq(|errs|, i requires 0 <= i < |errs| => ValidationError(ToLower(errs[i].field), ErrorMessage(errs[i])));
      Response(400, Problem(ErrorResponse(400, "Validation failed", entries)))
  }

  /** `validate.Struct` as the controllers see it: nil when nothing failed. */
  function StructError(errs: seq<FieldError>): (r: Option<ValidatorError>)
    ensures r.None? <==> errs == []
    ensures r.Some? ==> r.value == ValidationErrors(errs)
  {
    if errs == [] then None else Some(ValidationErrors(errs))
  }

  /** `ValidateRequestBody`: an unparsable body is a 400, a body with field
      errors goes to the error handler, a valid one passes on unchanged. */
  function ValidateRequestBody<T>(body: Option<T>, validate: T -> seq<FieldError>): (r: Outcome<T>)
    ensures body.None? ==> r == Halt(Fail(400, "Invalid request body"))
    ensures body.Some? ==> (r.Next? <==> validate(body.value) == [])
    ensures r.Next? ==> body == Some(r.value)
    ensures body.Some? && validate(body.value) != [] ==>
      r == Halt(ErrorHandler(ValidationErrors(validate(body.value)))) && r.response.status == 400
  {
    match body
    case None => Halt(Fail(400, "Invalid request body"))
    case Some(v) =>
      match StructError(validate(v))
      case None => Next(v)
      case Some(e) => Halt(ErrorHandler(e))
  }
}
