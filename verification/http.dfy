/** The JSON responses the handlers write: a status code and a body that is
    an entity, a list, the delete envelope, or an `ErrorResponse`. */
module Http {
  /** One entry of an `ErrorResponse`'s `errors` list. */
  datatype ValidationError = ValidationError(field: string, message: string)

  /** `errors` is `omitempty`: the empty list is the absent field. */
  datatype ErrorResponse = ErrorResponse(status: int, message: string, errors: seq<ValidationError>)

  datatype Body<T> =
    | Entity(item: T)
    | Entities(items: seq<T>)
    | Deleted(message: string, deleted: T)    // `fiber.Map{"message": …, "deleted": …}`
    | Problem(error: ErrorResponse)
    | Fields(fields: map<string, string>)     // `fiber.Map{"error": …}`
    | FieldMessages(errors: map<string, string>)  // `fiber.Map{"errors": {field: message}}`

  datatype Response<T> = Response(status: int, body: Body<T>)

  /** `c.Status(s).JSON(models.ErrorResponse{Status: s, Message: m})`. */
  function Fail<T>(status: int, message: string): (r: Response<T>)
    ensures r.status == status && r.body.Problem? && r.body.error.status == status
    ensures r.body.error.message == message && r.body.error.errors == []
  {
    Response(status, Problem(ErrorResponse(status, message, [])))
  }

  /** A handler chain step: pass on to the next handler, or answer now. */
  datatype Outcome<T> = Next(value: T) | Halt(response: Response<T>)
}
