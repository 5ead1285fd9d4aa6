/** Small value types shared by every module: an optional value, and the
    shape of an HTTP reply as the route handlers produce it. */
module Wrappers {

  /** A value that may be absent: a JSON field that was not sent, a SQL NULL,
      a browser storage slot with nothing in it. */
  datatype Option<+T> = None | Some(value: T) {

    function GetOr(default: T): T {
      match this
      case Some(v) => v
      case None => default
    }
  }
}

module Http {

  /** What a route handler sends back.
      - Ok: a success status with its JSON body;
      - Fail: an error status with the body `{error: message}`;
      - Invalid: status 400 with the body `{errors: [...]}`, one message per
        failed field validator, in the order the validators are declared. */
  datatype Reply<+T> =
    | Ok(status: int, body: T)
    | Fail(status: int, error: string)
    | Invalid(errors: seq<string>)
  {
    function Status(): int {
      match this
      case Ok(s, _) => s
      case Fail(s, _) => s
      case Invalid(_) => 400
    }
  }

  const InternalError := "Internal server error"
}
