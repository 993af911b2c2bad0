/** The HTTP status codes the handlers and middleware write, and a
    handler's answer: a status with, on success, the record the JSON body
    carries. Error bodies (the message texts) are not modelled. */
module Http {

  datatype Status =
    | OK                  // 200
    | Created             // 201
    | NoContent           // 204, the answer to every OPTIONS request
    | BadRequest          // 400
    | Unauthorized        // 401
    | Forbidden           // 403
    | NotFound            // 404
    | InternalServerError // 500

  function Code(s: Status): (code: nat)
    ensures 200 <= code < 600
    ensures (code < 300) == (s.OK? || s.Created? || s.NoContent?)
  {
    match s
    case OK => 200
    case Created => 201
    case NoContent => 204
    case BadRequest => 400
    case Unauthorized => 401
    case Forbidden => 403
    case NotFound => 404
    case InternalServerError => 500
  }

  lemma CodeInjective(a: Status, b: Status)
    requires Code(a) == Code(b)
    ensures a == b
  {
  }

  /** A handler's answer: a failure status, or a success status with the
      record the body returns. */
  datatype Reply<T> = Fail(status: Status) | Ok(status: Status, body: T)
}
