/** The application error carried through the request handlers, its
    constructors, and the JSON body it is turned into. */
module Errors {
  import opened Wrappers

  /** `AppError`: an HTTP status, a message and an optional machine code. */
  datatype AppError = AppError(statusCode: int, message: string, code: Option<string>)

  /** What a handler can throw: an `AppError`, or any other error (a
      database error keeps its driver code, such as "23505"). */
  datatype Thrown = App(err: AppError) | Foreign(dbCode: Option<string>)

  /** `badRequest`. */
  function BadRequest(message: string, code: Option<string>): (e: AppError)
    ensures e.statusCode == 400 && e.message == message && e.code == code
  {
    AppError(400, message, code)
  }

  const UNAUTHORIZED_MESSAGE: string := "Unauthorized"
  const NOT_FOUND_MESSAGE: string := "Not found"

  /** `unauthorized`; callers without a message pass `UNAUTHORIZED_MESSAGE`. */
  function Unauthorized(message: string): (e: AppError)
    ensures e.statusCode == 401 && e.message == message && e.code == Some("UNAUTHORIZED")
  {
    AppError(401, message, Some("UNAUTHORIZED"))
  }

  /** `notFound`; callers without a message pass `NOT_FOUND_MESSAGE`. */
  function NotFound(message: string): (e: AppError)
    ensures e.statusCode == 404 && e.message == message && e.code == Some("NOT_FOUND")
  {
    AppError(404, message, Some("NOT_FOUND"))
  }

  /** `conflict`. */
  function Conflict(message: string, code: Option<string>): (e: AppError)
    ensures e.statusCode == 409 && e.message == message && e.code == code
  {
    AppError(409, message, code)
  }

  /** `methodNotAllowed`. */
  function MethodNotAllowed(): (e: AppError)
    ensures e.statusCode == 405 && e.message == "Method not allowed" && e.code == Some("METHOD_NOT_ALLOWED")
  {
    AppError(405, "Method not allowed", Some("METHOD_NOT_ALLOWED"))
  }

  /** `ErrorBody`: the message, and a code only when one is set. */
  datatype ErrorBody = ErrorBody(error: string, code: Option<string>)

  /** `toErrorBody`: an empty code is falsy in the source, so it is dropped. */
  function ToErrorBody(err: AppError): (b: ErrorBody)
    ensures b.error == err.message
    ensures b.code.Some? <==> err.code.Some? && err.code.value != ""
    ensures b.code.Some? ==> b.code == err.code
  {
    if err.code.Some? && err.code.value != "" then ErrorBody(err.message, err.code)
    else ErrorBody(err.message, None)
  }
}
