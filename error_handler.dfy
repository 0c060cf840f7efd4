/** The application-wide error-handling middleware (server/server.js) and the
    shape of a handler's reply. A handler that throws after `res.status(code)`
    reaches the middleware with that code; one that throws without setting a
    code reaches it with Express's default 200. */
module ErrorHandler {
  import opened Common

  datatype JsError = JsError(message: string, stack: string)

  /** The JSON body the middleware sends: `{ message, stack }`. */
  datatype ErrorReply = ErrorReply(status: int, message: string, stack: Option<string>)

  /** A handler's reply: a status with a JSON value, or a status with an
      error message. */
  datatype Outcome<T> = Ok(status: int, value: T) | Err(status: int, message: string)

  /** The status the middleware sends for a response whose status code is
      `statusCode` when the error arrives: a leftover 200 becomes 500, any
      other code is kept. */
  function FinalStatus(statusCode: int): (s: int)
    ensures s != 200
    ensures statusCode != 200 ==> s == statusCode
    ensures statusCode == 200 ==> s == 500
  {
    if statusCode == 200 then 500 else statusCode
  }

  /** The middleware's reply: the error's own message, and its stack trace
      only outside production. */
  function HandleError(statusCode: int, err: JsError, production: bool): (r: ErrorReply)
    ensures r.status != 200 && (statusCode != 200 ==> r.status == statusCode)
    ensures r.message == err.message
    ensures production <==> r.stack.None?
    ensures r.stack.Some? ==> r.stack.value == err.stack
  {
    ErrorReply(FinalStatus(statusCode), err.message, if production then None else Some(err.stack))
  }

  /** The reply to a handler that set `statusCode` and then threw an error
      with `message`: never a success status, the handler's own code when it
      set one, 500 when it did not. */
  function Thrown<T>(statusCode: int, message: string): (r: Outcome<T>)
    ensures r.Err? && r.message == message
    ensures r.status != 200
    ensures statusCode != 200 ==> r.status == statusCode
    ensures statusCode == 200 ==> r.status == 500
  {
    Err(FinalStatus(statusCode), message)
  }
}
