/**
 * The error handler every failed request goes through: the status code it
 * answers with and the plain-text body it sends.
 */
module Errors {
  import opened Options

  /**
   * An error as the handler sees it: whether request validation raised it,
   * the status code it carries (a thrown `TypeError` carries none) and its
   * message.
   */
  datatype HttpError = HttpError(validation: bool, statusCode: Option<int>, message: string)

  /** An error a handler raises on purpose, with status code 422. */
  function Rejection(message: string): HttpError {
    HttpError(false, Some(422), message)
  }

  /** An exception the handler did not anticipate. */
  function Crash(message: string): HttpError {
    HttpError(false, None, message)
  }

  datatype Reply = Reply(status: int, contentType: string, body: string)

  const InternalError := "Internal server error"

  /**
   * The handler's reply: 422 for a validation error, the error's own status
   * when it is at least 400, 500 otherwise; the message is shown only below
   * 500.
   */
  function ErrorReply(e: HttpError): (r: Reply)
    ensures r.status >= 400 && r.contentType == "text/plain"
    ensures e.validation ==> r.status == 422
    ensures !e.validation && e.statusCode.Some? && e.statusCode.value >= 400 ==> r.status == e.statusCode.value
    ensures !e.validation && (e.statusCode.None? || e.statusCode.value < 400) ==> r.status == 500
    ensures r.body == (if r.status < 500 then e.message else InternalError)
  {
    var status := if e.validation then 422
      else if e.statusCode.Some? && e.statusCode.value >= 400 then e.statusCode.value
      else 500;
    Reply(status, "text/plain", if status >= 500 then InternalError else e.message)
  }

  /** A deliberate rejection reaches the client as 422 with its own message. */
  lemma RejectionReachesClient(message: string)
    ensures ErrorReply(Rejection(message)) == Reply(422, "text/plain", message)
  {
  }

  /** An unanticipated exception is answered with 500 and reveals nothing of its message. */
  lemma CrashIsHidden(message: string)
    ensures ErrorReply(Crash(message)) == Reply(500, "text/plain", InternalError)
  {
  }
}
