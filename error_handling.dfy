/** The error type the service throws (`AppError`) and the final Express error
    handler that turns any thrown error into an HTTP status and a JSON body. */
module ErrorHandling {
  import opened JsValues

  /** What the handler reads from a thrown error: the standard `message`, and the
      `statusCode`, `details` and `code` properties, each of which may be unset.
      Database driver errors carry a `code` (such as "ER_DUP_ENTRY") and no
      `statusCode`; `AppError`s carry a `statusCode` and no `code`. */
  datatype Error = Error(message: string, statusCode: Option<int>, details: Option<string>, code: Option<string>)

  /** The outcome of an operation that either returns a value or throws an `Error`. */
  datatype Result<+T> = Success(value: T) | Failure(error: Error)

  /** The JSON body `{ error, details? }`. */
  datatype ResponseBody = ResponseBody(error: string, details: Option<string>)

  datatype Response = Response(status: int, body: ResponseBody)

  const DuplicateEntryCode := "ER_DUP_ENTRY"
  const DefaultStatus := 500
  const DefaultMessage := "Internal server error"

  /** `new AppError(message, statusCode, details)`; the source's default for an
      omitted `details` is null, written here as `None`. */
  function NewAppError(message: string, statusCode: int, details: Option<string>): (e: Error)
    ensures e.message == message && e.statusCode == Some(statusCode)
    ensures e.details == details && e.code.None?
  {
    Error(message, Some(statusCode), details, None)
  }

  /** `err.statusCode || 500`. */
  function StatusOf(err: Error): (s: int)
    ensures s != 0
    ensures err.statusCode.Some? && err.statusCode.value != 0 ==> s == err.statusCode.value
    ensures err.statusCode.None? || err.statusCode.value == 0 ==> s == DefaultStatus
  {
    match err.statusCode
    case Some(code) => if code != 0 then code else DefaultStatus
    case None => DefaultStatus
  }

  /** `err.message || "Internal server error"`. */
  function MessageOf(err: Error): (m: string)
    ensures m != ""
    ensures err.message != "" ==> m == err.message
    ensures err.message == "" ==> m == DefaultMessage
  {
    if err.message != "" then err.message else DefaultMessage
  }

  /** The whole decision of `errorHandler`: defaults first, then the override for
      a duplicate-key violation, then `details` only when it is truthy. */
  function Respond(err: Error): (r: Response)
    ensures err.code == Some(DuplicateEntryCode) ==>
              r == Response(400, ResponseBody("Duplicate entry", Some("A country with this name already exists")))
    ensures err.code != Some(DuplicateEntryCode) ==>
              r.status == StatusOf(err) && r.body.error == MessageOf(err)
              && r.body.details == OrNull(err.details)
  {
    var status := StatusOf(err);
    var message := MessageOf(err);
    var details := OrNull(err.details);
    if err.code == Some(DuplicateEntryCode) then
      Response(400, ResponseBody("Duplicate entry", Some("A country with this name already exists")))
    else
      Response(status, ResponseBody(message, details))
  }

  /** Every response carries a real status and a non-empty `error` text, and its
      `details` key is present exactly when there is a non-empty detail to show. */
  lemma ResponseWellFormed(err: Error)
    ensures Respond(err).status != 0
    ensures Respond(err).body.error != ""
    ensures Respond(err).body.details.Some? <==>
              (err.code == Some(DuplicateEntryCode) || TruthyText(err.details))
    ensures Respond(err).body.details.Some? ==> Respond(err).body.details.value != ""
  {
  }

  /** An `AppError` with a non-zero status and a non-empty message is reported
      with exactly that status, message and details. */
  lemma AppErrorResponse(message: string, statusCode: int, details: Option<string>)
    requires message != "" && statusCode != 0
    ensures Respond(NewAppError(message, statusCode, details))
            == Response(statusCode, ResponseBody(message, OrNull(details)))
  {
  }

  /** A duplicate-key error overrides whatever status, message and details the
      error carried. */
  lemma DuplicateOverridesEverything(e1: Error, e2: Error)
    requires e1.code == Some(DuplicateEntryCode) && e2.code == Some(DuplicateEntryCode)
    ensures Respond(e1) == Respond(e2) && Respond(e1).status == 400
  {
  }
}
