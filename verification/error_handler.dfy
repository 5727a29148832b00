/** The application's final error-handling middleware
    (api/src/app.js): a schema-validation error becomes a 400 reply with one
    `{field, message}` entry per issue; any other error keeps its own status
    code, or gets 500. */
module ErrorHandler {
  import opened Common
  import Text

  /** One issue of a schema-validation error: where (a path of keys) and why. */
  datatype Issue = Issue(path: seq<string>, message: string)

  /** What a handler passes to `next(err)`: a ZodError with its issues, or
      any other error with its optional `statusCode` and `message`. */
  datatype AppError =
    | ZodError(issues: seq<Issue>)
    | OtherError(statusCode: Option<int>, message: Option<string>)

  /** The response entry for one issue: the path joined with ".". */
  function FieldOf(issue: Issue): FieldError {
    FieldError(Text.Join(issue.path, '.'), issue.message)
  }

  /** `issues.map(...)`: one entry per issue, in the issues' order. */
  function FieldErrors(issues: seq<Issue>): (r: seq<FieldError>)
    ensures |r| == |issues|
    ensures forall i :: 0 <= i < |issues| ==> r[i] == FieldOf(issues[i])
  {
    if issues == [] then [] else [FieldOf(issues[0])] + FieldErrors(issues[1..])
  }

  /** Placeholder for the message the schema library itself gives a field
      that is missing or not a string. */
  const ExpectedString := "Invalid input: expected string"

  const ValidationErrorMessage := "Validation error"
  const InternalErrorMessage := "Internal Server Error"

  /** The reply the error handler sends for `e`. */
  function HandleError<T>(e: AppError): (r: Reply<T>)
    ensures r.data.None?
    ensures e.ZodError? ==> r.status == StatusBadRequest && r.message == ValidationErrorMessage
                            && r.errors == Some(FieldErrors(e.issues))
    ensures e.OtherError? ==> r.errors.None?
    ensures e.OtherError? && (e.statusCode.None? || e.statusCode == Some(0)) ==> r.status == StatusInternal
    ensures e.OtherError? && e.statusCode.Some? && e.statusCode.value != 0 ==> r.status == e.statusCode.value
    ensures e.OtherError? ==> r.message == (if e.message.Some? && e.message.value != "" then e.message.value
                                            else InternalErrorMessage)
  {
    match e
    case ZodError(issues) =>
      Reply(StatusBadRequest, ValidationErrorMessage, None, Some(FieldErrors(issues)))
    case OtherError(code, msg) =>
      // `err.statusCode || 500` and `err.message || "Internal Server Error"`:
      // 0 and "" are falsy and fall back to the default.
      var status := if code.Some? && code.value != 0 then code.value else StatusInternal;
      var message := if msg.Some? && msg.value != "" then msg.value else InternalErrorMessage;
      Reply(status, message, None, None)
  }

  /** The field list of a validation-error reply loses nothing: entry i
      carries issue i's message, and issue i's path can be read back from
      the field name when no key of the path contains a dot. */
  lemma ValidationErrorsListEveryIssue(issues: seq<Issue>, i: int)
    requires 0 <= i < |issues|
    requires forall k :: 0 <= k < |issues[i].path| ==> '.' !in issues[i].path[k]
    requires |issues[i].path| >= 1
    ensures var r: Reply<()> := HandleError(ZodError(issues));
      && r.errors.Some? && |r.errors.value| == |issues|
      && Text.Split(r.errors.value[i].field, '.') == issues[i].path
      && r.errors.value[i].message == issues[i].message
  {
    Text.SplitJoin(issues[i].path, '.');
  }
}
