/**
 * httputils/error.go: error codes, sub-errors, handler errors and their
 * constructors, and the rewrite that SubError.MarshalJSON applies to a
 * sub-error's details before they are encoded.
 */
module HttpErrors {
  import opened Wrappers
  import opened Errors
  import opened Http

  /** The ErrorCode enumeration (iota 1 through 10). */
  datatype ErrorCode =
    | Custom
    | NotFound
    | FormatError
    | BadRequest
    | InvalidScope
    | UnexpectedError
    | NotImplemented
    | InvalidOperation
    | InvalidParameter
    | Deprecated

  /** ErrorCodeStrings; `Custom` has no entry. */
  const ErrorCodeStrings: map<ErrorCode, string> := map[
    FormatError := "format_error",
    NotFound := "not_found",
    BadRequest := "bad_request",
    InvalidScope := "invalid_scope",
    UnexpectedError := "unexpected_server_error",
    NotImplemented := "not_implemented",
    InvalidOperation := "invalid_operation",
    InvalidParameter := "invalid_parameter",
    Deprecated := "deprecated"
  ]

  /** `ErrorCodeStrings[code]`: a Go map read gives "" for a missing key. */
  function CodeString(code: ErrorCode): string
  {
    if code in ErrorCodeStrings then ErrorCodeStrings[code] else ""
  }

  /** Every code but `Custom` has a distinct, non-empty string. */
  lemma ErrorCodeStringsTable()
    ensures forall c :: c in ErrorCodeStrings <==> c != Custom
    ensures forall c :: c != Custom ==> CodeString(c) != ""
    ensures forall c, d :: c in ErrorCodeStrings && d in ErrorCodeStrings && c != d ==> ErrorCodeStrings[c] != ErrorCodeStrings[d]
    ensures CodeString(Custom) == ""
  {
  }

  /** ErrorDetails; every value the core stores in it is a string. */
  type Details = map<string, string>

  datatype SubError = SubError(code: ErrorCode, details: Details)

  /**
   * A *SubError is a pointer, so a sub-error list may hold nil (`None`):
   * `NewHandlerError(status, nil)` passes one nil element.
   */
  datatype HandlerError = HandlerError(httpStatusCode: int, subErrors: seq<Option<SubError>>)

  function NewSubError(code: ErrorCode, key: string, value: string): SubError
  {
    SubError(code, map[key := value])
  }

  function NewHandlerError(statusCode: int, subErrors: seq<Option<SubError>>): HandlerError
  {
    HandlerError(statusCode, subErrors)
  }

  function NewNotFoundError(message: string): HandlerError
  {
    NewHandlerError(StatusNotFound, [Some(NewSubError(NotFound, "message", message))])
  }

  function NewFormatError(message: string): HandlerError
  {
    NewHandlerError(StatusBadRequest, [Some(NewSubError(FormatError, "message", message))])
  }

  function NewInvalidOperation(message: string): HandlerError
  {
    NewHandlerError(StatusConflict, [Some(NewSubError(InvalidOperation, "message", message))])
  }

  function NewInvalidParameterError(message: string): HandlerError
  {
    NewHandlerError(StatusBadRequest, [Some(NewSubError(InvalidParameter, "message", message))])
  }

  function NewUnexpectedError(err: Error): HandlerError
  {
    NewHandlerError(StatusInternalServerError, [Some(NewSubError(UnexpectedError, "error", err.Text()))])
  }

  function NewDeprecatedError(message: string): HandlerError
  {
    NewHandlerError(StatusGone, [Some(NewSubError(Deprecated, "message", message))])
  }

  /** Built with a "code" detail, then given a "message" detail in place. */
  function NewCustomError(httpStatus: int, code: string, message: string): HandlerError
  {
    var built := NewSubError(Custom, "code", code);
    var subError := built.(details := built.details["message" := message]);
    NewHandlerError(httpStatus, [Some(subError)])
  }

  /**
   * The details SubError.MarshalJSON encodes: for every code but `Custom` the
   * "code" detail is set to the code's string, replacing any earlier value;
   * a `Custom` sub-error keeps its details as they are.
   */
  function MarshalDetails(e: SubError): (d: Details)
    ensures e.code == Custom ==> d == e.details
    ensures e.code != Custom ==> "code" in d && d["code"] == ErrorCodeStrings[e.code]
    ensures d.Keys == e.details.Keys + (if e.code == Custom then {} else {"code"})
    ensures forall k :: k in e.details && k != "code" ==> d[k] == e.details[k]
  {
    ErrorCodeStringsTable();
    if e.code != Custom then e.details["code" := CodeString(e.code)] else e.details
  }

  /** MarshalJSON writes into the sub-error's own map, so marshalling it again changes nothing more. */
  lemma MarshalIdempotent(e: SubError)
    ensures MarshalDetails(e.(details := MarshalDetails(e))) == MarshalDetails(e)
  {
  }

  /**
   * The constructors that take a message: the status each maps to, one
   * sub-error, and the JSON object that sub-error marshals to
   * (`{"code": <code string>, "message": message}`).
   */
  lemma {:induction false} MessageConstructors(message: string)
    ensures var e := NewNotFoundError(message);
      e.httpStatusCode == 404 && |e.subErrors| == 1 && e.subErrors[0].Some? &&
      MarshalDetails(e.subErrors[0].value) == map["message" := message, "code" := "not_found"]
    ensures var e := NewFormatError(message);
      e.httpStatusCode == 400 && |e.subErrors| == 1 && e.subErrors[0].Some? &&
      MarshalDetails(e.subErrors[0].value) == map["message" := message, "code" := "format_error"]
    ensures var e := NewInvalidParameterError(message);
      e.httpStatusCode == 400 && |e.subErrors| == 1 && e.subErrors[0].Some? &&
      MarshalDetails(e.subErrors[0].value) == map["message" := message, "code" := "invalid_parameter"]
    ensures var e := NewInvalidOperation(message);
      e.httpStatusCode == 409 && |e.subErrors| == 1 && e.subErrors[0].Some? &&
      MarshalDetails(e.subErrors[0].value) == map["message" := message, "code" := "invalid_operation"]
    ensures var e := NewDeprecatedError(message);
      e.httpStatusCode == 410 && |e.subErrors| == 1 && e.subErrors[0].Some? &&
      MarshalDetails(e.subErrors[0].value) == map["message" := message, "code" := "deprecated"]
  {
  }

  /** NewUnexpectedError: 500, one sub-error whose "error" detail is the error's text. */
  lemma {:induction false} UnexpectedErrorShape(err: Error)
    ensures var e := NewUnexpectedError(err);
      e.httpStatusCode == 500 && |e.subErrors| == 1 && e.subErrors[0].Some? &&
      e.subErrors[0].value.code == UnexpectedError &&
      MarshalDetails(e.subErrors[0].value) == map["error" := err.Text(), "code" := "unexpected_server_error"]
  {
  }

  /**
   * NewCustomError: the given status and one `Custom` sub-error whose details,
   * before and after marshalling, are exactly the caller's code and message.
   */
  lemma {:induction false} CustomErrorShape(httpStatus: int, code: string, message: string)
    ensures var e := NewCustomError(httpStatus, code, message);
      e.httpStatusCode == httpStatus && |e.subErrors| == 1 && e.subErrors[0].Some? &&
      e.subErrors[0].value.code == Custom &&
      e.subErrors[0].value.details == map["code" := code, "message" := message] &&
      MarshalDetails(e.subErrors[0].value) == map["code" := code, "message" := message]
  {
  }
}
