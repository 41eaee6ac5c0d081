/**
 * httputils/response.go: the status-to-code table, the token abbreviation
 * used in log lines, and the error envelope WriteHandlerError writes.
 */
module Response {
  import opened Wrappers
  import opened Strings
  import opened RequestContext
  import opened Http
  import opened HttpErrors

  /** httpStatusCodes. */
  const HttpStatusCodes: map<int, string> := map[
    StatusInternalServerError := "internal_server_error",
    StatusConflict := "conflict",
    StatusNotFound := "not_found",
    StatusBadRequest := "bad_request",
    StatusUnauthorized := "unauthorized",
    StatusForbidden := "forbidden"
  ]

  /** `httpStatusCodes[status]`, "" when the status has no entry. */
  function HttpCode(status: int): string
  {
    if status in HttpStatusCodes then HttpStatusCodes[status] else ""
  }

  /** Reveals at most the first four characters of a token, followed by "...". */
  function AbbreAuthToken(authToken: string): (r: string)
    ensures |r| == (if |authToken| < 4 then |authToken| else 4) + 3
    ensures r[..|r| - 3] == authToken[..|r| - 3] && r[|r| - 3..] == "..."
    ensures |authToken| <= 4 ==> r == authToken + "..."
  {
    var charsToReveal := if |authToken| < 4 then |authToken| else 4;
    authToken[..charsToReveal] + "..."
  }

  /**
   * The first "Bearer " anywhere in the header is removed before abbreviating;
   * for a well-formed header that is the token after the prefix.
   */
  function GetAbbreAuthToken(authorization: string): (r: string)
    ensures HasPrefix(authorization, "Bearer ") ==> r == AbbreAuthToken(authorization[7..])
    ensures forall i: nat :: OccursAt(authorization, "Bearer ", i) && (forall j: nat :: j < i ==> !OccursAt(authorization, "Bearer ", j)) ==>
      r == AbbreAuthToken(authorization[..i] + authorization[i + 7..])
    ensures (forall j :: !OccursAt(authorization, "Bearer ", j)) ==> r == AbbreAuthToken(authorization)
  {
    AbbreAuthToken(RemoveFirst(authorization, "Bearer "))
  }

  /** A "Bearer " after another scheme is still the one removed: "Token Bearer abcd" is logged as "Toke...". */
  lemma InnerBearerRemoved()
    ensures GetAbbreAuthToken("Token Bearer abcd") == "Toke..."
  {
    var h := "Token Bearer abcd";
    assert OccursAt(h, "Bearer ", 6);
    forall j | 0 <= j < 6
      ensures !OccursAt(h, "Bearer ", j)
    {
      assert h[j] != 'B';
    }
    assert h[..6] + h[13..] == "Token abcd";
  }

  /** The context's string under "requestId", or "" when absent or not a string. */
  function RequestId(ctx: Context): string
  {
    if RequestIdKey in ctx && ctx[RequestIdKey].Str? then ctx[RequestIdKey].s else ""
  }

  /** HTTPError: the JSON envelope `{httpStatus, httpCode, requestId, errors}`. */
  datatype HttpError = HttpError(status: int, code: string, requestId: string, errors: seq<Option<SubError>>)

  /** Statuses whose envelope carries no sub-errors. */
  predicate HidesSubErrors(status: int)
  {
    status == StatusInternalServerError || status == StatusForbidden || status == StatusUnauthorized
  }

  /** The envelope written for `handlerErr` on a request with context `ctx`. */
  function Envelope(handlerErr: HandlerError, ctx: Context): HttpError
  {
    HttpError(
      handlerErr.httpStatusCode,
      HttpCode(handlerErr.httpStatusCode),
      RequestId(ctx),
      if HidesSubErrors(handlerErr.httpStatusCode) then [] else handlerErr.subErrors)
  }

  /**
   * WriteHandlerError without its logging and JSON encoding: the status
   * written and the envelope encoded.
   */
  method WriteHandlerError(handlerErr: HandlerError, r: Request) returns (status: int, httpError: HttpError)
    ensures status == handlerErr.httpStatusCode && httpError.status == status
    ensures httpError.code == HttpCode(status)
    ensures httpError.code == "" <==> status !in HttpStatusCodes
    ensures httpError.requestId == RequestId(r.ctx)
    ensures HidesSubErrors(status) ==> httpError.errors == []
    ensures !HidesSubErrors(status) ==> httpError.errors == handlerErr.subErrors
    ensures httpError == Envelope(handlerErr, r.ctx)
  {
    var requestID := "";
    if RequestIdKey in r.ctx && r.ctx[RequestIdKey].Str? {
      requestID := r.ctx[RequestIdKey].s;
    }
    httpError := HttpError(handlerErr.httpStatusCode, HttpCode(handlerErr.httpStatusCode), requestID, handlerErr.subErrors);
    if handlerErr.httpStatusCode == StatusInternalServerError
      || handlerErr.httpStatusCode == StatusForbidden
      || handlerErr.httpStatusCode == StatusUnauthorized
    {
      httpError := httpError.(errors := []);
    }
    status := handlerErr.httpStatusCode;
  }
}
