/**
 * models/store.go: the record the handlers move between the request body,
 * the store and the response, and the store interface they call. The store
 * is abstract: each call is logged and its result is an input.
 */
module Models {
  import opened Wrappers
  import opened Errors
  import opened RequestContext

  datatype IceCream = IceCream(
    name: string,
    imageOpen: string,
    imageClosed: string,
    story: string,
    description: string,
    sourcingValues: seq<string>,
    ingredients: seq<string>,
    allergyInfo: string,
    dietaryCertification: string,
    productId: string)

  /** A call the handlers make on the IceCreamStore. */
  datatype StoreCall = StoreContext(ctx: Context, rec: IceCream) | Get(name: string) | Update(rec: IceCream) | Delete(name: string)

  /** An IceCreamStore whose answers are supplied by the caller; `calls` records what it was asked. */
  class IceCreamStore {
    var calls: seq<StoreCall>

    constructor ()
      ensures calls == []
    {
      calls := [];
    }

    method StoreContext(ctx: Context, rec: IceCream, outcome: Option<Error>) returns (err: Option<Error>)
      modifies this
      ensures err == outcome && calls == old(calls) + [StoreCall.StoreContext(ctx, rec)]
    {
      calls := calls + [StoreCall.StoreContext(ctx, rec)];
      err := outcome;
    }

    method Get(name: string, outcome: Result<IceCream, Error>) returns (rec: Result<IceCream, Error>)
      modifies this
      ensures rec == outcome && calls == old(calls) + [StoreCall.Get(name)]
    {
      calls := calls + [StoreCall.Get(name)];
      rec := outcome;
    }

    method Update(rec: IceCream, outcome: Option<Error>) returns (err: Option<Error>)
      modifies this
      ensures err == outcome && calls == old(calls) + [StoreCall.Update(rec)]
    {
      calls := calls + [StoreCall.Update(rec)];
      err := outcome;
    }

    method Delete(name: string, outcome: Option<Error>) returns (err: Option<Error>)
      modifies this
      ensures err == outcome && calls == old(calls) + [StoreCall.Delete(name)]
    {
      calls := calls + [StoreCall.Delete(name)];
      err := outcome;
    }
  }
}

/**
 * handlers/icecream.go: the four handlers. The decoded request body, the
 * URL parameter, the store's answers and the outcome of encoding the
 * success body are inputs; what the handlers produce is the sequence of
 * responses they write.
 */
module IceCreamHandlers {
  import opened Wrappers
  import opened Errors
  import opened RequestContext
  import opened Http
  import opened HttpErrors
  import opened Response
  import opened Models

  /** What WriteJSON encodes: the string "", a record, or an error envelope. */
  datatype Body = EmptyString | Record(rec: IceCream) | ErrorBody(envelope: HttpError)

  /** One WriteJSON: the status written and the body encoded. */
  datatype Write = Write(status: int, body: Body)

  /** A response writer; `writes` holds every WriteJSON made on it, in order. */
  class ResponseWriter {
    var writes: seq<Write>

    constructor ()
      ensures writes == []
    {
      writes := [];
    }
  }

  /** The write WriteHandlerError makes for `he` on a request with context `ctx`. */
  function ErrorWrite(he: HandlerError, ctx: Context): (wr: Write)
    ensures wr.status == he.httpStatusCode && wr.body.ErrorBody? && wr.body.envelope.status == wr.status
  {
    Write(he.httpStatusCode, ErrorBody(Envelope(he, ctx)))
  }

  /** The message of the format error for a body that did not decode. */
  function FormatMessage(err: Error): string
  {
    "invalid input format. error: " + err.Text()
  }

  /** The message of the not-found error for a name without a row. */
  function NotFoundMessage(name: string): string
  {
    "Icecream: " + name + " Not Found"
  }

  /** WriteJSON: writes the status, then the body; `encodeErr` is the encoder's outcome. */
  method WriteJSON(status: int, body: Body, w: ResponseWriter, encodeErr: Option<Error>) returns (err: Option<Error>)
    modifies w
    ensures err == encodeErr && w.writes == old(w.writes) + [Write(status, body)]
  {
    w.writes := w.writes + [Write(status, body)];
    err := encodeErr;
  }

  /** httputils.WriteHandlerError on `w`: the envelope of `he`, under its status. */
  method WriteError(he: HandlerError, r: Request, w: ResponseWriter)
    modifies w
    ensures w.writes == old(w.writes) + [ErrorWrite(he, r.ctx)]
  {
    var status, httpError := WriteHandlerError(he, r);
    var _ := WriteJSON(status, ErrorBody(httpError), w, None);
  }

  /** IceCreamHandler: the handlers of the four routes, over one IceCreamStore. */
  class IceCreamHandler {
    const iceCreamStore: IceCreamStore

    constructor (iceCreamStore: IceCreamStore)
      ensures this.iceCreamStore == iceCreamStore
    {
      this.iceCreamStore := iceCreamStore;
    }

    /**
     * PostIceCreamData: a body that does not decode is a 400 and the store is
     * not called; a store failure is a 500; otherwise 201 with the string "",
     * followed by a 500 if encoding that body fails.
     */
    method PostIceCreamData(w: ResponseWriter, r: Request, decoded: Result<IceCream, Error>, storeErr: Option<Error>, encodeErr: Option<Error>)
      modifies w, iceCreamStore
      ensures decoded.Err? ==>
        && iceCreamStore.calls == old(iceCreamStore.calls)
        && w.writes == old(w.writes) + [ErrorWrite(NewFormatError(FormatMessage(decoded.error)), r.ctx)]
      ensures decoded.Ok? ==> iceCreamStore.calls == old(iceCreamStore.calls) + [StoreCall.StoreContext(r.ctx, decoded.value)]
      ensures decoded.Ok? && storeErr.Some? ==>
        w.writes == old(w.writes) + [ErrorWrite(NewUnexpectedError(storeErr.value), r.ctx)]
      ensures decoded.Ok? && storeErr.None? ==>
        w.writes == old(w.writes) + [Write(StatusCreated, EmptyString)] +
          (if encodeErr.Some? then [ErrorWrite(NewUnexpectedError(encodeErr.value), r.ctx)] else [])
    {
      if decoded.Err? {
        var msg := FormatMessage(decoded.error);
        WriteError(NewFormatError(msg), r, w);
        return;
      }
      var iceCreamTask := decoded.value;
      var err := iceCreamStore.StoreContext(r.ctx, iceCreamTask, storeErr);
      if err.Some? {
        WriteError(NewUnexpectedError(err.value), r, w);
        return;
      }
      err := WriteJSON(StatusCreated, EmptyString, w, encodeErr);
      if err.Some? {
        WriteError(NewUnexpectedError(err.value), r, w);
        return;
      }
    }

    /**
     * GetIceCreamData: no row for the name is a 404 naming it, any other
     * store failure a 500; otherwise 200 with the record, followed by a 500
     * if encoding it fails.
     */
    method GetIceCreamData(w: ResponseWriter, r: Request, iceCreamName: string, stored: Result<IceCream, Error>, encodeErr: Option<Error>)
      modifies w, iceCreamStore
      ensures iceCreamStore.calls == old(iceCreamStore.calls) + [StoreCall.Get(iceCreamName)]
      ensures stored == Err(ErrNoRows) ==>
        w.writes == old(w.writes) + [ErrorWrite(NewNotFoundError(NotFoundMessage(iceCreamName)), r.ctx)]
      ensures stored.Err? && stored.error != ErrNoRows ==>
        w.writes == old(w.writes) + [ErrorWrite(NewUnexpectedError(stored.error), r.ctx)]
      ensures stored.Ok? ==>
        w.writes == old(w.writes) + [Write(StatusOK, Record(stored.value))] +
          (if encodeErr.Some? then [ErrorWrite(NewUnexpectedError(encodeErr.value), r.ctx)] else [])
    {
      var iceCreamData := iceCreamStore.Get(iceCreamName, stored);
      if iceCreamData.Err? {
        if iceCreamData.error == ErrNoRows {
          WriteError(NewNotFoundError(NotFoundMessage(iceCreamName)), r, w);
          return;
        }
        WriteError(NewUnexpectedError(iceCreamData.error), r, w);
        return;
      }
      var err := WriteJSON(StatusOK, Record(iceCreamData.value), w, encodeErr);
      if err.Some? {
        WriteError(NewUnexpectedError(err.value), r, w);
        return;
      }
    }

    /**
     * UpdateIceCreamData: a body that does not decode is a 400 and the store
     * is not called; a store failure is a 500; otherwise 200 with "".
     */
    method UpdateIceCreamData(w: ResponseWriter, r: Request, decoded: Result<IceCream, Error>, storeErr: Option<Error>, encodeErr: Option<Error>)
      modifies w, iceCreamStore
      ensures decoded.Err? ==>
        && iceCreamStore.calls == old(iceCreamStore.calls)
        && w.writes == old(w.writes) + [ErrorWrite(NewFormatError(FormatMessage(decoded.error)), r.ctx)]
      ensures decoded.Ok? ==> iceCreamStore.calls == old(iceCreamStore.calls) + [StoreCall.Update(decoded.value)]
      ensures decoded.Ok? && storeErr.Some? ==>
        w.writes == old(w.writes) + [ErrorWrite(NewUnexpectedError(storeErr.value), r.ctx)]
      ensures decoded.Ok? && storeErr.None? ==>
        w.writes == old(w.writes) + [Write(StatusOK, EmptyString)] +
          (if encodeErr.Some? then [ErrorWrite(NewUnexpectedError(encodeErr.value), r.ctx)] else [])
    {
      if decoded.Err? {
        var msg := FormatMessage(decoded.error);
        WriteError(NewFormatError(msg), r, w);
        return;
      }
      var iceCreamTask := decoded.value;
      var err := iceCreamStore.Update(iceCreamTask, storeErr);
      if err.Some? {
        WriteError(NewUnexpectedError(err.value), r, w);
        return;
      }
      err := WriteJSON(StatusOK, EmptyString, w, encodeErr);
      if err.Some? {
        WriteError(NewUnexpectedError(err.value), r, w);
        return;
      }
    }

    /** DeleteIceCreamData: a store failure is a 500; otherwise 200 with "". */
    method DeleteIceCreamData(w: ResponseWriter, r: Request, iceCreamName: string, storeErr: Option<Error>, encodeErr: Option<Error>)
      modifies w, iceCreamStore
      ensures iceCreamStore.calls == old(iceCreamStore.calls) + [StoreCall.Delete(iceCreamName)]
      ensures storeErr.Some? ==>
        w.writes == old(w.writes) + [ErrorWrite(NewUnexpectedError(storeErr.value), r.ctx)]
      ensures storeErr.None? ==>
        w.writes == old(w.writes) + [Write(StatusOK, EmptyString)] +
          (if encodeErr.Some? then [ErrorWrite(NewUnexpectedError(encodeErr.value), r.ctx)] else [])
    {
      var err := iceCreamStore.Delete(iceCreamName, storeErr);
      if err.Some? {
        WriteError(NewUnexpectedError(err.value), r, w);
        return;
      }
      err := WriteJSON(StatusOK, EmptyString, w, encodeErr);
      if err.Some? {
        WriteError(NewUnexpectedError(err.value), r, w);
        return;
      }
    }
  }

  /**
   * A body that does not decode is answered 400 "bad_request" with one
   * format_error sub-error carrying the decoder's message, which marshals as
   * {"code": "format_error", "message": ...}.
   */
  lemma FormatErrorResponse(err: Error, ctx: Context)
    ensures var wr := ErrorWrite(NewFormatError(FormatMessage(err)), ctx);
      && wr.status == StatusBadRequest
      && wr.body.envelope.code == "bad_request"
      && wr.body.envelope.errors == [Some(SubError(FormatError, map["message" := FormatMessage(err)]))]
      && MarshalDetails(wr.body.envelope.errors[0].value) == map["message" := FormatMessage(err), "code" := "format_error"]
  {
    ErrorCodeStringsTable();
  }

  /** Store and encoding failures are answered 500 "internal_server_error" with no sub-errors. */
  lemma UnexpectedErrorResponse(err: Error, ctx: Context)
    ensures var wr := ErrorWrite(NewUnexpectedError(err), ctx);
      && wr.status == StatusInternalServerError
      && wr.body.envelope.code == "internal_server_error"
      && wr.body.envelope.errors == []
  {
  }

  /** A name without a row is answered 404 "not_found" with a not_found sub-error naming it. */
  lemma NotFoundResponse(name: string, ctx: Context)
    ensures var wr := ErrorWrite(NewNotFoundError(NotFoundMessage(name)), ctx);
      && wr.status == StatusNotFound
      && wr.body.envelope.code == "not_found"
      && wr.body.envelope.errors == [Some(SubError(NotFound, map["message" := "Icecream: " + name + " Not Found"]))]
      && MarshalDetails(wr.body.envelope.errors[0].value) == map["message" := NotFoundMessage(name), "code" := "not_found"]
  {
    ErrorCodeStringsTable();
  }
}
