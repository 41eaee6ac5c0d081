/**
 * The request-scoped context. Go's `context.WithValue` chain is a map from
 * key to value in which the binding made last wins, so deriving a context is
 * a map update and never changes the parent.
 */
module RequestContext {
  /** Identity of a database transaction handle (`*sql.Tx`). */
  type TxId = nat

  /**
   * The keys the core uses: router.ContextKeyScopes, router.ContextKeyAuthToken,
   * db.contextKeyTx and httputils.ContextRequestIDKey. Each has its own Go
   * type, so no two of them collide.
   */
  datatype Key = ScopesKey | AuthTokenKey | TxKey | RequestIdKey

  /** A stored value, by dynamic type; `OtherValue` is any type the core does not assert. */
  datatype Value = Str(s: string) | Strings(items: seq<string>) | Tx(id: TxId) | OtherValue

  type Context = map<Key, Value>
}

/** The parts of net/http the core touches. */
module Http {
  import opened RequestContext

  const StatusOK := 200
  const StatusCreated := 201
  const StatusBadRequest := 400
  const StatusUnauthorized := 401
  const StatusForbidden := 403
  const StatusNotFound := 404
  const StatusConflict := 409
  const StatusGone := 410
  const StatusInternalServerError := 500

  /**
   * An inbound request: the value of its Authorization header (`Header.Get`
   * gives "" when the header is absent) and its context.
   */
  datatype Request = Request(authorization: string, ctx: Context)
}
