# benjerry: authentication, scope gates, error envelopes and transactions

benjerry is a small HTTP service that stores ice-cream records in
PostgreSQL. This project models the part of it that decides what happens to
a request before and around the store:

- the **authenticator** (`router/middleware.go`), which tries an ordered list
  of auth handlers and stops at the first that succeeds, and the
  **static-token handler**, which checks the `Bearer ` prefix and looks the
  token up in a table of granted scopes;
- the **scope gates** `AnyScope` and `AllScopes` (`router/scopes.go`);
- the **static-token table** decoder `StaticTokens.Decode`
  (`configs/config.go`), for values like `tok=s1,s2;tok2=s3`;
- the **handler errors** (`httputils/error.go`): codes, their strings,
  constructors, and the `"code"` rewrite of `SubError.MarshalJSON`;
- the **error envelope** `WriteHandlerError` builds, the status-to-code
  table and the token abbreviation (`httputils/response.go`);
- the **transaction wrapper** `WithTxContext` / `WithTx` and `GetContextDB`
  (`db/postgres.go`), over an abstract database that logs what it is asked;
- the four **ice-cream handlers** (`handlers/icecream.go`), with the decoded
  body, the store's answers and the encoder's outcome as inputs;
- the **route table** and `NewRouter` (`router/routes.go`), composed into
  one function that says whether a request reaches its handler.

Request contexts are maps from the keys the code uses (`ContextKeyScopes`,
`ContextKeyAuthToken`, `contextKeyTx`, `"requestId"`) to values; a Go type
assertion on a context value becomes a check of the value's variant. A
`*SubError` may be nil, so sub-error lists hold `Option<SubError>`;
`NewHandlerError(401, nil)` is the list `[None]`.

Files: `wrappers.dfy` (Option, Result), `errors.dfy` (Go errors, with
`sql.ErrNoRows`), `context.dfy` (contexts, requests, status constants),
`strings.dfy` (`strings.HasPrefix`, `Replace(…, 1)`, `Split` and a `Join`
used to state round trips), `httperrors.dfy`, `response.dfy`,
`config.dfy`, `scopes.dfy`, `middleware.dfy`, `routes.dfy`,
`postgres.dfy`, `icecream.dfy` (the store interface and the handlers).

Where the code and its documentation could be read differently, the model
follows the code:

- An authenticator with no handlers does not fail closed: no error is
  written and the wrapped handler is called with a nil request
  (`router/middleware.go:41-58`; `Middleware.EmptyChainServesNil`).
- The scope gates have no wildcard: `"*"` passes only because every route
  lists it (`Routes.WildcardAdmittedEverywhere`).
- `WithTxContext` always begins a new transaction, even when the context
  already holds one; inside the work the new one shadows the outer
  (`Postgres.WorkResolvesToNewTx`).

## Model

| member | source | states |
|---|---|---|
| Middleware.Authenticate | router/middleware.go:39-60 | the loop calls handlers in order and stops at the first without an error: the handlers called are exactly indices 0 … `Invoked`-1 in that order, and the outcome is `Chain` of the handlers' results |
| Middleware.FirstSuccess | router/middleware.go:46-51 | the index returned is the least one whose result has no error, or the length when all fail |
| Middleware.ChainStopsAtFirstSuccess | router/middleware.go:46-58 | when result k is the first success, the request it returned is forwarded and exactly k+1 handlers are called |
| Middleware.ChainFailure | router/middleware.go:53-56 | an error is written exactly when there are handlers and all fail; it is the last handler's error, after every handler was called |
| Middleware.EmptyChainServesNil | router/middleware.go:41-58 | with no handlers nothing is written and the wrapped handler gets a nil request |
| Middleware.ChainExamples | router/middleware.go:46-58 | the pass/fail orderings of the chain tests: success first, failure then success, two failures |
| Middleware.Attempts | router/middleware.go:46-47 | every handler is applied to the original request, one result per handler |
| Middleware.StaticTokenAuthenticate | router/middleware.go:75-93 | without the exact `Bearer ` prefix: 401 InvalidScope "Authorization Type 'Bearer ' is missing"; otherwise the token is the rest of the header, and a known token yields the request with its scopes and token in the context, an unknown one 401 with one nil sub-error |
| Middleware.SchemeCheckPrecedesLookup | router/middleware.go:78-81 | for a header without the prefix the result does not depend on the token table |
| Middleware.AuthContextBindings | router/middleware.go:86-88 | the derived context maps the scopes key to the table's scopes and the token key to the token and keeps every other binding |
| Scopes.AnyScope | router/scopes.go:33-37 | the scope set holds exactly the registered scopes |
| Scopes.ServeAnyScope | router/scopes.go:38-55 | forwards iff the context has granted scopes and one of them is registered; no scopes in the context: 401 "context does not have scope set"; disjoint: 401 with one nil sub-error |
| Scopes.ServeAllScopes | router/scopes.go:59-86 | forwards iff the context has granted scopes and every registered scope is among them, with the same two refusals |
| Scopes.NoScopesFailsClosed | router/scopes.go:40-45 | both gates refuse a context without scopes with a 401 different from the mismatch refusal |
| Scopes.AnyOfSetSemantics | router/scopes.go:47-53 | two granted lists with the same members get the same any-of verdict |
| Scopes.AnyOfEmptyRejects | router/scopes.go:47-53 | an empty registered list rejects every request |
| Scopes.AllOfSetSemantics | router/scopes.go:69-81 | granting more scopes or registering fewer never turns an all-of pass into a refusal |
| Scopes.AllOfEmptyPasses | router/scopes.go:69-82 | an empty registered list passes every request whose context has scopes |
| Scopes.ScopeGateExamples | router/scopes.go:33-86 | the any-of cases and the first three all-of cases of the scope tests (granted first, second, third), including order independence |
| Scopes.AllOfFewerGrantedRejects | router/scopes.go:69-80 | the last all-of test case: granted first and second, registered first, third and second, refused with 401 |
| Configs.StaticTokens.Decode | configs/config.go:36-50 | on success the table becomes `DecodeTable(value)` and nothing is returned; on failure the error is returned and the table is left as it was |
| Configs.DecodeEntriesSucceeds | configs/config.go:38-47 | decoding on top of a table succeeds iff every entry is well formed and no token repeats or is already present |
| Configs.DecodeEntriesKeys | configs/config.go:43-46 | after success the keys are those of the starting table plus one fresh token per entry, and nothing else |
| Configs.DecodeEntriesValues | configs/config.go:46 | after success the starting table's bindings are kept and each entry's token maps to its comma-split scopes |
| Configs.DecodeEntriesContents | configs/config.go:43-46 | after success every decoded token maps to its comma-split scopes and the table grows by one entry per entry |
| Configs.DecodeEntriesFails | configs/config.go:38-45 | a failure names the first entry that goes wrong: every entry before it is well formed with a fresh token, and it is malformed or reuses a token of the starting table or of an earlier entry |
| Configs.DecodeTableCharacterization | configs/config.go:36-50 | Decode succeeds iff every `;`-entry has exactly one `=` and tokens are distinct; then the table maps each token to its scopes and has one key per entry |
| Configs.DecodeTableErrors | configs/config.go:38-45 | an "invalid static token" error names the first entry that does not split into two parts; a "duplicate bearer token" error names a token an earlier entry has; every entry before the named one was accepted |
| Configs.FirstBadEntryReported | configs/config.go:38-42 | of two bad entries the first is reported: `a=b;c;d=e=f` fails on `c` |
| Configs.DecodedScopesNonEmpty | configs/config.go:46 | every decoded scope list has at least one element |
| Configs.EmptyValueRejected | configs/config.go:38-41 | the empty value is rejected as an invalid static token "" |
| Configs.TrailingSemicolonRejected | configs/config.go:38-41 | a value ending in `;` is rejected |
| Configs.EncodedEntry | configs/config.go:39-46 | an entry written as `token=s1,s2` is well formed and splits back into that token and those scopes |
| Configs.DecodeEncode | configs/config.go:36-50 | a table written out from distinct tokens and separator-free scopes decodes back to exactly those tokens and scope lists |
| Strings.Split | configs/config.go:38-39 | `strings.Split` gives one more part than there are separators and no part contains the separator |
| Strings.SplitJoin | configs/config.go:38-46 | splitting a join of separator-free parts gives the parts back |
| Strings.JoinSplit | configs/config.go:38 | joining the parts of a split gives the string back |
| Strings.RemoveFirst | router/middleware.go:83 | `strings.Replace(s, p, "", 1)` removes the first occurrence of p wherever it is (so the prefix when s starts with it) and changes nothing when p does not occur |
| HttpErrors.ErrorCodeStringsTable | httputils/error.go:11-38 | every code but Custom has a string, the strings are distinct and non-empty, and Custom's lookup gives "" |
| HttpErrors.MarshalDetails | httputils/error.go:50-55 | for every code but Custom the `"code"` detail is set to the code's string, other details unchanged; Custom details are encoded as they are |
| HttpErrors.MarshalIdempotent | httputils/error.go:50-55 | marshalling a sub-error whose map was already rewritten changes nothing more |
| HttpErrors.MessageConstructors | httputils/error.go:98-131 | not-found 404, format 400, invalid-parameter 400, invalid-operation 409, deprecated 410, each one sub-error marshalling to `{"code": <its string>, "message": message}` |
| HttpErrors.UnexpectedErrorShape | httputils/error.go:122-125 | 500 with one UnexpectedError sub-error marshalling to `{"code": "unexpected_server_error", "error": err.Error()}` |
| HttpErrors.CustomErrorShape | httputils/error.go:134-138 | the given status and one Custom sub-error whose details are exactly code and message, before and after marshalling |
| Response.AbbreAuthToken | httputils/response.go:28-34 | the first min(4, length) characters followed by "...", the whole token when it has at most four |
| Response.GetAbbreAuthToken | httputils/response.go:37-40 | the header with its first `Bearer `, wherever it is, removed is abbreviated; for a `Bearer ` header that is the token after the prefix; a header without `Bearer ` is abbreviated as it is |
| Response.InnerBearerRemoved | httputils/response.go:38 | a `Bearer ` after another scheme is still removed: `Token Bearer abcd` is logged as `Toke...` |
| Response.WriteHandlerError | httputils/response.go:43-74 | the status written is the handler error's; the envelope has that status, `httpStatusCodes[status]` ("" iff unmapped), the context's request id, and no sub-errors iff the status is 500, 403 or 401, else the handler error's |
| Postgres.GetContextDB | db/postgres.go:96-104 | the transaction stored in the context if there is one, else the pool; never an error |
| Postgres.WorkResolvesToNewTx | db/postgres.go:50-51 | inside the work the context resolves to the transaction just begun, whatever the outer context held |
| Postgres.OtherKeysDoNotResolve | db/postgres.go:96-104 | bindings under other keys do not change what a context resolves to |
| Postgres.TxProtocol | db/postgres.go:53-63 | failed work: rollback, its error returned, no commit; failed commit: rollback, commit error returned; otherwise one commit, no rollback, nil; rollback's outcome never changes the result |
| Postgres.FinishedLogCommitsOnlySuccess | db/postgres.go:51-58 | in a log of finished transactions every commit comes right after work on that transaction that succeeded |
| Postgres.DB.ValidLogCommitsOnlySuccess | db/postgres.go:43-83 | the log of a database used only through the wrappers never commits failed work |
| Postgres.DB.WithTxContext | db/postgres.go:44-64 | begin failure: that error, no work and nothing logged; else the work gets the context with the new transaction, the log grows by that transaction's begin, work and commit or rollback, and the result is `TxResult` |
| Postgres.DB.WithTx | db/postgres.go:67-83 | the same protocol with the transaction passed to the work |
| IceCreamHandlers.WriteJSON | httputils/response.go:73-77 | the status and the body are written to the writer, after everything written before, and the encoder's error is returned |
| IceCreamHandlers.WriteError | httputils/response.go:43-74 | exactly one write is added: the handler error's status with the envelope WriteHandlerError builds for the request |
| IceCreamHandlers.IceCreamHandler.PostIceCreamData | handlers/icecream.go:26-46 | undecodable body: 400 format error, store not called; store error: 500; else the record is stored with the request context and 201 "" is written, then a 500 if encoding fails |
| IceCreamHandlers.IceCreamHandler.GetIceCreamData | handlers/icecream.go:49-68 | the store is asked for the name; no row: 404 "Icecream: <name> Not Found"; other error: 500; else 200 with the record, then a 500 if encoding fails |
| IceCreamHandlers.IceCreamHandler.UpdateIceCreamData | handlers/icecream.go:72-92 | undecodable body: 400, store not called; update error: 500; else 200 "" |
| IceCreamHandlers.IceCreamHandler.DeleteIceCreamData | handlers/icecream.go:95-110 | the store is asked to delete the name; error: 500; else 200 "" |
| IceCreamHandlers.FormatErrorResponse | handlers/icecream.go:30-33 | the response is 400 "bad_request" with one sub-error marshalling to `{"code": "format_error", "message": "invalid input format. error: …"}` |
| IceCreamHandlers.UnexpectedErrorResponse | handlers/icecream.go:37-40 | store and encoding failures are 500 "internal_server_error" with an empty errors list |
| IceCreamHandlers.NotFoundResponse | handlers/icecream.go:54-58 | no row is 404 "not_found" with one sub-error whose message names the ice cream |
| Routes.NewRouter | router/routes.go:27-34 | the authenticator holds exactly one static-token handler over the given table |
| Routes.Admit | router/routes.go:45-58 | authentication runs first: its error is the refusal and its nil request goes on as nil; an authenticated request then meets the route's AnyScope gate, and an admitted request carries a granted scope the route lists |
| Routes.AdmitCharacterization | router/routes.go:45-58 | on a route, a request is admitted iff its header is `Bearer ` plus a known token whose scopes meet the route's any-of list, carrying that token and scopes; every refusal is a 401, never the missing-scopes fault, and no request goes on as nil |
| Routes.WildcardAdmittedEverywhere | router/routes.go:48-58 | a token granted `"*"` is admitted on all four routes |
| Routes.ReadOnlyTokenReachesOnlyRead | router/routes.go:48-58 | a token granted only `read.icecream` is admitted on read and refused with 401 on create, update and delete |

## Left out

- Logging (`log.WithFields` in WriteHandlerError, `fmt.Println` in DeleteIceCreamData) and the `String()` methods, which iterate Go maps in no fixed order.
- JSON encoding and decoding: the decoded request body, the encoder's outcome and `MarshalJSON`'s result are values; only which details are encoded is modelled.
- The `log.Fatal` when encoding an error envelope fails ends the process; the model takes that encoding to succeed.
- A write after WriteJSON's header has been sent adds a second entry to the writer's list; the HTTP server would keep only the first status.
- `SubError.MarshalJSON` writes `"code"` into the shared details map in place; `HttpErrors.MarshalDetails` returns the rewritten map instead (`HttpErrors.MarshalIdempotent` covers marshalling twice).
- Response.AbbreAuthToken: lengths and slices count characters, where Go's `len` and `authToken[:4]` count UTF-8 bytes; for a token with non-ASCII characters Go reveals fewer characters (or splits one), which the model does not capture. The other string operations agree on bytes and characters because their separators are ASCII.
- Detail values are strings only: every detail the core stores is a string.
- ErrorCode values outside the enum, and the JSON `null` a nil sub-error encodes to.
- chi internals: the route matcher, `chi.URLParam` (the ice-cream name is an input), and the RequestID, RealIP and Recoverer middleware. chi's RequestID stores its id under its own key, not under `"requestId"`, so WriteHandlerError finds `""` unless something else sets that key; the model keeps whatever the context holds.
- Concurrent request serving by the HTTP server.
- The SQL statements the store and the work functions run: the database's Begin, Commit and Rollback outcomes and the work's result are inputs. models/postgres/icecreamstore.go is not part of this model; of it only the fact that `StoreContext` alone resolves its handle through GetContextDB matters here, and GetContextDB is modelled.
- `NewPostgresDB`, `configs.Load` (envconfig), db/migrate.go, scripts, `main`.
- `Middleware.NewAuthenticator`, `Middleware.NewStaticTokenAuthenticator`: plain constructors, with no contract beyond building the value.
- `AddRoutes`' registration of middleware and routes on the chi mux is not modelled as mutation; the route table is constant data and `Routes.Admit` composes one route's middleware for one request.
