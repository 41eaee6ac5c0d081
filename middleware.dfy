/**
 * router/middleware.go: the authenticator, which tries an ordered list of
 * AuthHandlers and stops at the first that succeeds, and the static-token
 * AuthHandler.
 */
module Middleware {
  import opened Wrappers
  import opened Strings
  import opened RequestContext
  import opened Http
  import opened HttpErrors

  /**
   * What AuthHandler.Authenticate returns: a request and an error, each a
   * pointer that may be nil.
   */
  datatype AuthResult = AuthResult(req: Option<Request>, err: Option<HandlerError>)

  /**
   * The authenticator over handlers of type H. The AuthHandler interface is
   * the `authenticate` function the chain is given, which applies a handler
   * to a request.
   */
  datatype Authenticator<H> = Authenticator(authHandlers: seq<H>)

  /** NewAuthenticator: the handlers, in the order given, neither sorted nor deduplicated. */
  function NewAuthenticator<H>(authHandlers: seq<H>): Authenticator<H>
  {
    Authenticator(authHandlers)
  }

  /** What the chain does next: call the wrapped handler (possibly with a nil request) or write an error. */
  datatype ChainOutcome = Serve(req: Option<Request>) | WriteError(err: HandlerError)

  /** The result each handler gives for `r`. Every handler sees the original request. */
  function Attempts<H>(handlers: seq<H>, authenticate: (H, Request) -> AuthResult, r: Request): (rs: seq<AuthResult>)
    ensures |rs| == |handlers|
    ensures forall i :: 0 <= i < |handlers| ==> rs[i] == authenticate(handlers[i], r)
  {
    seq(|handlers|, i requires 0 <= i < |handlers| => authenticate(handlers[i], r))
  }

  /** The index of the first result without an error, or |results| when every one has an error. */
  function FirstSuccess(results: seq<AuthResult>): (k: nat)
    ensures k <= |results|
    ensures k < |results| ==> results[k].err.None?
    ensures forall j :: 0 <= j < k ==> results[j].err.Some?
    decreases |results|
  {
    if results == [] then 0
    else if results[0].err.None? then 0
    else 1 + FirstSuccess(results[1..])
  }

  /** The chain's outcome, given what each handler would return. */
  function Chain(results: seq<AuthResult>): ChainOutcome
  {
    var k := FirstSuccess(results);
    if k < |results| then Serve(results[k].req)
    else if results == [] then Serve(None)
    else WriteError(results[|results| - 1].err.value)
  }

  /** How many handlers the chain calls: up to and including the first success. */
  function Invoked(results: seq<AuthResult>): nat
  {
    var k := FirstSuccess(results);
    if k < |results| then k + 1 else |results|
  }

  /**
   * The handler Authenticate(h) returns, run on one request: the handlers are
   * called in order until one returns no error; `invoked` counts the calls
   * and `called` records the index of each handler called, in call order.
   */
  method Authenticate<H>(a: Authenticator<H>, authenticate: (H, Request) -> AuthResult, r: Request)
    returns (outcome: ChainOutcome, invoked: nat, ghost called: seq<int>)
    ensures outcome == Chain(Attempts(a.authHandlers, authenticate, r))
    ensures invoked == Invoked(Attempts(a.authHandlers, authenticate, r))
    ensures called == seq(invoked, j => j)
  {
    ghost var results := Attempts(a.authHandlers, authenticate, r);
    var handlerError: Option<HandlerError> := None;
    var authHandlerReq: Option<Request> := None;
    invoked := 0;
    called := [];
    var i := 0;
    while i < |a.authHandlers|
      invariant 0 <= i <= |a.authHandlers|
      invariant invoked == i
      invariant called == seq(i, j => j)
      invariant forall j :: 0 <= j < i ==> results[j].err.Some?
      invariant i == 0 ==> handlerError.None? && authHandlerReq.None?
      invariant i > 0 ==> AuthResult(authHandlerReq, handlerError) == results[i - 1]
    {
      var res := authenticate(a.authHandlers[i], r);
      assert seq(i + 1, j => j) == called + [i];
      called := called + [i];
      authHandlerReq, handlerError := res.req, res.err;
      invoked := invoked + 1;
      if handlerError.None? {
        break;
      }
      i := i + 1;
    }
    if handlerError.Some? {
      outcome := WriteError(handlerError.value);
      return;
    }
    outcome := Serve(authHandlerReq);
  }

  /** Handlers after the first success are never called, and the request it returned is forwarded. */
  lemma {:induction false} ChainStopsAtFirstSuccess(results: seq<AuthResult>, k: nat)
    requires k < |results| && results[k].err.None?
    requires forall j :: 0 <= j < k ==> results[j].err.Some?
    ensures Chain(results) == Serve(results[k].req)
    ensures Invoked(results) == k + 1
  {
  }

  /** The chain writes an error exactly when it has handlers and all of them fail; the error is the last one's. */
  lemma {:induction false} ChainFailure(results: seq<AuthResult>)
    ensures Chain(results).WriteError? <==> |results| > 0 && forall j :: 0 <= j < |results| ==> results[j].err.Some?
    ensures Chain(results).WriteError? ==>
      Some(Chain(results).err) == results[|results| - 1].err && Invoked(results) == |results|
  {
    if |results| > 0 && forall j :: 0 <= j < |results| ==> results[j].err.Some? {
      assert FirstSuccess(results) == |results|;
    }
  }

  /** An empty chain does not fail closed: no error, and the wrapped handler gets a nil request. */
  lemma EmptyChainServesNil()
    ensures Chain([]) == Serve(None) && Invoked([]) == 0
  {
  }

  /** The cases of router/middleware_test.go, with handlers that pass the request through or fail with 401. */
  lemma ChainExamples(r: Request)
    ensures var ok := AuthResult(Some(r), None);
      var fail := AuthResult(None, Some(NewHandlerError(StatusUnauthorized, [None])));
      && Chain([ok]) == Serve(Some(r))
      && Chain([ok, fail]) == Serve(Some(r)) && Invoked([ok, fail]) == 1
      && Chain([fail, ok]) == Serve(Some(r)) && Invoked([fail, ok]) == 2
      && Chain([fail, fail]) == WriteError(NewHandlerError(StatusUnauthorized, [None]))
  {
    var ok := AuthResult(Some(r), None);
    var fail := AuthResult(None, Some(NewHandlerError(StatusUnauthorized, [None])));
    ChainStopsAtFirstSuccess([ok, fail], 0);
    ChainStopsAtFirstSuccess([fail, ok], 1);
    ChainFailure([fail, fail]);
  }

  const BearerPrefix: string := "Bearer "

  /** The static-token AuthHandler: bearer token -> granted scopes. */
  datatype StaticTokenAuthenticator = StaticTokenAuthenticator(tokenScopes: map<string, seq<string>>)

  function NewStaticTokenAuthenticator(tokenScopes: map<string, seq<string>>): StaticTokenAuthenticator
  {
    StaticTokenAuthenticator(tokenScopes)
  }

  function MissingBearerError(): HandlerError
  {
    NewHandlerError(StatusUnauthorized, [Some(NewSubError(InvalidScope, "message", "Authorization Type 'Bearer ' is missing"))])
  }

  /** `NewHandlerError(401, nil)`: one nil sub-error and no detail. */
  function UnknownTokenError(): HandlerError
  {
    NewHandlerError(StatusUnauthorized, [None])
  }

  /** The derived context: the scopes under ContextKeyScopes, then the token under ContextKeyAuthToken. */
  function AuthContext(ctx: Context, token: string, scopes: seq<string>): Context
  {
    ctx[ScopesKey := Strings(scopes)][AuthTokenKey := Str(token)]
  }

  /**
   * The static-token Authenticate: the header must start with "Bearer "
   * (exactly, case-sensitive) before the table is consulted; the token is
   * what follows the prefix.
   */
  function StaticTokenAuthenticate(s: StaticTokenAuthenticator, r: Request): (res: AuthResult)
    ensures !HasPrefix(r.authorization, BearerPrefix) ==> res == AuthResult(None, Some(MissingBearerError()))
    ensures HasPrefix(r.authorization, BearerPrefix) ==>
      var token := r.authorization[|BearerPrefix|..];
      if token in s.tokenScopes
      then res == AuthResult(Some(Request(r.authorization, AuthContext(r.ctx, token, s.tokenScopes[token]))), None)
      else res == AuthResult(None, Some(UnknownTokenError()))
  {
    if !HasPrefix(r.authorization, BearerPrefix) then
      AuthResult(None, Some(MissingBearerError()))
    else
      var authToken := RemoveFirst(r.authorization, BearerPrefix);
      if authToken in s.tokenScopes then
        AuthResult(Some(r.(ctx := AuthContext(r.ctx, authToken, s.tokenScopes[authToken]))), None)
      else
        AuthResult(None, Some(UnknownTokenError()))
  }

  /** The outcome of a malformed header does not depend on the table at all. */
  lemma SchemeCheckPrecedesLookup(s1: StaticTokenAuthenticator, s2: StaticTokenAuthenticator, r: Request)
    requires !HasPrefix(r.authorization, BearerPrefix)
    ensures StaticTokenAuthenticate(s1, r) == StaticTokenAuthenticate(s2, r)
  {
  }

  /** On success the derived context carries the table's scopes and the token, and nothing else changes. */
  lemma AuthContextBindings(ctx: Context, token: string, scopes: seq<string>)
    ensures var c := AuthContext(ctx, token, scopes);
      && c[ScopesKey] == Strings(scopes) && c[AuthTokenKey] == Str(token)
      && c.Keys == ctx.Keys + {ScopesKey, AuthTokenKey}
      && forall k :: k in ctx && k != ScopesKey && k != AuthTokenKey ==> c[k] == ctx[k]
  {
  }
}
