/**
 * router/routes.go: the router NewRouter builds (a one-handler authenticator
 * over the static token table) and the four routes AddRoutes registers,
 * each behind authentication and then an AnyScope gate.
 */
module Routes {
  import opened Wrappers
  import opened Strings
  import opened RequestContext
  import opened Http
  import opened HttpErrors
  import opened Scopes
  import opened Middleware

  const ApiVersion1 := "/api/v1"

  /** The handler a route leads to. */
  datatype Operation = PostIceCreamData | GetIceCreamData | UpdateIceCreamData | DeleteIceCreamData

  /** A registered route: method, pattern, the any-of scopes its gate checks, and its handler. */
  datatype Route = Route(verb: string, pattern: string, anyOf: seq<string>, op: Operation)

  /** The routes of the authenticated group, in registration order. */
  const RouteTable: seq<Route> := [
    Route("POST", ApiVersion1 + "/create", ["*", "post.icecream"], PostIceCreamData),
    Route("GET", ApiVersion1 + "/read/{ice-cream-name}", ["*", "read.icecream"], GetIceCreamData),
    Route("PUT", ApiVersion1 + "/update", ["*", "post.icecream"], UpdateIceCreamData),
    Route("DELETE", ApiVersion1 + "/delete/{ice-cream-name}", ["*", "delete.icecream"], DeleteIceCreamData)
  ]

  datatype Router = Router(authenticator: Authenticator<StaticTokenAuthenticator>)

  /** NewRouter: the authenticator holds exactly one static-token handler over the given table. */
  function NewRouter(staticTokens: map<string, seq<string>>): (rt: Router)
    ensures rt.authenticator.authHandlers == [StaticTokenAuthenticator(staticTokens)]
  {
    Router(NewAuthenticator([NewStaticTokenAuthenticator(staticTokens)]))
  }

  /**
   * Where a request ends up before the route's handler: admitted with the
   * enriched request, refused with an error, or passed on as a nil request
   * (which the next stage would dereference).
   */
  datatype Admission = Admitted(req: Request) | Refused(err: HandlerError) | NilRequest

  /** The group's middleware on one route: authentication first, then the route's AnyScope gate. */
  function Admit(rt: Router, route: Route, r: Request): (a: Admission)
    ensures var auth := Chain(Attempts(rt.authenticator.authHandlers, StaticTokenAuthenticate, r));
      && (auth.WriteError? ==> a == Refused(auth.err))
      && (auth == Serve(None) ==> a == NilRequest)
      && (auth.Serve? && auth.req.Some? ==>
            a == (if AnyOfDecision((set s | s in route.anyOf), auth.req.value).Forward? then Admitted(auth.req.value)
                  else Refused(AnyOfDecision((set s | s in route.anyOf), auth.req.value).err)))
      && (a.Admitted? ==> GrantedScopes(a.req.ctx).Some? && exists s :: s in GrantedScopes(a.req.ctx).value && s in route.anyOf)
  {
    match Chain(Attempts(rt.authenticator.authHandlers, StaticTokenAuthenticate, r))
    case WriteError(e) => Refused(e)
    case Serve(None) => NilRequest
    case Serve(Some(authed)) =>
      match AnyOfDecision((set s | s in route.anyOf), authed)
      case Forward(req) => Admitted(req)
      case Deny(e) => Refused(e)
  }

  /**
   * With NewRouter's chain a request is admitted exactly when its header is
   * "Bearer " + a known token whose scopes meet the route's any-of list; it
   * then carries that token and its scopes. Every refusal is a 401 and never
   * the gate's missing-scopes fault, and no request is passed on as nil.
   */
  lemma AdmitCharacterization(staticTokens: map<string, seq<string>>, route: Route, r: Request)
    ensures var a := Admit(NewRouter(staticTokens), route, r);
      && (!HasPrefix(r.authorization, BearerPrefix) ==> a == Refused(MissingBearerError()))
      && (HasPrefix(r.authorization, BearerPrefix) ==>
            var token := r.authorization[|BearerPrefix|..];
            && (token !in staticTokens ==> a == Refused(UnknownTokenError()))
            && (a.Admitted? <==> token in staticTokens && exists s :: s in staticTokens[token] && s in route.anyOf)
            && (a.Admitted? ==> a.req == Request(r.authorization, AuthContext(r.ctx, token, staticTokens[token]))))
      && a != NilRequest
      && (a.Refused? ==> a.err.httpStatusCode == StatusUnauthorized && a.err != NoScopeError())
  {
    var rt := NewRouter(staticTokens);
    var results := Attempts(rt.authenticator.authHandlers, StaticTokenAuthenticate, r);
    var res := StaticTokenAuthenticate(StaticTokenAuthenticator(staticTokens), r);
    assert results == [res];
    if res.err.None? {
      ChainStopsAtFirstSuccess(results, 0);
      var authed := res.req.value;
      var token := r.authorization[|BearerPrefix|..];
      assert GrantedScopes(authed.ctx) == Some(staticTokens[token]);
    } else {
      ChainFailure(results);
      assert MissingBearerError().subErrors[0].value.details["message"][0] == 'A';
      assert NoScopeError().subErrors[0].value.details["message"][0] == 'c';
    }
  }

  /** Every route lists "*", so a token granted "*" is admitted on all of them. */
  lemma WildcardAdmittedEverywhere(staticTokens: map<string, seq<string>>, token: string, r: Request)
    requires r.authorization == BearerPrefix + token
    requires token in staticTokens && "*" in staticTokens[token]
    ensures forall i :: 0 <= i < |RouteTable| ==> Admit(NewRouter(staticTokens), RouteTable[i], r).Admitted?
  {
    assert HasPrefix(r.authorization, BearerPrefix) && r.authorization[|BearerPrefix|..] == token;
    forall i | 0 <= i < |RouteTable|
      ensures Admit(NewRouter(staticTokens), RouteTable[i], r).Admitted?
    {
      AdmitCharacterization(staticTokens, RouteTable[i], r);
      assert "*" in RouteTable[i].anyOf;
    }
  }

  /**
   * Create and update need "post.icecream", read "read.icecream", delete
   * "delete.icecream" (or "*"): a token granted only "read.icecream" reaches
   * the read route and no other.
   */
  lemma ReadOnlyTokenReachesOnlyRead(staticTokens: map<string, seq<string>>, token: string, r: Request)
    requires r.authorization == BearerPrefix + token
    requires token in staticTokens && staticTokens[token] == ["read.icecream"]
    ensures Admit(NewRouter(staticTokens), RouteTable[1], r).Admitted?
    ensures Admit(NewRouter(staticTokens), RouteTable[0], r) == Refused(ScopeMismatchError())
    ensures Admit(NewRouter(staticTokens), RouteTable[2], r) == Refused(ScopeMismatchError())
    ensures Admit(NewRouter(staticTokens), RouteTable[3], r) == Refused(ScopeMismatchError())
  {
    assert HasPrefix(r.authorization, BearerPrefix) && r.authorization[|BearerPrefix|..] == token;
    AdmitCharacterization(staticTokens, RouteTable[1], r);
    assert "read.icecream" in RouteTable[1].anyOf;
    var rt := NewRouter(staticTokens);
    var results := Attempts(rt.authenticator.authHandlers, StaticTokenAuthenticate, r);
    var res := StaticTokenAuthenticate(StaticTokenAuthenticator(staticTokens), r);
    assert results == [res];
    ChainStopsAtFirstSuccess(results, 0);
    assert GrantedScopes(res.req.value.ctx) == Some(["read.icecream"]);
  }
}
