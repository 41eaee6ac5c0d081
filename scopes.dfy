/**
 * router/scopes.go: the AnyScope and AllScopes gates, which read the granted
 * scopes that authentication put in the request context.
 */
module Scopes {
  import opened Wrappers
  import opened RequestContext
  import opened Http
  import opened HttpErrors

  /** `r.Context().Value(ContextKeyScopes).([]string)`: present only if a string list is stored there. */
  function GrantedScopes(ctx: Context): Option<seq<string>>
  {
    if ScopesKey in ctx && ctx[ScopesKey].Strings? then Some(ctx[ScopesKey].items) else None
  }

  /** A gate either calls the wrapped handler with the request or writes an error. */
  datatype Decision = Forward(req: Request) | Deny(err: HandlerError)

  /** Reached without scopes in the context: a wiring fault upstream. */
  function NoScopeError(): HandlerError
  {
    NewHandlerError(StatusUnauthorized, [Some(NewSubError(InvalidScope, "message", "context does not have scope set"))])
  }

  /** `NewHandlerError(401, nil)`: one nil sub-error. */
  function ScopeMismatchError(): HandlerError
  {
    NewHandlerError(StatusUnauthorized, [None])
  }

  /** Some granted scope is registered. */
  predicate SharesScope(granted: seq<string>, registered: set<string>)
  {
    exists s :: s in granted && s in registered
  }

  /** Every registered scope is granted. */
  predicate CoversScopes(granted: seq<string>, registered: seq<string>)
  {
    forall s :: s in registered ==> s in granted
  }

  /** The any-of verdict for a gate whose registered scopes are `scopeMap`. */
  function AnyOfDecision(scopeMap: set<string>, r: Request): Decision
  {
    match GrantedScopes(r.ctx)
    case None => Deny(NoScopeError())
    case Some(granted) => if SharesScope(granted, scopeMap) then Forward(r) else Deny(ScopeMismatchError())
  }

  /** The all-of verdict for the registered list `scopes`. */
  function AllOfDecision(scopes: seq<string>, r: Request): Decision
  {
    match GrantedScopes(r.ctx)
    case None => Deny(NoScopeError())
    case Some(granted) => if CoversScopes(granted, scopes) then Forward(r) else Deny(ScopeMismatchError())
  }

  /** The middleware AnyScope returns: the registered scopes as a set (`scopeMap`). */
  datatype AnyScopeMiddleware = AnyScopeMiddleware(scopeMap: set<string>)

  /** AnyScope(scopes): builds `scopeMap` from the registered list. */
  method AnyScope(scopes: seq<string>) returns (m: AnyScopeMiddleware)
    ensures forall s :: s in m.scopeMap <==> s in scopes
  {
    var scopeMap: set<string> := {};
    for i := 0 to |scopes|
      invariant forall s :: s in scopeMap <==> s in scopes[..i]
    {
      assert scopes[..i + 1] == scopes[..i] + [scopes[i]];
      scopeMap := scopeMap + {scopes[i]};
    }
    assert scopes[..|scopes|] == scopes;
    m := AnyScopeMiddleware(scopeMap);
  }

  /**
   * One request through an AnyScope gate: scans the granted scopes and
   * forwards on the first one that is registered.
   */
  method ServeAnyScope(m: AnyScopeMiddleware, r: Request) returns (d: Decision)
    ensures d == AnyOfDecision(m.scopeMap, r)
  {
    var requestScopes := GrantedScopes(r.ctx);
    if requestScopes.None? {
      return Deny(NoScopeError());
    }
    var granted := requestScopes.value;
    for i := 0 to |granted|
      invariant forall j :: 0 <= j < i ==> granted[j] !in m.scopeMap
    {
      if granted[i] in m.scopeMap {
        return Forward(r);
      }
    }
    return Deny(ScopeMismatchError());
  }

  /**
   * One request through an AllScopes(scopes) gate: for each registered scope,
   * searches the granted list and rejects as soon as one is missing.
   */
  method ServeAllScopes(scopes: seq<string>, r: Request) returns (d: Decision)
    ensures d == AllOfDecision(scopes, r)
  {
    var requestScopes := GrantedScopes(r.ctx);
    if requestScopes.None? {
      return Deny(NoScopeError());
    }
    var granted := requestScopes.value;
    for i := 0 to |scopes|
      invariant forall j :: 0 <= j < i ==> scopes[j] in granted
    {
      var foundScope := false;
      var k := 0;
      while k < |granted|
        invariant 0 <= k <= |granted|
        invariant !foundScope
        invariant forall j :: 0 <= j < k ==> granted[j] != scopes[i]
      {
        if scopes[i] == granted[k] {
          foundScope := true;
          break;
        }
        k := k + 1;
      }
      if !foundScope {
        assert scopes[i] in scopes && scopes[i] !in granted;
        return Deny(ScopeMismatchError());
      }
    }
    return Forward(r);
  }

  /** Both gates fail closed, with a sub-error of their own, when the context has no scopes. */
  lemma NoScopesFailsClosed(scopeMap: set<string>, scopes: seq<string>, r: Request)
    requires GrantedScopes(r.ctx).None?
    ensures AnyOfDecision(scopeMap, r) == Deny(NoScopeError())
    ensures AllOfDecision(scopes, r) == Deny(NoScopeError())
    ensures NoScopeError() != ScopeMismatchError() && NoScopeError().httpStatusCode == ScopeMismatchError().httpStatusCode == 401
  {
  }

  /** The any-of verdict depends on the granted scopes only as a set: order and repeats do not matter. */
  lemma AnyOfSetSemantics(g1: seq<string>, g2: seq<string>, registered: set<string>)
    requires forall s :: s in g1 <==> s in g2
    ensures SharesScope(g1, registered) == SharesScope(g2, registered)
  {
  }

  /** An empty registered list rejects every request. */
  lemma AnyOfEmptyRejects(r: Request)
    ensures AnyOfDecision({}, r).Deny?
  {
  }

  /** The all-of verdict depends on both lists only as sets; extra granted scopes are allowed. */
  lemma AllOfSetSemantics(g1: seq<string>, g2: seq<string>, s1: seq<string>, s2: seq<string>)
    requires forall s :: s in g1 ==> s in g2
    requires forall s :: s in s2 ==> s in s1
    ensures CoversScopes(g1, s1) ==> CoversScopes(g2, s2)
  {
  }

  /** An empty registered list passes every request whose context has scopes. */
  lemma AllOfEmptyPasses(r: Request)
    requires GrantedScopes(r.ctx).Some?
    ensures AllOfDecision([], r) == Forward(r)
  {
  }

  /** The cases of router/scopes_test.go. */
  lemma ScopeGateExamples(r: Request)
    requires GrantedScopes(r.ctx) == Some(["first", "second", "third"])
    ensures AnyOfDecision({"zeroth", "third", "fifth"}, r) == Forward(r)
    ensures AnyOfDecision({"zeroth", "sixth", "fifth"}, r) == Deny(ScopeMismatchError())
    ensures AllOfDecision(["first", "second", "third"], r) == Forward(r)
    ensures AllOfDecision(["first", "third", "second"], r) == Forward(r)
    ensures AllOfDecision(["first", "second", "fifth"], r) == Deny(ScopeMismatchError())
  {
    var granted := ["first", "second", "third"];
    assert granted[2] == "third";
    assert "fifth" !in granted;
  }

  /** The last all-of case of router/scopes_test.go: fewer granted scopes than registered is refused. */
  lemma AllOfFewerGrantedRejects(r: Request)
    requires GrantedScopes(r.ctx) == Some(["first", "second"])
    ensures AllOfDecision(["first", "third", "second"], r) == Deny(ScopeMismatchError())
  {
    assert "third" !in ["first", "second"];
  }
}
