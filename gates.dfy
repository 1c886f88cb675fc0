/** The two gin middlewares of middlewares.go. Each runs against a request's
    headers and the process environment and acts on gin's context: it may
    abort with a status and then calls `c.Next()`, which runs the protected
    handler only when the context has not been aborted. */
module Gates {
  import opened Http
  import opened Jwt

  /** The part of gin's context a middleware touches. */
  datatype Context = Context(aborted: bool, status: Option<int>, handlerRan: bool)

  const Initial: Context := Context(false, None, false)

  /** `c.AbortWithStatus(status)`. */
  function AbortWithStatus(c: Context, status: int): Context
  {
    c.(aborted := true, status := Some(status))
  }

  /** `c.Next()`: the rest of the chain runs only on a context not aborted. */
  function Next(c: Context): Context
  {
    if c.aborted then c else c.(handlerRan := true)
  }

  /** A middleware's effect on the context, one call at a time. */
  datatype Step = Abort(status: int) | Continue

  function Apply(c: Context, step: Step): Context
  {
    match step
    case Abort(s) => AbortWithStatus(c, s)
    case Continue => Next(c)
  }

  function Run(c: Context, steps: seq<Step>): Context
    decreases |steps|
  {
    if steps == [] then c else Run(Apply(c, steps[0]), steps[1..])
  }

  lemma RunCons(c: Context, step: Step, rest: seq<Step>)
    ensures Run(c, [step] + rest) == Run(Apply(c, step), rest)
  {
    assert ([step] + rest)[1..] == rest;
  }

  /** Nothing a middleware does after an abort reaches the handler: an
      aborted context stays aborted and the handler does not run. */
  lemma {:induction false} AbortIsFinal(c: Context, steps: seq<Step>)
    requires c.aborted && !c.handlerRan
    ensures Run(c, steps).aborted && !Run(c, steps).handlerRan
    decreases |steps|
  {
    if steps != [] {
      AbortIsFinal(Apply(c, steps[0]), steps[1..]);
    }
  }

  /** `AuthAPIKeyMiddleware`: aborts with 401 and returns when the
      `X-API-KEY` header differs from the `X_API_KEY` setting. */
  function ApiKeyGate(headers: map<string, string>, env: map<string, string>): (c: Context)
    ensures c.handlerRan <==> Lookup(headers, "X-API-KEY") == Lookup(env, "X_API_KEY")
    ensures !c.handlerRan ==> c.aborted && c.status == Some(StatusUnauthorized)
  {
    var steps := ApiKeySteps(headers, env);
    RunCons(Initial, steps[0], []);
    assert steps == [steps[0]] + [];
    Run(Initial, steps)
  }

  /** What `AuthAPIKeyMiddleware` does to the context: abort and return, or go on. */
  function ApiKeySteps(headers: map<string, string>, env: map<string, string>): seq<Step>
  {
    if Lookup(headers, "X-API-KEY") != Lookup(env, "X_API_KEY") then [Abort(StatusUnauthorized)] else [Continue]
  }

  /** With no key configured a request without the header is admitted;
      with a key configured it is refused. */
  lemma ApiKeyUnsetAdmitsBareRequest(headers: map<string, string>, env: map<string, string>)
    requires "X-API-KEY" !in headers
    ensures ApiKeyGate(headers, env).handlerRan <==> Lookup(env, "X_API_KEY") == ""
  {
  }

  /** `AuthJWTAuthorizationMiddleware`: parses the `Authorization` header
      with the `JWT_SECRET` setting, aborts with 401 on a parse error, aborts
      again with 401 on a nil or invalid token, and calls `c.Next()` without
      a return in between. */
  function JwtGate(headers: map<string, string>, env: map<string, string>, now: int,
                   parse: (string, string, int) -> ParseResult): (c: Context)
    ensures c.handlerRan <==> Accepted(parse(Lookup(headers, "Authorization"), Lookup(env, "JWT_SECRET"), now))
    ensures !c.handlerRan ==> c.aborted && c.status == Some(StatusUnauthorized)
  {
    var p := parse(Lookup(headers, "Authorization"), Lookup(env, "JWT_SECRET"), now);
    var steps := JwtSteps(p);
    var aborted := AbortWithStatus(Initial, StatusUnauthorized);
    if Accepted(p) then
      RunCons(Initial, Continue, []);
      assert steps == [Continue] + [];
      Run(Initial, steps)
    else
      RunCons(Initial, steps[0], steps[1..]);
      assert steps == [steps[0]] + steps[1..];
      assert Run(aborted, steps[1..]) == aborted by {
        if |steps| == 3 {
          RunCons(aborted, steps[1], steps[2..]);
          assert steps[1..] == [steps[1]] + steps[2..];
          RunCons(aborted, Continue, []);
          assert steps[2..] == [Continue] + [];
        } else {
          RunCons(aborted, Continue, []);
          assert steps[1..] == [Continue] + [];
        }
      }
      Run(Initial, steps)
  }

  /** What `AuthJWTAuthorizationMiddleware` does to the context after parsing:
      an abort for a parse error, another for a nil or invalid token, then
      `c.Next()`. */
  function JwtSteps(p: ParseResult): seq<Step>
  {
    (if p.err.Some? then [Abort(StatusUnauthorized)] else [])
    + (if p.token.None? || !p.token.value.valid then [Abort(StatusUnauthorized)] else [])
    + [Continue]
  }

  /** The gate never reads the claims: two parses that agree on the error
      and the validity flag decide the request alike, whatever subject,
      issuer or times the tokens carry. */
  lemma JwtGateIgnoresClaims(headers: map<string, string>, env: map<string, string>, now: int,
                             parse1: (string, string, int) -> ParseResult,
                             parse2: (string, string, int) -> ParseResult)
    requires var p1 := parse1(Lookup(headers, "Authorization"), Lookup(env, "JWT_SECRET"), now);
             var p2 := parse2(Lookup(headers, "Authorization"), Lookup(env, "JWT_SECRET"), now);
             p1.err.Some? == p2.err.Some? && p1.token.Some? == p2.token.Some? &&
             (p1.token.Some? ==> p1.token.value.valid == p2.token.value.valid)
    ensures JwtGate(headers, env, now, parse1) == JwtGate(headers, env, now, parse2)
  {
  }
}
