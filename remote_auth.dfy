/**
 * The cache-first token check of the gateway that validates tokens remotely
 * (internal/middlewares/auth.go): the header format check, then the token
 * verdict cache, and only on a miss the auth service, whose verdict is cached
 * whichever it is.
 *
 * The auth service's ValidateToken call is an oracle; Get and Set each read
 * the clock, so each gets its own instant.
 */
module RemoteAuth {
  import opened Model
  import opened BearerHeader
  import opened RequestContext
  import opened TokenVerdictCache

  /** ValidateToken's `(bool, error)`: a verdict, or a failure to reach a verdict. */
  datatype Validation = Verdict(valid: bool) | Failure(reason: string)

  /** The outcome of a request whose token has verdict `valid`. */
  function VerdictOutcome(valid: bool): Outcome
  {
    if valid then Continued else Aborted(StatusUnauthorized, "Invalid token")
  }

  /**
   * The middleware. `validatorCalls` lists the tokens sent to the auth service
   * (at most one). A missing or malformed header is refused without touching
   * the cache; a cache hit decides without the auth service; on a miss the
   * auth service decides, and its verdict (not its failure) is cached.
   */
  method AuthMiddleware(c: Context, header: string, tokenCache: TokenCache,
                        validate: string -> Validation, getNow: Instant, setNow: Instant)
      returns (validatorCalls: seq<string>)
    requires tokenCache.Valid()
    modifies c, tokenCache
    ensures tokenCache.Valid()
    ensures c.keys == old(c.keys)
    ensures header == "" ==>
      && c.outcome == Aborted(StatusUnauthorized, "Authorization header required")
      && validatorCalls == [] && tokenCache.State() == old(tokenCache.State())
    ensures header != "" && ParseBearer(header).None? ==>
      && c.outcome == Aborted(StatusUnauthorized, "Invalid Authorization header format")
      && validatorCalls == [] && tokenCache.State() == old(tokenCache.State())
    ensures header != "" && ParseBearer(header).Some? ==>
      var token := ParseBearer(header).value;
      var cached := Lookup(old(tokenCache.cache), token, getNow);
      var looked := Step(old(tokenCache.State()), GetOp(token, getNow));
      if cached.1 then
        && validatorCalls == []
        && tokenCache.State() == looked
        && c.outcome == VerdictOutcome(cached.0)
      else
        && validatorCalls == [token]
        && match validate(token)
           case Failure(_) =>
             && tokenCache.State() == looked
             && c.outcome == Aborted(StatusInternalServerError, "Failed to validate token")
           case Verdict(valid) =>
             && tokenCache.State() == Step(looked, SetOp(token, valid, setNow))
             && c.outcome == VerdictOutcome(valid)
  {
    validatorCalls := [];
    if header == "" {
      c.AbortWithStatusJSON(StatusUnauthorized, "Authorization header required");
      return;
    }
    var parts := Split(header, Space);
    if |parts| != 2 || parts[0] != "Bearer" {
      c.AbortWithStatusJSON(StatusUnauthorized, "Invalid Authorization header format");
      return;
    }
    var token := parts[1];

    var valid, found := tokenCache.Get(token, getNow);
    if found {
      if !valid {
        c.AbortWithStatusJSON(StatusUnauthorized, "Invalid token");
        return;
      }
      c.Next();
      return;
    }

    validatorCalls := [token];
    var answer := validate(token);
    if answer.Failure? {
      c.AbortWithStatusJSON(StatusInternalServerError, "Failed to validate token");
      return;
    }

    tokenCache.Set(token, answer.valid, setNow);

    if !answer.valid {
      c.AbortWithStatusJSON(StatusUnauthorized, "Invalid token");
      return;
    }
    c.Next();
  }

  /**
   * A token seen for the first time goes to the auth service; presented again
   * within the TTL of the verdict being cached, it is judged from the cache: the
   * second request makes no call to the auth service and gets the same outcome.
   */
  method RepeatedRequest(c1: Context, c2: Context, token: string, tokenCache: TokenCache,
                         validate: string -> Validation, t0: Instant, t1: Instant, t2: Instant)
      returns (firstCalls: seq<string>, secondCalls: seq<string>)
    requires tokenCache.Valid() && Space !in token && token !in tokenCache.cache
    requires validate(token).Verdict?
    requires t0 <= t1 <= t2 <= t1 + TTL
    requires c1 != c2
    modifies c1, c2, tokenCache
    ensures firstCalls == [token] && secondCalls == []
    ensures c1.outcome == c2.outcome == VerdictOutcome(validate(token).valid)
  {
    ParseBearerExact("Bearer " + token, token);
    firstCalls := AuthMiddleware(c1, "Bearer " + token, tokenCache, validate, t0, t1);
    secondCalls := AuthMiddleware(c2, "Bearer " + token, tokenCache, validate, t2, t2);
  }
}
