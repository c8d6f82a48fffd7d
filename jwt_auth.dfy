/**
 * The local JWT check of the gateway that verifies tokens itself
 * (middleware/auth.go): an ordered chain of rejections, the first failure
 * winning, and on success the user ID, e-mail and role written into the
 * request context.
 *
 * golang-jwt's decoding and signature/claims verification and uuid.Parse are
 * oracles; the key function the middleware hands to the library (accept HMAC
 * only) and the order in which the library consults it are modelled, and the
 * library's rule for `exp` is stated as a condition on the verdict oracle
 * (`HonoursExp`).
 */
module JwtAuth {
  import opened Wrappers
  import opened Model
  import opened BearerHeader
  import opened RequestContext

  /** The `alg` of a token header, as golang-jwt maps it to a signing method. */
  datatype SigningMethod =
    | HS256 | HS384 | HS512
    | RS256 | RS384 | RS512
    | PS256 | PS384 | PS512
    | ES256 | ES384 | ES512
    | EdDSA | NoneAlg

  /** jwt.SigningMethodHMAC: the one family the key function accepts. */
  predicate IsHmac(m: SigningMethod)
  {
    m.HS256? || m.HS384? || m.HS512?
  }

  /** JWTClaims: user_id, email, role and the registered `exp` claim, which may be absent. */
  datatype Claims = Claims(userId: string, email: string, role: string, expiresAt: Option<Instant>)

  /** What the library decodes from a token string before it needs a key. */
  datatype Decoded = Undecodable | Decoded(alg: SigningMethod, claims: Claims)

  /** The library's error classes the middleware tells apart: jwt.ErrTokenExpired, and every other. */
  datatype JwtError = ErrTokenExpired | ErrOther

  /** The library's verdict on signature and registered claims once it has the key. */
  datatype LibraryVerdict = Failed(err: JwtError) | Passed(valid: bool)

  /**
   * The oracles: decoding, the library's verdict on a token under the key the
   * key function returned and at the library's clock reading, and uuid.Parse.
   */
  datatype Oracles = Oracles(
    decode: string -> Decoded,
    verify: (string, string, Instant) -> LibraryVerdict,
    parseUuid: string -> Option<Uuid>)

  /** The key function: the configured secret for an HMAC token, an error for any other method. */
  function KeyFunc(m: SigningMethod, secret: string): (r: Result<string, string>)
    ensures r.Ok? <==> IsHmac(m)
    ensures r.Ok? ==> r.value == secret
  {
    if IsHmac(m) then Ok(secret) else Err("unexpected signing method")
  }

  /** time.Time.Unix(): whole seconds since the epoch, rounded down. */
  function UnixSeconds(t: Instant): int
  {
    t / NanosPerSecond
  }

  /**
   * golang-jwt v5's default rule for `exp`, which the verdict oracle is taken
   * to follow: the claim is optional, it is held to whole seconds, and a token
   * that carries it is passed only while the clock is strictly before it.
   */
  predicate HonoursExp(o: Oracles, token: string, key: string, now: Instant)
  {
    (o.decode(token).Decoded? && o.decode(token).claims.expiresAt.Some? && o.verify(token, key, now).Passed?) ==>
      now < UnixSeconds(o.decode(token).claims.expiresAt.value) * NanosPerSecond
  }

  /**
   * jwt.ParseWithClaims as the middleware sees it: a token that does not decode,
   * or whose key function fails, is an error that is never ErrTokenExpired; only
   * then does the library's own verdict, under the key the key function gave,
   * count.
   */
  function ParseWithClaims(tokenString: string, o: Oracles, secret: string, now: Instant): (r: Result<(bool, Claims), JwtError>)
    ensures o.decode(tokenString).Undecodable? ==> r == Err(ErrOther)
    ensures o.decode(tokenString).Decoded? && !IsHmac(o.decode(tokenString).alg) ==> r == Err(ErrOther)
    ensures r.Ok? ==> && o.decode(tokenString).Decoded? && IsHmac(o.decode(tokenString).alg)
                      && o.verify(tokenString, secret, now) == Passed(r.value.0)
                      && r.value.1 == o.decode(tokenString).claims
    ensures r == Err(ErrTokenExpired) ==> o.verify(tokenString, secret, now) == Failed(ErrTokenExpired)
  {
    match o.decode(tokenString)
    case Undecodable => Err(ErrOther)
    case Decoded(m, claims) =>
      match KeyFunc(m, secret)
      case Err(_) => Err(ErrOther)
      case Ok(key) =>
        match o.verify(tokenString, key, now)
        case Failed(e) => Err(e)
        case Passed(valid) => Ok((valid, claims))
  }

  /** The distinguishable rejections, in the order the chain tries them. */
  datatype AuthError = MissingHeader | BadHeaderFormat | InvalidToken | TokenExpired | InvalidUserId

  /** The JSON error message each rejection is answered with (all with status 401). */
  function Message(e: AuthError): string
  {
    match e
    case MissingHeader => "authorization header is required"
    case BadHeaderFormat => "invalid authorization header format"
    case InvalidToken => "invalid token"
    case TokenExpired => "token has expired"
    case InvalidUserId => "invalid user ID"
  }

  /** The identity a successful check writes into the request context. */
  datatype Identity = Identity(userId: Uuid, email: string, role: string)

  /** The chain as written, where a verified token without `exp` dereferences a nil pointer. */
  datatype Outcome = Rejected(error: AuthError) | Accepted(identity: Identity) | NilDereference

  /**
   * The check chain exactly as the middleware runs it; `now` is the clock both
   * the library and the explicit expiry check read.
   */
  function CheckAsWritten(header: string, o: Oracles, secret: string, now: Instant): (r: Outcome)
    ensures header == "" ==> r == Rejected(MissingHeader)
    ensures !r.Rejected? ==> && ParseBearer(header).Some?
                             && o.decode(ParseBearer(header).value).Decoded?
                             && var claims := o.decode(ParseBearer(header).value).claims;
                                && ParseWithClaims(ParseBearer(header).value, o, secret, now) == Ok((true, claims))
                                && (r.NilDereference? <==> claims.expiresAt.None?)
    ensures r.Accepted? ==> && ParseBearer(header).Some?
                            && o.decode(ParseBearer(header).value).Decoded?
                            && var claims := o.decode(ParseBearer(header).value).claims;
                               && claims.expiresAt.Some?
                               && UnixSeconds(now) <= UnixSeconds(claims.expiresAt.value)
                               && o.parseUuid(claims.userId).Some?
                               && r.identity == Identity(o.parseUuid(claims.userId).value, claims.email, claims.role)
  {
    if header == "" then Rejected(MissingHeader)
    else
      match ParseBearer(header)
      case None => Rejected(BadHeaderFormat)
      case Some(tokenString) =>
        match ParseWithClaims(tokenString, o, secret, now)
        case Err(ErrTokenExpired) => Rejected(TokenExpired)
        case Err(ErrOther) => Rejected(InvalidToken)
        case Ok((valid, claims)) =>
          if !valid then Rejected(InvalidToken)
          else if claims.expiresAt.None? then NilDereference
          else if UnixSeconds(now) > UnixSeconds(claims.expiresAt.value) then Rejected(TokenExpired)
          else
            match o.parseUuid(claims.userId)
            case None => Rejected(InvalidUserId)
            case Some(id) => Accepted(Identity(id, claims.email, claims.role))
  }

  /** The conditions under which the chain lets a request through, stated independently of it. */
  ghost predicate Admissible(header: string, o: Oracles, secret: string, now: Instant, id: Identity)
  {
    exists token: string {:trigger o.decode(token)} ::
      && header == "Bearer " + token && Space !in token
      && o.decode(token).Decoded?
      && IsHmac(o.decode(token).alg)
      && o.verify(token, secret, now) == Passed(true)
      && o.decode(token).claims.expiresAt.Some?
      && UnixSeconds(now) <= UnixSeconds(o.decode(token).claims.expiresAt.value)
      && o.parseUuid(o.decode(token).claims.userId) == Some(id.userId)
      && id.email == o.decode(token).claims.email
      && id.role == o.decode(token).claims.role
  }

  /**
   * The chain with a token that carries no `exp` rejected as expired instead of
   * crashing; in every other case it answers what the code as written answers.
   */
  function Check(header: string, o: Oracles, secret: string, now: Instant): (r: Result<Identity, AuthError>)
    ensures r.Ok? ==> CheckAsWritten(header, o, secret, now) == Accepted(r.value)
    ensures CheckAsWritten(header, o, secret, now).NilDereference? ==> r == Err(TokenExpired)
  {
    match CheckAsWritten(header, o, secret, now)
    case Rejected(e) => Err(e)
    case Accepted(id) => Ok(id)
    case NilDereference => Err(TokenExpired)
  }

  /**
   * The chain accepts with identity `id` exactly when the header is
   * "Bearer <token>", the token is HMAC-signed and verified, it carries an `exp`
   * whose second is not before the current second, and its user_id parses to
   * id.userId, with e-mail and role taken from the claims.
   */
  lemma CheckAcceptsExactly(header: string, o: Oracles, secret: string, now: Instant, id: Identity)
    ensures Check(header, o, secret, now) == Ok(id) <==> Admissible(header, o, secret, now, id)
  {
    if Check(header, o, secret, now) == Ok(id) {
      var token := ParseBearer(header).value;
      ParseBearerExact(header, token);
      assert o.decode(token).Decoded?;
    }
    if Admissible(header, o, secret, now, id) {
      var token :| header == "Bearer " + token && Space !in token && o.decode(token).Decoded?
        && IsHmac(o.decode(token).alg) && o.verify(token, secret, now) == Passed(true)
        && o.decode(token).claims.expiresAt.Some?
        && UnixSeconds(now) <= UnixSeconds(o.decode(token).claims.expiresAt.value)
        && o.parseUuid(o.decode(token).claims.userId) == Some(id.userId)
        && id.email == o.decode(token).claims.email && id.role == o.decode(token).claims.role;
      ParseBearerExact(header, token);
      assert header != "";
    }
  }

  /** The first failure wins: an empty header is refused before anything else is looked at. */
  lemma EmptyHeaderFirst(o: Oracles, secret: string, now: Instant)
    ensures Check("", o, secret, now) == Err(MissingHeader)
  {
  }

  /** A malformed header is refused as such, whatever the token would have verified to. */
  lemma MalformedHeaderBeforeToken(header: string, o: Oracles, secret: string, now: Instant)
    requires header != ""
    requires !(exists token :: header == "Bearer " + token && Space !in token)
    ensures Check(header, o, secret, now) == Err(BadHeaderFormat)
  {
  }

  /**
   * A token signed with anything but HMAC is refused by the key function before
   * the library's verdict is consulted, so it is "invalid token" even when its
   * claims are expired.
   */
  lemma NonHmacIsInvalid(token: string, o: Oracles, secret: string, now: Instant)
    requires Space !in token
    requires o.decode(token).Decoded? && !IsHmac(o.decode(token).alg)
    ensures Check("Bearer " + token, o, secret, now) == Err(InvalidToken)
  {
    ParseBearerExact("Bearer " + token, token);
  }

  /**
   * Of the library's errors only ErrTokenExpired is reported as expiry; every
   * other parse error, and a parsed token that is not valid, is "invalid token".
   */
  lemma ParseErrorsClassified(token: string, o: Oracles, secret: string, now: Instant)
    requires Space !in token
    requires o.decode(token).Decoded? && IsHmac(o.decode(token).alg)
    ensures o.verify(token, secret, now) == Failed(ErrTokenExpired) ==> Check("Bearer " + token, o, secret, now) == Err(TokenExpired)
    ensures o.verify(token, secret, now) == Failed(ErrOther) ==> Check("Bearer " + token, o, secret, now) == Err(InvalidToken)
    ensures o.verify(token, secret, now) == Passed(false) ==> Check("Bearer " + token, o, secret, now) == Err(InvalidToken)
  {
    ParseBearerExact("Bearer " + token, token);
  }

  /**
   * The explicit expiry check, taken by itself, compares whole seconds: past a
   * verdict that passed the token it lets the token through up to the end of
   * its expiry second, and refuses it from the next second on.
   */
  lemma ExpiryInWholeSeconds(token: string, o: Oracles, secret: string, now: Instant)
    requires Space !in token
    requires o.decode(token).Decoded? && IsHmac(o.decode(token).alg) && o.verify(token, secret, now) == Passed(true)
    requires o.decode(token).claims.expiresAt.Some?
    requires o.parseUuid(o.decode(token).claims.userId).Some?
    ensures var exp := o.decode(token).claims.expiresAt.value;
            Check("Bearer " + token, o, secret, now).Ok? <==> now < (UnixSeconds(exp) + 1) * NanosPerSecond
  {
    ParseBearerExact("Bearer " + token, token);
  }

  /**
   * With a library that follows its `exp` rule, the explicit expiry check never
   * refuses anything: for a token carrying `exp`, acceptance is decided by the
   * library's verdict, and a token is refused from the first instant of its
   * expiry second on.
   */
  lemma LibraryExpiryDecides(token: string, o: Oracles, secret: string, now: Instant)
    requires Space !in token
    requires o.decode(token).Decoded? && IsHmac(o.decode(token).alg)
    requires o.decode(token).claims.expiresAt.Some?
    requires o.parseUuid(o.decode(token).claims.userId).Some?
    requires HonoursExp(o, token, secret, now)
    ensures Check("Bearer " + token, o, secret, now).Ok? <==> o.verify(token, secret, now) == Passed(true)
    ensures Check("Bearer " + token, o, secret, now).Ok? ==>
              now < UnixSeconds(o.decode(token).claims.expiresAt.value) * NanosPerSecond
  {
    ParseBearerExact("Bearer " + token, token);
    if o.verify(token, secret, now) == Passed(true) {
      BeforeSecondStart(now, UnixSeconds(o.decode(token).claims.expiresAt.value));
    }
  }

  /** An instant before the start of second s lies in an earlier second. */
  lemma BeforeSecondStart(t: Instant, s: int)
    requires t < s * NanosPerSecond
    ensures UnixSeconds(t) < s
  {
  }

  /**
   * A token that passes everything else but whose user_id is not a UUID is
   * refused as "invalid user ID".
   */
  lemma BadUserIdLast(token: string, o: Oracles, secret: string, now: Instant)
    requires Space !in token
    requires o.decode(token).Decoded? && IsHmac(o.decode(token).alg) && o.verify(token, secret, now) == Passed(true)
    requires o.decode(token).claims.expiresAt.Some?
    requires UnixSeconds(now) <= UnixSeconds(o.decode(token).claims.expiresAt.value)
    requires o.parseUuid(o.decode(token).claims.userId).None?
    ensures Check("Bearer " + token, o, secret, now) == Err(InvalidUserId)
  {
    ParseBearerExact("Bearer " + token, token);
  }

  /** Oracles under which every token decodes as HS256 with the given claims and verifies. */
  function VerifiedWith(claims: Claims): Oracles
  {
    Oracles(t => Decoded(HS256, claims), (t, k, n) => Passed(true), u => Some(1))
  }

  /**
   * As written, a correctly signed HMAC token with no `exp` claim passes the
   * library (which does not require `exp`) and reaches the explicit expiry
   * check, which dereferences the missing expiry. The verdict oracle used
   * follows the library's `exp` rule.
   */
  lemma MissingExpiryDereferencesNil(secret: string, now: Instant)
    ensures HonoursExp(VerifiedWith(Claims("u", "e", "user", None)), "abc", secret, now)
    ensures CheckAsWritten("Bearer abc", VerifiedWith(Claims("u", "e", "user", None)), secret, now) == NilDereference
  {
    var claims := Claims("u", "e", "user", None);
    var o := VerifiedWith(claims);
    AcceptedExamples();
    assert "Bearer abc" != "" by { assert |"Bearer abc"| == 10; }
    assert o.decode("abc") == Decoded(HS256, claims);
    assert o.verify("abc", secret, now) == Passed(true);
    assert ParseWithClaims("abc", o, secret, now) == Ok((true, claims));
  }

  /**
   * The corrected chain never accepts a token without `exp`, and agrees with
   * the code as written on every input on which the latter does not crash.
   */
  lemma CorrectedCheckAgrees(header: string, o: Oracles, secret: string, now: Instant)
    ensures CheckAsWritten(header, o, secret, now).Rejected? ==> Check(header, o, secret, now) == Err(CheckAsWritten(header, o, secret, now).error)
    ensures CheckAsWritten(header, o, secret, now).Accepted? ==> Check(header, o, secret, now) == Ok(CheckAsWritten(header, o, secret, now).identity)
    ensures CheckAsWritten(header, o, secret, now).NilDereference? ==> Check(header, o, secret, now) == Err(TokenExpired)
  {
  }

  /**
   * The middleware: on success the user ID, e-mail and role are written into
   * the context and the request proceeds; on any failure the request is
   * aborted with 401 and the rejection's message, and the context is untouched.
   */
  method AuthMiddleware(c: Context, header: string, o: Oracles, secret: string, now: Instant)
    modifies c
    ensures var r := Check(header, o, secret, now);
      match r
      case Ok(id) =>
        && c.keys == old(c.keys)["userID" := UuidValue(id.userId)]["email" := StringValue(id.email)]["role" := StringValue(id.role)]
        && c.outcome == Continued
      case Err(e) =>
        c.keys == old(c.keys) && c.outcome == Aborted(StatusUnauthorized, Message(e))
    ensures Check(header, o, secret, now).Ok? ==> GetUserID(c) == Ok(Check(header, o, secret, now).value.userId)
  {
    var r := Check(header, o, secret, now);
    match r {
      case Err(e) =>
        c.AbortWithStatusJSON(StatusUnauthorized, Message(e));
      case Ok(id) =>
        c.Set("userID", UuidValue(id.userId));
        c.Set("email", StringValue(id.email));
        c.Set("role", StringValue(id.role));
        c.Next();
    }
  }

  /**
   * GetUserID: the stored user ID, or an error when no middleware stored one.
   * Anything but a UUID under "userID" would make the type assertion panic; the
   * middleware only ever stores a UUID there.
   */
  function GetUserID(c: Context): (r: Result<Uuid, string>)
    reads c
    requires "userID" in c.keys ==> c.keys["userID"].UuidValue?
    ensures r.Err? <==> "userID" !in c.keys
    ensures r.Ok? ==> r.value == c.keys["userID"].id
  {
    if "userID" !in c.keys then Err("user ID not found in context")
    else Ok(c.keys["userID"].id)
  }
}
