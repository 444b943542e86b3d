/**
 * `JwtService`: access tokens as HS256-signed JWTs (RFC 7519). Signing and
 * parsing are the jjwt library's; here a token is kept as its structure —
 * its claims and the key it was signed with — and `ParseSignedClaims` is
 * the library's verdict on it: the signature is checked first, then the
 * expiry. The service maps every parse failure onto an error code.
 */
module JwtTokens {
  import opened Common
  import opened UserEntity

  /** A claim value as the JSON payload carries it. */
  datatype ClaimValue = Text(text: string) | TextList(items: seq<string>) | Number(n: int) | Null | Structured

  /** The HMAC key derived from the configured secret. */
  datatype Key = HmacKey(secret: string)

  /** The payload: the registered claims the core uses, and the others by name. */
  datatype Claims = Claims(
    subject: Option<string>,
    issuedAt: Option<Millis>,
    expiration: Option<Millis>,
    custom: map<string, ClaimValue>)

  /**
   * A presented token: a signed JWS, an unsecured or otherwise unsupported
   * JWT, text that is not a JWT, an empty text, or one the library rejects
   * for any other reason.
   */
  datatype Jwt =
    | Jws(claims: Claims, signedWith: Key)
    | Unsupported(claims: Claims)
    | Malformed
    | EmptyText
    | Rejected

  /** The exceptions `parseSignedClaims` throws. */
  datatype ParseFailure =
    | ExpiredJwt(claims: Claims)
    | SignatureInvalid
    | MalformedJwt
    | UnsupportedJwt
    | IllegalArgument
    | OtherJwtFailure

  datatype Parsed = Parsed(claims: Claims) | ParseFailed(failure: ParseFailure)

  /** The registered claims the builder's own setters own. */
  const REGISTERED_CLAIMS: set<string> := {"sub", "iat", "exp"}

  /** The custom claim holding the authority names. */
  const ROLES_CLAIM: string := "roles"

  /**
   * `Jwts.parser().verifyWith(key).build().parseSignedClaims(token)`: a JWS
   * signed with another key fails on its signature whatever its expiry; a
   * correctly signed one fails as expired when the clock is strictly after
   * its `exp`; otherwise its claims come back as signed.
   */
  function ParseSignedClaims(key: Key, token: Jwt, now: Millis): (p: Parsed)
    ensures p.Parsed? <==>
      token.Jws? && token.signedWith == key &&
      (token.claims.expiration.None? || now <= token.claims.expiration.value)
    ensures p.Parsed? ==> p.claims == token.claims
    ensures token.Jws? && token.signedWith != key ==> p == ParseFailed(SignatureInvalid)
  {
    match token
    case Jws(claims, signedWith) =>
      if signedWith != key then ParseFailed(SignatureInvalid)
      else if claims.expiration.Some? && now > claims.expiration.value then ParseFailed(ExpiredJwt(claims))
      else Parsed(claims)
    case Unsupported(_) => ParseFailed(UnsupportedJwt)
    case Malformed => ParseFailed(MalformedJwt)
    case EmptyText => ParseFailed(IllegalArgument)
    case Rejected => ParseFailed(OtherJwtFailure)
  }

  /** The codes a token failure can carry. */
  predicate TokenFailureCode(c: ErrorCode) {
    c in {TokenExpired, InvalidSignature, MalformedToken, UnsupportedToken, InvalidToken}
  }

  /**
   * The `catch` clauses of `extractClaim`: an expired token becomes a
   * `TokenExpiredException`, every other failure an `InvalidTokenException`
   * whose code names the failure, INVALID_TOKEN for anything unrecognised.
   */
  function MapFailure(f: ParseFailure): (e: Error)
    ensures e.App? && TokenFailureCode(e.code)
    ensures e.code == TokenExpired <==> f.ExpiredJwt?
    ensures e.message == if f.ExpiredJwt? then "Expired token" else "Invalid token"
    ensures f.SignatureInvalid? <==> e.code == InvalidSignature
    ensures f.MalformedJwt? <==> e.code == MalformedToken
    ensures f.UnsupportedJwt? <==> e.code == UnsupportedToken
    ensures f.IllegalArgument? || f.OtherJwtFailure? <==> e.code == InvalidToken
  {
    match f
    case ExpiredJwt(_) => App(TokenExpired, "Expired token")
    case SignatureInvalid => App(InvalidSignature, "Invalid token")
    case MalformedJwt => App(MalformedToken, "Invalid token")
    case UnsupportedJwt => App(UnsupportedToken, "Invalid token")
    case IllegalArgument => App(InvalidToken, "Invalid token")
    case OtherJwtFailure => App(InvalidToken, "Invalid token")
  }

  /** Java's `long` division, which truncates toward zero. */
  function JavaDiv(a: int, b: int): (q: int)
    requires b > 0
    ensures a >= 0 ==> q == a / b
    ensures a <= 0 ==> q <= 0
  {
    if a >= 0 then a / b else -((-a) / b)
  }

  /** The claims `createToken` puts in the builder: the caller's, less those
      with a null value, which the builder drops, and less the registered
      ones its own setters overwrite. */
  function BuilderClaims(claims: map<string, ClaimValue>): (m: map<string, ClaimValue>)
    ensures forall k :: k in m <==> k in claims && claims[k] != Null && k !in REGISTERED_CLAIMS
    ensures forall k :: k in m ==> m[k] == claims[k]
  {
    map k | k in claims && claims[k] != Null && k !in REGISTERED_CLAIMS :: claims[k]
  }

  /** The service: a signing key and the access-token lifetime, both fixed at construction. */
  datatype JwtService = JwtService(signingKey: Key, expirationMs: int) {

    /** `extractClaim`: the resolved claim of a token that parses, the mapped error otherwise. */
    function ExtractClaim<T>(token: Jwt, resolver: Claims -> T, now: Millis): (r: Result<T>)
      ensures r.Ok? <==> ParseSignedClaims(signingKey, token, now).Parsed?
      ensures r.Ok? ==> r.value == resolver(token.claims)
      ensures r.Err? ==> r.error.App? && TokenFailureCode(r.error.code)
    {
      match ParseSignedClaims(signingKey, token, now)
      case Parsed(claims) => Ok(resolver(claims))
      case ParseFailed(f) => Err(MapFailure(f))
    }

    /** `extractUsername`: the subject, which may be absent. */
    function ExtractUsername(token: Jwt, now: Millis): (r: Result<Option<string>>)
      ensures r.Ok? <==> ParseSignedClaims(signingKey, token, now).Parsed?
      ensures r.Ok? ==> r.value == token.claims.subject
      ensures r.Err? ==> r == Err(MapFailure(ParseSignedClaims(signingKey, token, now).failure))
    {
      ExtractClaim(token, (c: Claims) => c.subject, now)
    }

    /** `extractUsernameSafe`: the subject, or nothing when the token fails to
        parse or carries no subject. */
    function ExtractUsernameSafe(token: Jwt, now: Millis): (r: Option<string>)
      ensures r.Some? <==> ExtractUsername(token, now).Ok? && ExtractUsername(token, now).value.Some?
      ensures r.Some? ==> token.Jws? && token.claims.subject == r
    {
      match ExtractUsername(token, now)
      case Ok(name) => name
      case Err(_) => None
    }

    /** `extractExpiration`: the expiry of a token that parses, the mapped error otherwise. */
    function ExtractExpiration(token: Jwt, now: Millis): (r: Result<Option<Millis>>)
      ensures r.Ok? <==> ParseSignedClaims(signingKey, token, now).Parsed?
      ensures r.Ok? ==> r.value == token.claims.expiration
      ensures r.Err? ==> r == Err(MapFailure(ParseSignedClaims(signingKey, token, now).failure))
    {
      ExtractClaim(token, (c: Claims) => c.expiration, now)
    }

    /**
     * `getTimeUntilExpirationSeconds`: whole seconds left, never negative, and
     * zero when the token fails to parse or has no expiry (the null
     * dereference is caught like every other runtime failure).
     */
    function GetTimeUntilExpirationSeconds(token: Jwt, now: Millis): (s: int)
      ensures s >= 0
      ensures ExtractExpiration(token, now).Err? ==> s == 0
      ensures ExtractExpiration(token, now) == Ok(None) ==> s == 0
      ensures ParseSignedClaims(signingKey, token, now).Parsed? && token.claims.expiration.Some? ==>
        s == (token.claims.expiration.value - now) / SECOND_MS
    {
      match ExtractExpiration(token, now)
      case Ok(exp) =>
        if exp.None? then 0
        else
          var diff := exp.value - now;
          var secs := JavaDiv(diff, SECOND_MS);
          if secs > 0 then secs else 0
      case Err(_) => 0
    }

    /**
     * `validateTokenStrict`: parses for the subject (a parse failure is
     * thrown as mapped), dereferences it (an absent subject is a runtime
     * failure), compares it with the principal's name (INVALID_SUBJECT),
     * then parses for the expiry and rejects one before `new Date()`. Both
     * parses read the clock at `now`; `checkedAt` is the separate, later
     * reading `new Date()` takes.
     */
    function ValidateTokenStrict(token: Jwt, user: UserDetails, now: Millis, checkedAt: Millis): (r: Result<bool>)
      ensures r.Ok? ==> r.value
      ensures r.Ok? <==>
        && ParseSignedClaims(signingKey, token, now).Parsed?
        && token.claims.subject == Some(user.username)
        && token.claims.expiration.Some?
        && token.claims.expiration.value >= checkedAt
      ensures ParseSignedClaims(signingKey, token, now).ParseFailed? ==>
        r == Err(MapFailure(ParseSignedClaims(signingKey, token, now).failure))
      ensures ParseSignedClaims(signingKey, token, now).Parsed? && token.claims.subject.Some?
              && token.claims.subject.value != user.username ==>
        r == Err(App(InvalidSubject, "Invalid token"))
      ensures ParseSignedClaims(signingKey, token, now).Parsed? && token.claims.subject == Some(user.username)
              && token.claims.expiration.Some? && token.claims.expiration.value < checkedAt ==>
        r == Err(App(TokenExpired, "Expired token"))
    {
      match ExtractUsername(token, now)
      case Err(e) => Err(e)
      case Ok(username) =>
        if username.None? then Err(Unexpected)
        else if username.value != user.username then Err(App(InvalidSubject, "Invalid token"))
        else
          match ExtractExpiration(token, now)
          case Err(e) => Err(e)
          case Ok(exp) =>
            if exp.None? then Err(Unexpected)
            else if exp.value < checkedAt then Err(App(TokenExpired, "Expired token"))
            else Ok(true)
    }

    /** `validateTokenSoft`: true exactly when the strict validation succeeds. */
    function ValidateTokenSoft(token: Jwt, user: UserDetails, now: Millis, checkedAt: Millis): (r: bool)
      ensures r <==> ValidateTokenStrict(token, user, now, checkedAt).Ok?
    {
      match ValidateTokenStrict(token, user, now, checkedAt)
      case Ok(valid) => valid
      case Err(_) => false
    }

    /**
     * `createToken`: the given claims, the subject, `iat` at the clock and
     * `exp` one lifetime later, signed with the service's key.
     */
    function CreateToken(claims: map<string, ClaimValue>, subject: string, now: Millis): (t: Jwt)
      ensures t.Jws? && t.signedWith == signingKey
      ensures t.claims.subject == Some(subject)
      ensures t.claims.issuedAt == Some(now) && t.claims.expiration == Some(now + expirationMs)
      ensures t.claims.custom == BuilderClaims(claims)
    {
      Jws(Claims(Some(subject), Some(now), Some(now + expirationMs), BuilderClaims(claims)), signingKey)
    }

    /** `generateToken(user)`: the authority names, in order, as the `roles` claim. */
    function GenerateToken(user: UserDetails, authorities: seq<string>, now: Millis): (t: Jwt)
      ensures t.Jws? && t.claims.subject == Some(user.username)
      ensures t.claims.custom == map[ROLES_CLAIM := TextList(authorities)]
    {
      CreateToken(map[ROLES_CLAIM := TextList(authorities)], user.username, now)
    }

    /**
     * `generateToken(extra, user)`: the extra claims, with `roles` added by
     * `putIfAbsent`, which also replaces a `roles` entry mapped to null.
     */
    function GenerateTokenWith(extra: map<string, ClaimValue>, user: UserDetails, authorities: seq<string>,
                               now: Millis): (t: Jwt)
      ensures t.Jws? && t.claims.subject == Some(user.username)
      ensures ROLES_CLAIM in t.claims.custom
      ensures ROLES_CLAIM in extra && extra[ROLES_CLAIM] != Null ==>
        t.claims.custom[ROLES_CLAIM] == extra[ROLES_CLAIM]
      ensures ROLES_CLAIM !in extra || extra[ROLES_CLAIM] == Null ==>
        t.claims.custom[ROLES_CLAIM] == TextList(authorities)
      ensures forall k :: k in extra && k != ROLES_CLAIM && extra[k] != Null && k !in REGISTERED_CLAIMS ==>
        k in t.claims.custom && t.claims.custom[k] == extra[k]
    {
      var claims := if ROLES_CLAIM in extra && extra[ROLES_CLAIM] != Null then extra
                    else extra[ROLES_CLAIM := TextList(authorities)];
      assert ROLES_CLAIM !in REGISTERED_CLAIMS;
      CreateToken(claims, user.username, now)
    }
  }

  // ----- Lemmas -----

  /** A token the service generates names its user, and passes the strict
      check, for as long as it has not expired. */
  lemma GeneratedTokenRoundTrip(svc: JwtService, user: UserDetails, authorities: seq<string>,
                                issuedAt: Millis, now: Millis, checkedAt: Millis)
    requires issuedAt <= now <= checkedAt <= issuedAt + svc.expirationMs
    ensures svc.ExtractUsername(svc.GenerateToken(user, authorities, issuedAt), now) == Ok(Some(user.username))
    ensures svc.ValidateTokenStrict(svc.GenerateToken(user, authorities, issuedAt), user, now, checkedAt) == Ok(true)
    ensures svc.GetTimeUntilExpirationSeconds(svc.GenerateToken(user, authorities, issuedAt), now)
         == (issuedAt + svc.expirationMs - now) / SECOND_MS
  {
  }

  /** A token signed with another key is refused for its signature, expired or not. */
  lemma ForgedTokenRefused(svc: JwtService, claims: Claims, key: Key, user: UserDetails, now: Millis, checkedAt: Millis)
    requires key != svc.signingKey
    ensures svc.ValidateTokenStrict(Jws(claims, key), user, now, checkedAt) == Err(App(InvalidSignature, "Invalid token"))
    ensures svc.ExtractUsernameSafe(Jws(claims, key), now).None?
  {
  }

  /**
   * The expiry check inside `validateTokenStrict` rejects a token the parser
   * accepted exactly when its expiry lies between the parser's reading of
   * the clock and the later one of `new Date()`; with both readings at the
   * same instant an expired token is always refused by the parser first.
   */
  lemma StrictExpiryCheck(svc: JwtService, token: Jwt, user: UserDetails, now: Millis, checkedAt: Millis)
    ensures ParseSignedClaims(svc.signingKey, token, now).Parsed?
            && svc.ValidateTokenStrict(token, user, now, checkedAt) == Err(App(TokenExpired, "Expired token"))
        <==> && ParseSignedClaims(svc.signingKey, token, now).Parsed?
             && token.claims.subject == Some(user.username)
             && token.claims.expiration.Some?
             && now <= token.claims.expiration.value < checkedAt
    ensures svc.ValidateTokenStrict(token, user, now, now).Err? &&
            svc.ValidateTokenStrict(token, user, now, now).error.App? &&
            svc.ValidateTokenStrict(token, user, now, now).error.code == TokenExpired
        <==> ParseSignedClaims(svc.signingKey, token, now).ParseFailed? &&
             ParseSignedClaims(svc.signingKey, token, now).failure.ExpiredJwt?
  {
  }

  /** A token expiring at the very instant the parser reads the clock passes
      the parser, and is refused as expired once `new Date()` reads a later
      instant. */
  lemma ExpiryAtParseInstant(svc: JwtService, user: UserDetails, now: Millis)
    ensures var token := Jws(Claims(Some(user.username), None, Some(now), map[]), svc.signingKey);
      && ParseSignedClaims(svc.signingKey, token, now).Parsed?
      && svc.ValidateTokenStrict(token, user, now, now) == Ok(true)
      && svc.ValidateTokenStrict(token, user, now, now + 1) == Err(App(TokenExpired, "Expired token"))
  {
  }
}
