/**
 * `JwtAuthenticationFilter`: on each request outside the public routes,
 * takes the bearer token from the `Authorization` header, resolves its
 * subject to a principal and authenticates the request; any failure is
 * recorded on the request and answered by the entry point with a 401.
 */
module JwtAuthentication {
  import opened Common
  import opened Text
  import opened UserEntity
  import opened UserDetailsLookup
  import opened JwtTokens
  import opened AuthenticationEntryPoint

  const BEARER_PREFIX: string := "Bearer "

  /** The path prefixes `shouldNotFilter` lets through unauthenticated. */
  const PUBLIC_PREFIXES: seq<string> := ["/api/auth/", "/swagger-ui", "/v3/api-docs"]

  /** `shouldNotFilter`: the authentication endpoints and the API documentation pass unfiltered. */
  predicate ShouldNotFilter(servletPath: string)
    ensures ShouldNotFilter(servletPath) <==>
      exists k :: 0 <= k < |PUBLIC_PREFIXES| && StartsWith(servletPath, PUBLIC_PREFIXES[k])
  {
    assert PUBLIC_PREFIXES[0] == "/api/auth/" && PUBLIC_PREFIXES[1] == "/swagger-ui";
    assert PUBLIC_PREFIXES[2] == "/v3/api-docs";
    StartsWith(servletPath, "/api/auth/") || StartsWith(servletPath, "/swagger-ui")
      || StartsWith(servletPath, "/v3/api-docs")
  }

  /** Every path under one of the prefixes is skipped, whatever follows it.
      The prefixes are matched as written: "/api/auth/" needs its slash, so
      "/api/auth" itself and "/api/authority" are filtered. */
  lemma PublicRoutes(rest: string)
    ensures ShouldNotFilter("/api/auth/" + rest)
    ensures ShouldNotFilter("/swagger-ui" + rest) && ShouldNotFilter("/v3/api-docs" + rest)
    ensures !ShouldNotFilter("/api/auth") && !ShouldNotFilter("/api/authority") && !ShouldNotFilter("/api/users")
  {
    assert ("/api/auth/" + rest)[..10] == "/api/auth/";
    assert ("/swagger-ui" + rest)[..11] == "/swagger-ui";
    assert ("/v3/api-docs" + rest)[..12] == "/v3/api-docs";
    var other := "/api/authority";
    assert other[..10] != "/api/auth/" by { assert other[..10][9] != "/api/auth/"[9]; }
    assert other[..11] != "/swagger-ui" by { assert other[..11][1] != "/swagger-ui"[1]; }
    assert other[..12] != "/v3/api-docs" by { assert other[..12][1] != "/v3/api-docs"[1]; }
  }

  /**
   * `resolveBearerToken`: the header's text after "Bearer ", trimmed, when
   * the header starts with that prefix and something is left; nothing
   * otherwise. A blank header cannot start with the prefix, so the blank
   * check adds no case of its own.
   */
  function ResolveBearerToken(header: Option<string>): (r: Option<string>)
    ensures r.Some? <==>
      header.Some? && StartsWith(header.value, BEARER_PREFIX) && Trim(header.value[|BEARER_PREFIX|..]) != []
    ensures r.Some? ==> r.value == Trim(header.value[|BEARER_PREFIX|..])
  {
    if header.None? then None
    else if IsBlank(header.value) then BearerHeaderNotBlank(header.value); None
    else if !StartsWith(header.value, BEARER_PREFIX) then None
    else
      var token := Trim(header.value[|BEARER_PREFIX|..]);
      if token == [] then None else Some(token)
  }

  /** A token sent as "Bearer " followed by the token is read back as that token. */
  lemma {:induction false} BearerRoundTrip(token: string)
    requires token != [] && !Trimmable(token[0]) && !Trimmable(token[|token| - 1])
    ensures ResolveBearerToken(Some(BEARER_PREFIX + token)) == Some(token)
  {
    var h := BEARER_PREFIX + token;
    assert h[..|BEARER_PREFIX|] == BEARER_PREFIX;
    assert h[|BEARER_PREFIX|..] == token;
    TrimOfTrimmed(token);
  }

  /** What the filter reads is always such a token: sending it again as a
      bearer header reads back the same token. */
  lemma ResolvedTokenStable(header: Option<string>)
    requires ResolveBearerToken(header).Some?
    ensures ResolveBearerToken(Some(BEARER_PREFIX + ResolveBearerToken(header).value)) == ResolveBearerToken(header)
  {
    var t := Trim(header.value[|BEARER_PREFIX|..]);
    TrimmedToken(header.value[|BEARER_PREFIX|..], t);
    BearerRoundTrip(t);
  }

  /** A non-empty result of `trim` neither starts nor ends with a character up to U+0020. */
  lemma TrimmedToken(s: string, t: string)
    requires t == Trim(s) && t != []
    ensures !Trimmable(t[0]) && !Trimmable(t[|t| - 1])
  {
  }

  lemma BearerHeaderNotBlank(h: string)
    ensures StartsWith(h, BEARER_PREFIX) ==> !IsBlank(h)
  {
    if StartsWith(h, BEARER_PREFIX) {
      assert h[0] == h[..|BEARER_PREFIX|][0] == 'B';
    }
  }

  /** What the filter does with a request. */
  datatype FilterOutcome =
      /** Hand the request on unchanged. */
    | PassOn
      /** Authenticate the request as this principal, then hand it on. */
    | Authenticate(principal: UserDetails)
      /** Record this code and message on the request and answer with a 401. */
    | Refuse(code: ErrorCode, message: string)

  /**
   * The `catch` clauses: a token exception keeps its code and message; any
   * other failure (an unknown, locked or disabled user, a runtime failure)
   * becomes INVALID_TOKEN with the generic message.
   */
  function RefusalOf(e: Error): (o: FilterOutcome)
    ensures o.Refuse?
    ensures e.App? ==> o == Refuse(e.code, e.message)
    ensures !e.App? ==> o == Refuse(InvalidToken, "Invalid token")
  {
    match e
    case App(code, message) => Refuse(code, message)
    case _ => Refuse(InvalidToken, "Invalid token")
  }

  /**
   * The `try` block of `doFilterInternal` for a decoded token: the token's
   * subject, the principal loaded by that name, then the strict validation
   * of the token against that principal.
   */
  function Verify(svc: JwtService, users: seq<UserRecord>, token: Jwt, now: Millis): (o: FilterOutcome)
    ensures !o.PassOn?
    ensures o.Authenticate? ==>
      && token.Jws?
      && LoadUserByUsername(users, token.claims.subject) == Ok(o.principal)
      && svc.ValidateTokenStrict(token, o.principal, now, now) == Ok(true)
  {
    match svc.ExtractUsername(token, now)
    case Err(e) => RefusalOf(e)
    case Ok(username) =>
      match LoadUserByUsername(users, username)
      case Err(e) => RefusalOf(e)
      case Ok(principal) =>
        match svc.ValidateTokenStrict(token, principal, now, now)
        case Err(e) => RefusalOf(e)
        case Ok(_) => Authenticate(principal)
  }

  /**
   * The decision of `doFilterInternal` for a request whose security context
   * already holds an authentication or not, with this `Authorization`
   * header; `decode` reads the header's token text as a JWT.
   */
  function Decide(svc: JwtService, users: seq<UserRecord>, decode: string -> Jwt,
                  alreadyAuthenticated: bool, header: Option<string>, now: Millis): (o: FilterOutcome)
    ensures o.PassOn? <==> alreadyAuthenticated || ResolveBearerToken(header).None?
    ensures !o.PassOn? ==> o == Verify(svc, users, decode(ResolveBearerToken(header).value), now)
  {
    if alreadyAuthenticated then PassOn
    else
      match ResolveBearerToken(header)
      case None => PassOn
      case Some(text) => Verify(svc, users, decode(text), now)
  }

  /**
   * A token authenticates exactly when it parses, names a subject whose
   * account is usable and has an expiry; the principal is that account's.
   * A refusal always carries a token failure code, never INVALID_SUBJECT:
   * the principal is looked up by the token's own subject.
   */
  lemma VerifyCharacterised(svc: JwtService, users: seq<UserRecord>, token: Jwt, now: Millis)
    ensures var o := Verify(svc, users, token, now);
      && (o.Authenticate? <==>
            && ParseSignedClaims(svc.signingKey, token, now).Parsed?
            && FindByUsername(users, token.claims.subject).Some?
            && Usable(FindByUsername(users, token.claims.subject).value)
            && token.claims.expiration.Some?)
      && (o.Authenticate? ==> o.principal == DetailsOf(FindByUsername(users, token.claims.subject).value))
      && (o.Refuse? ==> TokenFailureCode(o.code))
  {
    var username := svc.ExtractUsername(token, now);
    if username.Ok? {
      var loaded := LoadUserByUsername(users, username.value);
      if loaded.Ok? {
        assert token.claims.subject == Some(loaded.value.username);
      }
    }
  }

  /**
   * An expired token is refused as TOKEN_EXPIRED whoever its subject is,
   * and a token for an unknown, locked or disabled account is refused as
   * INVALID_TOKEN: the client is not told why the account was refused.
   */
  lemma RefusalCodes(svc: JwtService, users: seq<UserRecord>, token: Jwt, now: Millis)
    ensures ParseSignedClaims(svc.signingKey, token, now).ParseFailed? &&
            ParseSignedClaims(svc.signingKey, token, now).failure.ExpiredJwt? ==>
      Verify(svc, users, token, now) == Refuse(TokenExpired, "Expired token")
    ensures ParseSignedClaims(svc.signingKey, token, now).Parsed? &&
            (FindByUsername(users, token.claims.subject).None? ||
             !Usable(FindByUsername(users, token.claims.subject).value)) ==>
      Verify(svc, users, token, now) == Refuse(InvalidToken, "Invalid token")
  {
  }

  /**
   * An access token the service issued to a usable account authenticates
   * that account's principal until it expires, and is refused as expired
   * from the first instant after.
   */
  lemma IssuedTokenAuthenticates(svc: JwtService, users: seq<UserRecord>, i: int, authorities: seq<string>,
                                 issuedAt: Millis, now: Millis)
    requires UniqueUsernames(users) && 0 <= i < |users| && Usable(users[i])
    requires issuedAt <= now
    ensures var token := svc.GenerateToken(DetailsOf(users[i]), authorities, issuedAt);
      now <= issuedAt + svc.expirationMs ==> Verify(svc, users, token, now) == Authenticate(DetailsOf(users[i]))
    ensures var token := svc.GenerateToken(DetailsOf(users[i]), authorities, issuedAt);
      now > issuedAt + svc.expirationMs ==> Verify(svc, users, token, now) == Refuse(TokenExpired, "Expired token")
  {
    FindByUsernameUnique(users, i);
    var token := svc.GenerateToken(DetailsOf(users[i]), authorities, issuedAt);
    if now <= issuedAt + svc.expirationMs {
      GeneratedTokenRoundTrip(svc, DetailsOf(users[i]), authorities, issuedAt, now, now);
    }
  }

  /** The per-request state the filter changes: the security context's
      authentication, the request attributes, whether the rest of the chain
      ran, and the error response written, if any. */
  class Exchange {
    var authentication: Option<UserDetails>
    var attributes: map<string, string>
    var chainInvoked: bool
    var response: Option<ErrorResponse>

    constructor (authentication: Option<UserDetails>, attributes: map<string, string>)
      ensures this.authentication == authentication && this.attributes == attributes
      ensures !chainInvoked && response.None?
    {
      this.authentication := authentication;
      this.attributes := attributes;
      this.chainInvoked := false;
      this.response := None;
    }
  }

  /** The request as the filter reads it. */
  datatype FilterRequest = FilterRequest(servletPath: string, requestUri: string,
                                         authorization: Option<string>, requestId: Option<string>)

  class JwtAuthenticationFilter {
    const jwt: JwtService
    const users: seq<UserRecord>
    const decode: string -> Jwt

    constructor (jwt: JwtService, users: seq<UserRecord>, decode: string -> Jwt)
      ensures this.jwt == jwt && this.users == users && this.decode == decode
    {
      this.jwt := jwt;
      this.users := users;
      this.decode := decode;
    }

    /**
     * `doFilterInternal`: carries out `Decide` on the request, as `Apply`
     * describes.
     */
    method DoFilterInternal(req: FilterRequest, ex: Exchange, mdcTraceId: Option<string>, now: Millis)
      modifies ex
      ensures Applied(Decide(jwt, users, decode, old(ex.authentication).Some?, req.authorization, now),
                      req, mdcTraceId, now, old(ex.authentication), old(ex.attributes), old(ex.chainInvoked),
                      old(ex.response), ex.authentication, ex.attributes, ex.chainInvoked, ex.response)
    {
      var o := Decide(jwt, users, decode, ex.authentication.Some?, req.authorization, now);
      Apply(o, req, ex, mdcTraceId, now);
    }
  }

  /**
   * The state after carrying out an outcome. Passing on or authenticating
   * runs the rest of the chain; a refusal stores the code and message as
   * request attributes and writes the entry point's 401, whose body then
   * carries exactly that code and message.
   */
  ghost predicate Applied(o: FilterOutcome, req: FilterRequest, mdcTraceId: Option<string>, now: Millis,
                          authentication: Option<UserDetails>, attributes: map<string, string>,
                          chainInvoked: bool, response: Option<ErrorResponse>,
                          authentication': Option<UserDetails>, attributes': map<string, string>,
                          chainInvoked': bool, response': Option<ErrorResponse>)
  {
    match o
    case PassOn =>
      authentication' == authentication && attributes' == attributes && chainInvoked' && response' == response
    case Authenticate(principal) =>
      authentication' == Some(principal) && attributes' == attributes && chainInvoked' && response' == response
    case Refuse(code, message) =>
      && authentication' == authentication
      && attributes' == attributes[ATTR_CODE := code.Name()][ATTR_MESSAGE := message]
      && chainInvoked' == chainInvoked
      && response'.Some? && response'.value.status == SC_UNAUTHORIZED
      && response'.value.body.code == code.Name()
      && (!IsBlank(message) ==> response'.value.body.message == message)
      && response'.value.body.traceId == ResolveTraceId(mdcTraceId, req.requestId)
  }

  /** Carries out one outcome of the filter on the exchange. */
  method Apply(o: FilterOutcome, req: FilterRequest, ex: Exchange, mdcTraceId: Option<string>, now: Millis)
    modifies ex
    ensures Applied(o, req, mdcTraceId, now, old(ex.authentication), old(ex.attributes), old(ex.chainInvoked),
                    old(ex.response), ex.authentication, ex.attributes, ex.chainInvoked, ex.response)
  {
    match o
    case PassOn =>
      ex.chainInvoked := true;
    case Authenticate(principal) =>
      ex.authentication := Some(principal);
      ex.chainInvoked := true;
    case Refuse(code, message) =>
      ex.attributes := ex.attributes[ATTR_CODE := code.Name()][ATTR_MESSAGE := message];
      var request := HandlerRequest(req.requestUri, req.requestId, ex.attributes);
      RefusalResponse(request, code, message, mdcTraceId, now);
      ex.response := Some(Commence(request, BadCredentialsException(Some(code.Name())), mdcTraceId, now));
  }

  /** The entry point answers a refusal with the code and message the filter recorded. */
  lemma RefusalResponse(req: HandlerRequest, code: ErrorCode, message: string, mdcTraceId: Option<string>, now: Millis)
    requires ATTR_CODE in req.attributes && req.attributes[ATTR_CODE] == code.Name()
    requires ATTR_MESSAGE in req.attributes && req.attributes[ATTR_MESSAGE] == message
    ensures var resp := Commence(req, BadCredentialsException(Some(code.Name())), mdcTraceId, now);
      && resp.status == SC_UNAUTHORIZED
      && resp.body.code == code.Name()
      && (!IsBlank(message) ==> resp.body.message == message)
      && resp.body.traceId == ResolveTraceId(mdcTraceId, req.requestId)
  {
    LeadingCharNotBlank(code.Name());
  }
}
