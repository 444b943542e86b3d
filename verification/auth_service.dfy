/**
 * `AuthService`: login, refresh, logout and logout-everywhere, built on the
 * user table, the password encoder, the access-token service and the
 * refresh-session service. The user table is read-only here; the refresh
 * sessions are the state these operations change.
 */
module Authentication {
  import opened Common
  import opened Text
  import opened RefreshTokenEntity
  import opened RefreshTokenStore
  import opened RefreshTokenSessions
  import opened UserEntity
  import opened UserDetailsLookup
  import opened JwtTokens
  import opened LoginRequests

  /** `AuthResult`: what a login or a refresh hands back to the controller. */
  datatype AuthResult = AuthResult(
    accessToken: Jwt,
    expiresIn: int,
    username: string,
    refreshTokenRaw: string,
    refreshExpiresAt: Millis)

  /**
   * `assertAccountOk`: a locked account is refused as locked before an
   * inactive one is refused as disabled; a usable account passes.
   */
  function AssertAccountOk(u: UserRecord): (r: Option<Error>)
    ensures r.None? <==> Usable(u)
    ensures r.Some? ==> r.value.BadCredentials?
    ensures u.locked ==> r == Some(BadCredentials("ACCOUNT_LOCKED"))
    ensures r == Some(BadCredentials("ACCOUNT_DISABLED")) <==> !u.locked && !u.active
  {
    if u.locked then Some(BadCredentials("ACCOUNT_LOCKED"))
    else if !u.active then Some(BadCredentials("ACCOUNT_DISABLED"))
    else None
  }

  /**
   * The credential half of `login`: an unknown username and a wrong password
   * are refused alike as INVALID_CREDENTIALS, and only a caller who knows
   * the password learns that the account is locked or disabled.
   */
  function CheckCredentials(users: seq<UserRecord>, passwordMatches: (Option<string>, string) -> bool,
                            req: LoginRequest): (r: Result<UserRecord>)
    ensures r.Ok? <==>
      && FindByUsername(users, req.username).Some?
      && passwordMatches(req.password, FindByUsername(users, req.username).value.passwordHash)
      && Usable(FindByUsername(users, req.username).value)
    ensures r.Ok? ==> r.value == FindByUsername(users, req.username).value
    ensures r.Err? ==> r.error.BadCredentials?
    ensures (FindByUsername(users, req.username).None? ||
             !passwordMatches(req.password, FindByUsername(users, req.username).value.passwordHash))
        <==> r == Err(BadCredentials("INVALID_CREDENTIALS"))
  {
    match FindByUsername(users, req.username)
    case None => Err(BadCredentials("INVALID_CREDENTIALS"))
    case Some(u) =>
      if !passwordMatches(req.password, u.passwordHash) then Err(BadCredentials("INVALID_CREDENTIALS"))
      else
        match AssertAccountOk(u)
        case Some(e) => Err(e)
        case None => Ok(u)
  }

  class AuthService {
    const users: seq<UserRecord>
    /** `PasswordEncoder.matches(raw, hash)`. */
    const passwordMatches: (Option<string>, string) -> bool
    /** The authority names `CustomUserDetails` grants a principal. */
    const authoritiesOf: UserDetails -> seq<string>
    const jwt: JwtService
    const sessions: RefreshTokenService

    ghost predicate Valid()
      reads this, sessions, sessions.repo
    {
      sessions.Valid()
    }

    constructor (users: seq<UserRecord>, passwordMatches: (Option<string>, string) -> bool,
                 authoritiesOf: UserDetails -> seq<string>, jwt: JwtService, sessions: RefreshTokenService)
      requires sessions.Valid()
      ensures Valid()
      ensures this.users == users && this.passwordMatches == passwordMatches
      ensures this.authoritiesOf == authoritiesOf && this.jwt == jwt && this.sessions == sessions
    {
      this.users := users;
      this.passwordMatches := passwordMatches;
      this.authoritiesOf := authoritiesOf;
      this.jwt := jwt;
      this.sessions := sessions;
    }

    /** `issueAccessToken`: an access token for the user's principal. */
    function AccessTokenFor(u: UserRecord, now: Millis): (t: Jwt)
      reads this
      ensures t.Jws? && t.signedWith == jwt.signingKey
      ensures t.claims.subject == Some(u.username)
      ensures t.claims.expiration == Some(now + jwt.expirationMs)
    {
      jwt.GenerateToken(DetailsOf(u), authoritiesOf(DetailsOf(u)), now)
    }

    /**
     * `login`: checks the credentials and the account, mints an access
     * token, then unboxes the remember-me flag (a missing one is a null
     * dereference) and issues a refresh session of the matching kind. Every
     * refusal leaves the sessions as they were.
     */
    method Login(req: LoginRequest, httpReq: Option<ClientRequest>, uuid1: string, uuid2: string, now: Millis)
      returns (r: Result<AuthResult>)
      requires Valid()
      modifies sessions.repo
      ensures Valid()
      ensures Evolves(old(sessions.repo.rows), sessions.repo.rows)
      ensures r.Err? ==> sessions.repo.rows == old(sessions.repo.rows)
      ensures CheckCredentials(users, passwordMatches, req).Err? ==>
        r == Err(CheckCredentials(users, passwordMatches, req).error)
      ensures CheckCredentials(users, passwordMatches, req).Ok? && req.rememberMe.None? ==> r == Err(Unexpected)
      ensures CheckCredentials(users, passwordMatches, req).Ok? && req.rememberMe.Some? ==>
        && (r.Err? <==>
              || ExtractIp(httpReq).Err?
              || !HashFree(AfterEviction(old(sessions.repo.rows), CheckCredentials(users, passwordMatches, req).value.id,
                                         now, sessions.config.maxActiveSessions),
                           Sha256(uuid1 + "." + uuid2)))
        && (r.Err? ==> r.error == Unexpected)
      ensures r.Ok? ==>
        && CheckCredentials(users, passwordMatches, req).Ok? && req.rememberMe.Some?
        && var u := CheckCredentials(users, passwordMatches, req).value;
           var remember := req.rememberMe.value;
           && r.value.username == u.username
           && r.value.accessToken == AccessTokenFor(u, now)
           && r.value.expiresIn == jwt.GetTimeUntilExpirationSeconds(r.value.accessToken, now)
           && r.value.refreshTokenRaw == uuid1 + "." + uuid2
           && r.value.refreshExpiresAt == now + DaysFor(sessions.config, remember) * DAY_MS
           && |sessions.repo.rows| == |old(sessions.repo.rows)| + 1
           && sessions.repo.rows[..|old(sessions.repo.rows)|]
                == AfterEviction(old(sessions.repo.rows), u.id, now, sessions.config.maxActiveSessions)
           && sessions.repo.rows[|sessions.repo.rows| - 1].userId == u.id
           && sessions.repo.rows[|sessions.repo.rows| - 1].tokenType == TypeFor(remember)
           // the new row records the request's address, agent and device, and the expiry the client is told
           && sessions.repo.nextId == old(sessions.repo.nextId) + 1
           && sessions.repo.rows
                == AfterEviction(old(sessions.repo.rows), u.id, now, sessions.config.maxActiveSessions)
                   + [SessionRow(old(sessions.repo.nextId),
                                 Issued(uuid1 + "." + uuid2, r.value.refreshExpiresAt, TypeFor(remember), u.id),
                                 now, ExtractIp(httpReq).value, httpReq)]
           && (DaysFor(sessions.config, remember) >= 0 ==>
                ValidateOutcome(sessions.repo.rows, Some(r.value.refreshTokenRaw), now)
                  == Ok(sessions.repo.rows[|sessions.repo.rows| - 1]))
      ensures r.Ok? && jwt.expirationMs >= 0 ==>
        && jwt.ValidateTokenStrict(r.value.accessToken, DetailsOf(CheckCredentials(users, passwordMatches, req).value), now, now)
             == Ok(true)
        && r.value.expiresIn == jwt.expirationMs / SECOND_MS
    {
      var checked := CheckCredentials(users, passwordMatches, req);
      if checked.Err? {
        return Err(checked.error);
      }
      var u := checked.value;
      var accessToken := AccessTokenFor(u, now);
      var expiresIn := jwt.GetTimeUntilExpirationSeconds(accessToken, now);
      if req.rememberMe.None? {
        return Err(Unexpected);
      }
      var issued := sessions.Issue(u.id, req.rememberMe.value, httpReq, uuid1, uuid2, now);
      if issued.Err? {
        return Err(issued.error);
      }
      r := Ok(AuthResult(accessToken, expiresIn, u.username, issued.value.rawToken, issued.value.expiresAt));
      if jwt.expirationMs >= 0 {
        GeneratedTokenRoundTrip(jwt, DetailsOf(u), authoritiesOf(DetailsOf(u)), now, now, now);
      }
    }

    /**
     * `refresh`: rotates the refresh session first and only then looks the
     * owner up and checks the account, with nothing rolled back. So when the
     * owner is gone, locked or disabled the refresh is refused, yet with
     * rotation on the presented secret has already been revoked.
     */
    method Refresh(raw: Option<string>, httpReq: Option<ClientRequest>, uuid1: string, uuid2: string, now: Millis)
      returns (r: Result<AuthResult>)
      requires Valid()
      modifies sessions.repo
      ensures Valid()
      ensures Evolves(old(sessions.repo.rows), sessions.repo.rows)
      ensures ValidateOutcome(old(sessions.repo.rows), raw, now).Err? ==>
        && r == Err(ValidateOutcome(old(sessions.repo.rows), raw, now).error)
        && sessions.repo.rows == old(sessions.repo.rows)
      ensures ValidateOutcome(old(sessions.repo.rows), raw, now).Ok? ==>
        var t := ValidateOutcome(old(sessions.repo.rows), raw, now).value;
        var owner := FindById(users, t.userId);
        if RotationRefused(old(sessions.repo.rows), t, sessions.config, httpReq, uuid1, uuid2, now) then
          r == Err(Unexpected)
        else if owner.None? then r == Err(BadCredentials("USER_NOT_FOUND"))
        else if AssertAccountOk(owner.value).Some? then r == Err(AssertAccountOk(owner.value).value)
        else r.Ok?
      ensures r.Err? && r.error.BadCredentials? && sessions.config.rotate ==>
        ValidateOutcome(sessions.repo.rows, raw, now) == Err(App(RefreshTokenRevoked, INVALID_REFRESH))
      ensures r.Err? && r.error.BadCredentials? ==> ValidateOutcome(old(sessions.repo.rows), raw, now).Ok?
      ensures r.Ok? ==>
        var t := ValidateOutcome(old(sessions.repo.rows), raw, now).value;
        && FindById(users, t.userId).Some?
        && var u := FindById(users, t.userId).value;
           && r.value.username == u.username
           && r.value.accessToken == AccessTokenFor(u, now)
           && r.value.expiresIn == jwt.GetTimeUntilExpirationSeconds(r.value.accessToken, now)
           && r.value.refreshTokenRaw == (if sessions.config.rotate then uuid1 + "." + uuid2 else raw.value)
           && r.value.refreshExpiresAt
                == (if sessions.config.rotate then now + DaysFor(sessions.config, t.tokenType == RememberMe) * DAY_MS
                    else t.expiresAt)
      ensures ValidateOutcome(old(sessions.repo.rows), raw, now).Ok? ==>
        var t := ValidateOutcome(old(sessions.repo.rows), raw, now).value;
        if !sessions.config.rotate then
          sessions.repo.rows == Merge(old(sessions.repo.rows), t)
        else if RotationRefused(old(sessions.repo.rows), t, sessions.config, httpReq, uuid1, uuid2, now) then
          sessions.repo.rows == old(sessions.repo.rows)
        else
          // the successor session is stored even when the owner is then refused
          sessions.repo.rows
            == AfterEviction(Merge(old(sessions.repo.rows), t.(revoked := true)), t.userId, now,
                             sessions.config.maxActiveSessions)
               + [SessionRow(old(sessions.repo.nextId),
                             Issued(uuid1 + "." + uuid2, now + DaysFor(sessions.config, t.tokenType == RememberMe) * DAY_MS,
                                    t.tokenType, t.userId),
                             now, ExtractIp(httpReq).value, httpReq)]
    {
      var rotated := sessions.Rotate(raw, httpReq, uuid1, uuid2, now);
      if rotated.Err? {
        return Err(rotated.error);
      }
      var found := FindById(users, rotated.value.userId);
      if found.None? {
        return Err(BadCredentials("USER_NOT_FOUND"));
      }
      var u := found.value;
      var refused := AssertAccountOk(u);
      if refused.Some? {
        return Err(refused.value);
      }
      var accessToken := AccessTokenFor(u, now);
      var expiresIn := jwt.GetTimeUntilExpirationSeconds(accessToken, now);
      r := Ok(AuthResult(accessToken, expiresIn, u.username, rotated.value.rawToken, rotated.value.expiresAt));
    }

    /** `logout`: revokes the presented session; an absent, blank or unknown
        secret changes nothing. */
    method Logout(raw: Option<string>)
      requires Valid()
      modifies sessions.repo
      ensures Valid()
      ensures sessions.repo.rows == RevokeEffect(old(sessions.repo.rows), raw)
      ensures Evolves(old(sessions.repo.rows), sessions.repo.rows)
      ensures raw.Some? && !IsBlank(raw.value) && !HashFree(old(sessions.repo.rows), Sha256(raw.value)) ==>
        && FindByTokenHash(sessions.repo.rows, Sha256(raw.value)).Some?
        && FindByTokenHash(sessions.repo.rows, Sha256(raw.value)).value.revoked
      ensures NullOrBlank(raw) || HashFree(old(sessions.repo.rows), Sha256(raw.value)) ==>
        sessions.repo.rows == old(sessions.repo.rows)
    {
      ghost var before := sessions.repo.rows;
      sessions.Revoke(raw);
      if raw.Some? && !IsBlank(raw.value) && !HashFree(before, Sha256(raw.value)) {
        var k := RevokeRejects(before, sessions.repo.nextId, raw.value, 0);
        FindByTokenHashUnique(sessions.repo.rows, k);
      } else {
        RevokeUnknown(before, raw);
      }
    }

    /**
     * `logoutAll`: validates the presented session (stamping it as used) to
     * learn its owner, then revokes every session of that owner, so none of
     * them stays active.
     */
    method LogoutAll(raw: Option<string>, now: Millis) returns (r: Result<()>)
      requires Valid()
      modifies sessions.repo
      ensures Valid()
      ensures Evolves(old(sessions.repo.rows), sessions.repo.rows)
      ensures r.Err? <==> ValidateOutcome(old(sessions.repo.rows), raw, now).Err?
      ensures r.Err? ==>
        && r.error == ValidateOutcome(old(sessions.repo.rows), raw, now).error
        && sessions.repo.rows == old(sessions.repo.rows)
      ensures r.Ok? ==>
        var t := ValidateOutcome(old(sessions.repo.rows), raw, now).value;
        && sessions.repo.rows == RevokeSelected(Merge(old(sessions.repo.rows), t), t.userId, None)
        && CountActiveSessions(sessions.repo.rows, t.userId, now) == 0
    {
      var v := sessions.Validate(raw, now);
      if v.Err? {
        return Err(v.error);
      }
      ghost var validated := sessions.repo.rows;
      sessions.RevokeAll(v.value.userId);
      ghost var after := sessions.repo.rows;
      EvolvesTrans(old(sessions.repo.rows), validated, after);
      RevokeAllEndsSessions(validated, v.value.userId, now);
      r := Ok(());
    }
  }
}
