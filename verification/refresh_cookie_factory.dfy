/**
 * `RefreshCookieFactory`: the HTTP-only cookie that carries the refresh
 * secret between the browser and the authentication endpoints, its
 * deletion, and reading it back from a request.
 */
module RefreshCookies {
  import opened Common
  import opened Text
  import opened RefreshTokenSessions

  /** The configurable properties, with their defaults in `DEFAULT_COOKIE`. */
  datatype CookieConfig = CookieConfig(name: string, path: string, secure: bool, sameSite: string)

  const DEFAULT_COOKIE: CookieConfig := CookieConfig("refresh_token", "/api/auth", false, "Lax")

  /** A `Set-Cookie` value as `ResponseCookie` builds it. */
  datatype ResponseCookie = ResponseCookie(
    name: string, value: string, httpOnly: bool, secure: bool, sameSite: string, path: string, maxAge: int)

  /** A cookie the browser sent back. */
  datatype Cookie = Cookie(name: string, value: string)

  /**
   * `create`: the secret under the configured name and attributes, always
   * HTTP-only, living for the whole seconds left until the session expires
   * (`Duration.getSeconds` rounds down), and for none once it has.
   */
  function Create(config: CookieConfig, rawToken: string, expiresAt: Millis, now: Millis): (c: ResponseCookie)
    ensures c.name == config.name && c.value == rawToken && c.httpOnly
    ensures c.secure == config.secure && c.sameSite == config.sameSite && c.path == config.path
    ensures c.maxAge >= 0
    ensures expiresAt <= now ==> c.maxAge == 0
    ensures c.maxAge * SECOND_MS <= (if expiresAt > now then expiresAt - now else 0)
    ensures expiresAt - now >= SECOND_MS ==> (c.maxAge + 1) * SECOND_MS > expiresAt - now
  {
    var seconds := (expiresAt - now) / SECOND_MS;
    ResponseCookie(config.name, rawToken, true, config.secure, config.sameSite, config.path,
                   if seconds > 0 then seconds else 0)
  }

  /** `delete`: an empty value under the same name, path and attributes, expiring at once. */
  function Delete(config: CookieConfig): (c: ResponseCookie)
    ensures c.name == config.name && c.value == [] && c.httpOnly && c.maxAge == 0
    ensures c.secure == config.secure && c.sameSite == config.sameSite && c.path == config.path
  {
    ResponseCookie(config.name, "", true, config.secure, config.sameSite, config.path, 0)
  }

  /** The value of the first cookie with this name, if any. */
  function FirstNamed(cookies: seq<Cookie>, name: string): (r: Option<string>)
    ensures r.None? <==> forall i :: 0 <= i < |cookies| ==> cookies[i].name != name
    ensures r.Some? ==> exists i :: 0 <= i < |cookies| && cookies[i].name == name && cookies[i].value == r.value
                                   && forall j :: 0 <= j < i ==> cookies[j].name != name
  {
    if cookies == [] then None
    else if cookies[0].name == name then Some(cookies[0].value)
    else
      var r := FirstNamed(cookies[1..], name);
      FirstNamedShift(cookies, name, r);
      r
  }

  lemma FirstNamedShift(cookies: seq<Cookie>, name: string, r: Option<string>)
    requires cookies != [] && cookies[0].name != name
    requires r.Some? ==> exists i :: 0 <= i < |cookies[1..]| && cookies[1..][i].name == name
                                   && cookies[1..][i].value == r.value
                                   && forall j :: 0 <= j < i ==> cookies[1..][j].name != name
    ensures r.Some? ==> exists i :: 0 <= i < |cookies| && cookies[i].name == name && cookies[i].value == r.value
                                   && forall j :: 0 <= j < i ==> cookies[j].name != name
  {
    if r.Some? {
      var i :| 0 <= i < |cookies[1..]| && cookies[1..][i].name == name && cookies[1..][i].value == r.value
               && forall j :: 0 <= j < i ==> cookies[1..][j].name != name;
      assert cookies[i + 1].name == name && forall j :: 0 <= j < i + 1 ==> cookies[j].name != name;
    }
  }

  /** `readFrom`: nothing without a request or without cookies, else the
      first cookie of the configured name. */
  function ReadFrom(config: CookieConfig, cookies: Option<seq<Cookie>>): (r: Option<string>)
    ensures cookies.None? ==> r.None?
    ensures cookies.Some? ==> r == FirstNamed(cookies.value, config.name)
  {
    if cookies.None? then None else FirstNamed(cookies.value, config.name)
  }

  /** What the browser sends back for a cookie it holds. */
  function Echo(c: ResponseCookie): Cookie {
    Cookie(c.name, c.value)
  }

  /** The secret set by `create` is what `readFrom` reads back, ahead of any
      other cookie the browser sends after it. */
  lemma CreateThenRead(config: CookieConfig, rawToken: string, expiresAt: Millis, now: Millis, others: seq<Cookie>)
    ensures ReadFrom(config, Some([Echo(Create(config, rawToken, expiresAt, now))] + others)) == Some(rawToken)
  {
  }

  /**
   * After `delete`, whatever the browser still sends under the cookie's
   * name is empty, so a refresh with it is refused as an invalid token
   * and a logout with it changes nothing.
   */
  lemma DeletedCookieIsInert(config: CookieConfig, others: seq<Cookie>, rows: seq<RefreshTokenEntity.TokenRecord>,
                             now: Millis)
    ensures var read := ReadFrom(config, Some([Echo(Delete(config))] + others));
      && read == Some("")
      && ValidateOutcome(rows, read, now) == Err(App(RefreshTokenInvalid, INVALID_REFRESH))
      && RevokeEffect(rows, read) == rows
  {
    var read := ReadFrom(config, Some([Echo(Delete(config))] + others));
    assert read == Some("");
    assert IsBlank("");
  }
}
