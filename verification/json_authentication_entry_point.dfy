/**
 * `JsonAuthenticationEntryPoint`: the 401 response every authentication
 * failure ends in. The code and message a filter stored on the request win
 * over those derived from the exception; the trace id comes from the
 * logging context, or else from the `X-Request-Id` header.
 */
module AuthenticationEntryPoint {
  import opened Common
  import opened Text

  const ATTR_CODE: string := "auth_error_code"
  const ATTR_MESSAGE: string := "auth_error_message"
  const SC_UNAUTHORIZED: int := 401
  const APPLICATION_JSON: string := "application/json"

  /** The `AuthenticationException` subclasses the entry point tells apart. */
  datatype AuthenticationException =
    | DisabledException
    | LockedException
    | UsernameNotFoundException
    | BadCredentialsException(message: Option<string>)
    | OtherAuthenticationException

  /** `ApiError`, the JSON body of every error response (`details` may be null). */
  datatype ApiError = ApiError(
    timestamp: Millis,
    status: int,
    error: string,
    code: string,
    message: string,
    path: string,
    traceId: Option<string>,
    details: Option<map<string, string>>)

  /** What a handler writes: the status, the content type and the body. */
  datatype ErrorResponse = ErrorResponse(status: int, contentType: string, body: ApiError)

  /** The parts of the request the handlers read: its URI, the
      `X-Request-Id` header and the request attributes (as text). */
  datatype HandlerRequest = HandlerRequest(requestUri: string, requestId: Option<string>,
                                           attributes: map<string, string>)

  /** The attribute as text, or null when it is not set. */
  function Attribute(req: HandlerRequest, name: string): Option<string> {
    if name in req.attributes then Some(req.attributes[name]) else None
  }

  lemma LeadingCharNotBlank(s: string)
    requires s != [] && !IsWhitespace(s[0])
    ensures !IsBlank(s)
  {
  }

  /**
   * The trace id both handlers put in the body: the logging context's when
   * it is not blank, else the `X-Request-Id` header as sent (possibly null).
   */
  function ResolveTraceId(mdcTraceId: Option<string>, requestId: Option<string>): (r: Option<string>)
    ensures !NullOrBlank(mdcTraceId) ==> r == mdcTraceId
    ensures NullOrBlank(mdcTraceId) ==> r == requestId
  {
    if NullOrBlank(mdcTraceId) then requestId else mdcTraceId
  }

  /**
   * `mapCode`: the account exceptions have fixed codes; a bad-credentials
   * exception carries its code as its message (INVALID_CREDENTIALS when that
   * is blank); anything else is UNAUTHORIZED. The result is never blank.
   */
  function MapCode(ex: AuthenticationException): (r: string)
    ensures !IsBlank(r)
    ensures ex.DisabledException? ==> r == "ACCOUNT_DISABLED"
    ensures ex.LockedException? ==> r == "ACCOUNT_LOCKED"
    ensures ex.UsernameNotFoundException? ==> r == "USER_NOT_FOUND"
    ensures ex.BadCredentialsException? && !NullOrBlank(ex.message) ==> r == ex.message.value
    ensures ex.BadCredentialsException? && NullOrBlank(ex.message) ==> r == "INVALID_CREDENTIALS"
    ensures ex.OtherAuthenticationException? ==> r == "UNAUTHORIZED"
  {
    match ex
    case DisabledException => LeadingCharNotBlank("ACCOUNT_DISABLED"); "ACCOUNT_DISABLED"
    case LockedException => LeadingCharNotBlank("ACCOUNT_LOCKED"); "ACCOUNT_LOCKED"
    case UsernameNotFoundException => LeadingCharNotBlank("USER_NOT_FOUND"); "USER_NOT_FOUND"
    case BadCredentialsException(msg) =>
      if NullOrBlank(msg) then LeadingCharNotBlank("INVALID_CREDENTIALS"); "INVALID_CREDENTIALS" else msg.value
    case OtherAuthenticationException => LeadingCharNotBlank("UNAUTHORIZED"); "UNAUTHORIZED"
  }

  /** The codes whose message is the generic "Token invalide". */
  const GENERIC_TOKEN_CODES: set<string> :=
    {"INVALID_SIGNATURE", "MALFORMED_TOKEN", "UNSUPPORTED_TOKEN", "INVALID_TOKEN", "INVALID_CREDENTIALS"}

  /** `mapMessage`: a fixed message per known code, "Unauthenticated" for any other. */
  function MapMessage(code: string): (r: string)
    ensures !IsBlank(r)
    ensures r == "Token invalide" <==> code in GENERIC_TOKEN_CODES
    ensures r == "Expired token" <==> code == "TOKEN_EXPIRED"
    ensures r == "Account deactivated" <==> code == "ACCOUNT_DISABLED"
    ensures r == "Account locked" <==> code == "ACCOUNT_LOCKED"
    ensures r == "User not found" <==> code == "USER_NOT_FOUND"
    ensures r == "Unauthenticated" <==>
      code !in GENERIC_TOKEN_CODES + {"TOKEN_EXPIRED", "ACCOUNT_DISABLED", "ACCOUNT_LOCKED", "USER_NOT_FOUND"}
  {
    var r :=
      if code == "TOKEN_EXPIRED" then "Expired token"
      else if code in GENERIC_TOKEN_CODES then "Token invalide"
      else if code == "ACCOUNT_DISABLED" then "Account deactivated"
      else if code == "ACCOUNT_LOCKED" then "Account locked"
      else if code == "USER_NOT_FOUND" then "User not found"
      else "Unauthenticated";
    LeadingCharNotBlank(r);
    r
  }

  /**
   * `commence`: a 401 JSON response whose code is the request's
   * `auth_error_code` attribute unless that is blank, in which case it is
   * mapped from the exception; whose message is the `auth_error_message`
   * attribute unless blank, else the message of the code chosen; and whose
   * path is the request URI.
   */
  function Commence(req: HandlerRequest, ex: AuthenticationException, mdcTraceId: Option<string>,
                    now: Millis): (resp: ErrorResponse)
    ensures resp.status == SC_UNAUTHORIZED && resp.body.status == SC_UNAUTHORIZED
    ensures resp.contentType == APPLICATION_JSON && resp.body.error == "UNAUTHORIZED"
    ensures !NullOrBlank(Attribute(req, ATTR_CODE)) ==> resp.body.code == req.attributes[ATTR_CODE]
    ensures NullOrBlank(Attribute(req, ATTR_CODE)) ==> resp.body.code == MapCode(ex)
    ensures !NullOrBlank(Attribute(req, ATTR_MESSAGE)) ==> resp.body.message == req.attributes[ATTR_MESSAGE]
    ensures NullOrBlank(Attribute(req, ATTR_MESSAGE)) ==> resp.body.message == MapMessage(resp.body.code)
    ensures !IsBlank(resp.body.code) && !IsBlank(resp.body.message)
    ensures resp.body.path == req.requestUri && resp.body.timestamp == now && resp.body.details.None?
    ensures resp.body.traceId == ResolveTraceId(mdcTraceId, req.requestId)
  {
    var attrCode := Attribute(req, ATTR_CODE);
    var attrMessage := Attribute(req, ATTR_MESSAGE);
    var code := if NullOrBlank(attrCode) then MapCode(ex) else attrCode.value;
    var message := if NullOrBlank(attrMessage) then MapMessage(code) else attrMessage.value;
    var body := ApiError(now, SC_UNAUTHORIZED, "UNAUTHORIZED", code, message, req.requestUri,
                         ResolveTraceId(mdcTraceId, req.requestId), None);
    ErrorResponse(SC_UNAUTHORIZED, APPLICATION_JSON, body)
  }

  /**
   * Without attributes set by a filter, a bad-credentials failure raised by
   * a login reaches the client under the code its message carries, with the
   * matching message; a locked account is reported as such.
   */
  lemma LoginFailuresReported(uri: string, requestId: Option<string>, mdcTraceId: Option<string>, now: Millis)
    ensures var resp := Commence(HandlerRequest(uri, requestId, map[]),
                                 BadCredentialsException(Some("INVALID_CREDENTIALS")), mdcTraceId, now);
            resp.body.code == "INVALID_CREDENTIALS" && resp.body.message == "Token invalide"
    ensures var resp := Commence(HandlerRequest(uri, requestId, map[]),
                                 BadCredentialsException(Some("ACCOUNT_LOCKED")), mdcTraceId, now);
            resp.body.code == "ACCOUNT_LOCKED" && resp.body.message == "Account locked"
  {
    LeadingCharNotBlank("INVALID_CREDENTIALS");
    LeadingCharNotBlank("ACCOUNT_LOCKED");
  }
}
