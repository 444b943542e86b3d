/**
 * `JsonAccessDeniedHandler`: the 403 response for an authenticated request
 * that lacks a permission. The code, message and details are chosen from
 * the request path and the exception message, in a fixed order of checks.
 */
module AccessDenied {
  import opened Common
  import opened Text
  import opened AuthenticationEntryPoint

  const SC_FORBIDDEN: int := 403

  /** The codes a 403 body can carry. */
  datatype DeniedCode =
    | AdminAccessRequired
    | InsufficientRole
    | NotResourceOwner
    | PremiumRequired
    | EmailNotVerified
    | Forbidden
  {
    /** The code as it travels in the response body. */
    function Name(): string {
      match this
      case AdminAccessRequired => "ADMIN_ACCESS_REQUIRED"
      case InsufficientRole => "INSUFFICIENT_ROLE"
      case NotResourceOwner => "NOT_RESOURCE_OWNER"
      case PremiumRequired => "PREMIUM_REQUIRED"
      case EmailNotVerified => "EMAIL_NOT_VERIFIED"
      case Forbidden => "FORBIDDEN"
    }
  }

  /** `ErrorInfo`: the code, the message and the details map of the body. */
  datatype ErrorInfo = ErrorInfo(code: DeniedCode, message: string, details: map<string, string>)

  const KNOWN_ROLES: seq<string> := ["ROLE_ADMIN", "ROLE_MODERATOR", "ROLE_PREMIUM"]

  /**
   * `extractRole`: the first of ROLE_ADMIN, ROLE_MODERATOR, ROLE_PREMIUM the
   * message mentions, in that order, else ROLE_UNKNOWN.
   */
  function ExtractRole(message: string): (r: string)
    ensures r in KNOWN_ROLES || r == "ROLE_UNKNOWN"
    ensures r in KNOWN_ROLES ==> Contains(message, r)
    ensures r == "ROLE_UNKNOWN" <==> forall k :: 0 <= k < |KNOWN_ROLES| ==> !Contains(message, KNOWN_ROLES[k])
    ensures r == "ROLE_ADMIN" <==> Contains(message, "ROLE_ADMIN")
    ensures r == "ROLE_MODERATOR" <==> !Contains(message, "ROLE_ADMIN") && Contains(message, "ROLE_MODERATOR")
    ensures r == "ROLE_PREMIUM" <==>
      !Contains(message, "ROLE_ADMIN") && !Contains(message, "ROLE_MODERATOR") && Contains(message, "ROLE_PREMIUM")
  {
    if Contains(message, "ROLE_ADMIN") then "ROLE_ADMIN"
    else if Contains(message, "ROLE_MODERATOR") then "ROLE_MODERATOR"
    else if Contains(message, "ROLE_PREMIUM") then "ROLE_PREMIUM"
    else "ROLE_UNKNOWN"
  }

  /** The message, lower-cased, mentions `word` (false for a null message). */
  predicate Mentions(exMessage: Option<string>, word: string) {
    exMessage.Some? && Contains(ToLower(exMessage.value), word)
  }

  predicate AdminPath(path: string) {
    StartsWith(path, "/api/admin")
  }

  /** The exception message names a role (case-sensitive). */
  predicate NamesRole(exMessage: Option<string>) {
    exMessage.Some? && Contains(exMessage.value, "ROLE_")
  }

  predicate OwnerRule(exMessage: Option<string>) {
    Mentions(exMessage, "owner")
  }

  predicate PremiumRule(exMessage: Option<string>) {
    Mentions(exMessage, "premium") || Mentions(exMessage, "subscription")
  }

  predicate EmailRule(exMessage: Option<string>) {
    Mentions(exMessage, "email not verified")
  }

  /**
   * `mapErrorInfo`. The admin path wins over any message; then a message
   * naming a role; then, case-insensitively, ownership, premium or
   * subscription, an unverified e-mail; FORBIDDEN otherwise, in particular
   * for a null message outside the admin paths. Every answer carries a
   * suggestion.
   */
  function MapErrorInfo(exMessage: Option<string>, path: string): (r: ErrorInfo)
    ensures "suggestion" in r.details
    ensures AdminPath(path) ==> r.code == AdminAccessRequired && "requiredRole" in r.details && r.details["requiredRole"] == "ROLE_ADMIN"
    ensures r.code == InsufficientRole <==> !AdminPath(path) && NamesRole(exMessage)
    ensures r.code == InsufficientRole ==>
      "requiredRole" in r.details && r.details["requiredRole"] == ExtractRole(exMessage.value)
    ensures r.code == NotResourceOwner <==> !AdminPath(path) && !NamesRole(exMessage) && OwnerRule(exMessage)
    ensures r.code == PremiumRequired <==>
      !AdminPath(path) && !NamesRole(exMessage) && !OwnerRule(exMessage) && PremiumRule(exMessage)
    ensures r.code == EmailNotVerified <==>
      !AdminPath(path) && !NamesRole(exMessage) && !OwnerRule(exMessage) && !PremiumRule(exMessage)
      && EmailRule(exMessage)
    ensures r.code == Forbidden <==>
      !AdminPath(path) && !NamesRole(exMessage) && !OwnerRule(exMessage) && !PremiumRule(exMessage)
      && !EmailRule(exMessage)
    ensures exMessage.None? && !AdminPath(path) ==> r.code == Forbidden
  {
    if AdminPath(path) then
      ErrorInfo(AdminAccessRequired, "Administrator access required",
                map["requiredRole" := "ROLE_ADMIN", "suggestion" := "This feature is reserved for administrators"])
    else if NamesRole(exMessage) then
      ErrorInfo(InsufficientRole, "Insufficient role for this action",
                map["requiredRole" := ExtractRole(exMessage.value),
                    "suggestion" := "Contact an administrator to obtain permissions"])
    else if OwnerRule(exMessage) then
      ErrorInfo(NotResourceOwner, "You do not own this resource",
                map["suggestion" := "You can only modify your own resources"])
    else if PremiumRule(exMessage) then
      ErrorInfo(PremiumRequired, "Premium subscription required",
                map["suggestion" := "Upgrade to the premium version to access this feature",
                    "upgradeUrl" := "/api/subscription/upgrade"])
    else if EmailRule(exMessage) then
      ErrorInfo(EmailNotVerified, "Email not verified",
                map["suggestion" := "Please check your email before accessing this feature",
                    "resendUrl" := "/api/auth/resend-verification"])
    else
      ErrorInfo(Forbidden, "Access denied", map["suggestion" := "You do not have the necessary permissions"])
  }

  /**
   * `handle`: a 403 JSON response with the mapped code, message and
   * details, the request URI as path and the same trace id rule as the
   * entry point.
   */
  function Handle(req: HandlerRequest, exMessage: Option<string>, mdcTraceId: Option<string>, now: Millis)
    : (resp: ErrorResponse)
    ensures resp.status == SC_FORBIDDEN && resp.body.status == SC_FORBIDDEN
    ensures resp.contentType == APPLICATION_JSON && resp.body.error == "FORBIDDEN"
    ensures var info := MapErrorInfo(exMessage, req.requestUri);
      resp.body.code == info.code.Name() && resp.body.message == info.message && resp.body.details == Some(info.details)
    ensures resp.body.path == req.requestUri && resp.body.timestamp == now
    ensures resp.body.traceId == ResolveTraceId(mdcTraceId, req.requestId)
  {
    var info := MapErrorInfo(exMessage, req.requestUri);
    ErrorResponse(SC_FORBIDDEN, APPLICATION_JSON,
                  ApiError(now, SC_FORBIDDEN, "FORBIDDEN", info.code.Name(), info.message, req.requestUri,
                           ResolveTraceId(mdcTraceId, req.requestId), Some(info.details)))
  }

  /**
   * The role check is case-sensitive while the later checks are not: a
   * message naming a role in capitals is answered as a role problem even
   * when it also speaks of ownership.
   */
  lemma RoleBeforeOwnership(path: string)
    requires !AdminPath(path)
    ensures MapErrorInfo(Some("owner needs ROLE_ADMIN"), path).code == InsufficientRole
    ensures "requiredRole" in MapErrorInfo(Some("owner needs ROLE_ADMIN"), path).details
    ensures MapErrorInfo(Some("owner needs ROLE_ADMIN"), path).details["requiredRole"] == "ROLE_ADMIN"
  {
    var m := "owner needs ROLE_ADMIN";
    assert m[12..][..5] == "ROLE_";
    assert m[12..][..10] == "ROLE_ADMIN";
    assert Contains(m[12..], "ROLE_") && Contains(m[12..], "ROLE_ADMIN");
    ContainsSuffix(m, 12, "ROLE_");
    ContainsSuffix(m, 12, "ROLE_ADMIN");
  }

  /** A text contains whatever one of its suffixes contains. */
  lemma {:induction false} ContainsSuffix(s: string, k: nat, sub: string)
    requires k <= |s| && Contains(s[k..], sub)
    ensures Contains(s, sub)
    decreases k
  {
    if k > 0 {
      assert s[1..][k - 1..] == s[k..];
      ContainsSuffix(s[1..], k - 1, sub);
    }
  }
}
