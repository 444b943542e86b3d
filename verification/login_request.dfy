/**
 * `LoginRequest`: the login body and its Jakarta Bean Validation
 * constraints, as a validator that lists the violated ones. `@Size` and
 * `@Pattern` accept a null value; `@NotBlank` refuses null and a value that
 * `String.trim` empties.
 */
module LoginRequests {
  import opened Common
  import opened Text

  datatype LoginRequest = LoginRequest(username: Option<string>, password: Option<string>, rememberMe: Option<bool>)

  /** `isRememberMe`: a null flag counts as false. */
  function IsRememberMe(req: LoginRequest): (b: bool)
    ensures b <==> req.rememberMe == Some(true)
  {
    req.rememberMe.Some? && req.rememberMe.value
  }

  /** The constraint each violation comes from. */
  datatype Violation =
    | UsernameRequired
    | UsernameSize
    | PasswordRequired
    | PasswordSize
    | PasswordPattern

  /** `@NotBlank`. */
  predicate NotBlank(s: Option<string>) {
    s.Some? && Trim(s.value) != []
  }

  /** `@Size(min, max)`. */
  predicate SizeWithin(s: Option<string>, min: int, max: int) {
    s.None? || min <= |s.value| <= max
  }

  predicate IsLower(c: char) { 'a' <= c <= 'z' }
  predicate IsUpper(c: char) { 'A' <= c <= 'Z' }
  /** `\d` without the Unicode flag: an ASCII digit. */
  predicate IsDigit(c: char) { '0' <= c <= '9' }
  predicate IsSpecial(c: char) { c in "@$!%*?&" }

  /** A character of the class `[A-Za-z\d@$!%*?&]`. */
  predicate PasswordChar(c: char) {
    IsLower(c) || IsUpper(c) || IsDigit(c) || IsSpecial(c)
  }

  /**
   * The password pattern `^(?=.*[a-z])(?=.*[A-Z])(?=.*\d)(?=.*[@$!%*?&])[A-Za-z\d@$!%*?&]{8,}$`
   * matched against the whole value: eight characters or more, all from the
   * class, with a lower-case letter, an upper-case letter, a digit and a
   * special character among them. (The class excludes line terminators, so
   * the `.*` of the look-aheads cannot stop short of one.)
   */
  predicate MatchesPasswordPattern(s: string) {
    && |s| >= 8
    && (forall i :: 0 <= i < |s| ==> PasswordChar(s[i]))
    && (exists i :: 0 <= i < |s| && IsLower(s[i]))
    && (exists i :: 0 <= i < |s| && IsUpper(s[i]))
    && (exists i :: 0 <= i < |s| && IsDigit(s[i]))
    && (exists i :: 0 <= i < |s| && IsSpecial(s[i]))
  }

  const ALL_VIOLATIONS: set<Violation> :=
    {UsernameRequired, UsernameSize, PasswordRequired, PasswordSize, PasswordPattern}

  /** Whether the request breaks the constraint `v`. */
  predicate Violated(req: LoginRequest, v: Violation) {
    match v
    case UsernameRequired => !NotBlank(req.username)
    case UsernameSize => !SizeWithin(req.username, 3, 100)
    case PasswordRequired => !NotBlank(req.password)
    case PasswordSize => !SizeWithin(req.password, 8, 100)
    case PasswordPattern => req.password.Some? && !MatchesPasswordPattern(req.password.value)
  }

  /** The violated constraints of a request (empty when it is valid). */
  function Violations(req: LoginRequest): (v: set<Violation>)
    ensures forall c :: c in v <==> Violated(req, c)
  {
    set c | c in ALL_VIOLATIONS && Violated(req, c)
  }

  /** A request that passes validation has a username of 3 to 100 characters
      and a password of 8 to 100 characters drawn from the pattern's class. */
  lemma ValidRequestShape(req: LoginRequest)
    requires Violations(req) == {}
    ensures req.username.Some? && 3 <= |req.username.value| <= 100
    ensures req.password.Some? && 8 <= |req.password.value| <= 100
    ensures forall i :: 0 <= i < |req.password.value| ==> PasswordChar(req.password.value[i])
  {
    assert !Violated(req, UsernameRequired) && !Violated(req, UsernameSize);
    assert !Violated(req, PasswordRequired) && !Violated(req, PasswordSize);
    assert !Violated(req, PasswordPattern);
  }
}
