/**
 * The sign-up form of the web client (`RegisterComponent`): its field
 * validators and the two custom ones, the password-strength check and the
 * password/confirmation match. Angular's length and pattern validators pass
 * an empty value and leave it to `required`.
 */
module RegisterForm {
  import opened Common
  import opened Text
  import opened LoginRequests

  /** The errors a control can report. */
  datatype ControlError = Required | MinLength | MaxLength | Pattern | WeakPassword

  const ALL_ERRORS: set<ControlError> := {Required, MinLength, MaxLength, Pattern, WeakPassword}

  /** The form's values (a control's value may be null). */
  datatype RegisterValue = RegisterValue(
    username: Option<string>,
    email: Option<string>,
    password: Option<string>,
    confirmPassword: Option<string>)

  /** Angular's empty input: null or the empty text. */
  predicate EmptyInput(v: Option<string>) {
    v.None? || v.value == []
  }

  predicate HasUpper(s: string) { exists i :: 0 <= i < |s| && IsUpper(s[i]) }
  predicate HasLower(s: string) { exists i :: 0 <= i < |s| && IsLower(s[i]) }
  predicate HasDigit(s: string) { exists i :: 0 <= i < |s| && IsDigit(s[i]) }
  predicate HasSpecial(s: string) { exists i :: 0 <= i < |s| && IsSpecial(s[i]) }

  /**
   * `passwordStrengthValidator`: no error for an empty value; otherwise
   * `weakPassword` unless the value has an upper-case letter, a lower-case
   * letter, a digit and one of `@$!%*?&`. Other characters are not checked.
   */
  predicate WeakPasswordError(v: Option<string>) {
    !EmptyInput(v) && !(HasUpper(v.value) && HasLower(v.value) && HasDigit(v.value) && HasSpecial(v.value))
  }

  /** `passwordMatchValidator`: `passwordMismatch` unless both values are the same. */
  predicate PasswordMismatch(form: RegisterValue) {
    form.password != form.confirmPassword
  }

  /** A character of `[a-zA-Z0-9_-]`. */
  predicate UsernameChar(c: char) {
    IsLower(c) || IsUpper(c) || IsDigit(c) || c == '_' || c == '-'
  }

  /** Whether the username control reports `e`: required, 3 to 50 characters, `^[a-zA-Z0-9_-]+$`. */
  predicate UsernameFails(v: Option<string>, e: ControlError) {
    match e
    case Required => EmptyInput(v)
    case MinLength => !EmptyInput(v) && |v.value| < 3
    case MaxLength => v.Some? && |v.value| > 50
    case Pattern => !EmptyInput(v) && exists i :: 0 <= i < |v.value| && !UsernameChar(v.value[i])
    case WeakPassword => false
  }

  /** Whether the password control reports `e`: required, 8 to 128 characters, strength. */
  predicate PasswordFails(v: Option<string>, e: ControlError) {
    match e
    case Required => EmptyInput(v)
    case MinLength => !EmptyInput(v) && |v.value| < 8
    case MaxLength => v.Some? && |v.value| > 128
    case Pattern => false
    case WeakPassword => WeakPasswordError(v)
  }

  function UsernameErrors(v: Option<string>): (r: set<ControlError>)
    ensures forall e :: e in r <==> UsernameFails(v, e)
  {
    set e | e in ALL_ERRORS && UsernameFails(v, e)
  }

  function PasswordErrors(v: Option<string>): (r: set<ControlError>)
    ensures forall e :: e in r <==> PasswordFails(v, e)
  {
    set e | e in ALL_ERRORS && PasswordFails(v, e)
  }

  /** The whole form is valid: every control and the group validator pass.
      (The e-mail control's checks are not part of this model.) */
  predicate FormValid(form: RegisterValue) {
    && UsernameErrors(form.username) == {}
    && PasswordErrors(form.password) == {}
    && !EmptyInput(form.confirmPassword)
    && !PasswordMismatch(form)
  }

  /** A form that passes every validator has a confirmation equal to a
      password of 8 to 128 characters that passes the strength check. */
  lemma ValidFormPassword(form: RegisterValue)
    requires FormValid(form)
    ensures form.confirmPassword == form.password && form.password.Some?
    ensures 8 <= |form.password.value| <= 128
    ensures HasUpper(form.password.value) && HasLower(form.password.value)
    ensures HasDigit(form.password.value) && HasSpecial(form.password.value)
  {
    assert !PasswordFails(form.password, Required) && !PasswordFails(form.password, MinLength);
    assert !PasswordFails(form.password, MaxLength) && !PasswordFails(form.password, WeakPassword);
  }

  /** Every password the server-side pattern accepts passes the strength check. */
  lemma PatternImpliesStrength(s: string)
    requires MatchesPasswordPattern(s)
    ensures !WeakPasswordError(Some(s))
  {
  }

  /**
   * The strength check is weaker than the server-side pattern: it accepts
   * characters outside the pattern's class, here a space, so the form lets
   * through a password the login constraints refuse.
   */
  lemma StrengthAcceptsWhatPatternRefuses()
    ensures PasswordErrors(Some("Abcdef1! ")) == {}
    ensures !MatchesPasswordPattern("Abcdef1! ")
  {
    var p := "Abcdef1! ";
    assert IsUpper(p[0]) && IsLower(p[1]) && IsDigit(p[6]) && IsSpecial(p[7]);
    assert !PasswordChar(p[8]);
    assert forall e :: !PasswordFails(Some(p), e);
  }

  /**
   * A username the form accepts also meets the login constraints on the
   * username: it is not blank, and 3 to 50 characters lie within 3 to 100.
   */
  lemma FormUsernameMeetsLoginConstraints(u: string)
    requires UsernameErrors(Some(u)) == {}
    ensures NotBlank(Some(u)) && SizeWithin(Some(u), 3, 100)
  {
    assert !UsernameFails(Some(u), Required) && !UsernameFails(Some(u), MinLength);
    assert !UsernameFails(Some(u), MaxLength) && !UsernameFails(Some(u), Pattern);
    assert !Trimmable(u[0]);
  }
}
