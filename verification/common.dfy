/**
 * Shared vocabulary of the authentication core: optional values (Java's
 * nullable references), results (Java's thrown exceptions), the clock unit
 * and the machine-readable error codes the services raise.
 */
module Common {

  /** A Java reference that may be null. */
  datatype Option<+T> = None | Some(value: T)

  /** What an operation that may throw produces: a value, or what it threw. */
  datatype Result<+T> = Ok(value: T) | Err(error: Error)

  /**
   * Instants and durations, in milliseconds. `LocalDateTime.now()` and
   * `System.currentTimeMillis()` both become an explicit `now` of this type.
   */
  type Millis = int

  const SECOND_MS: int := 1000
  const DAY_MS: int := 86_400_000

  /** The constants of the `ErrorCode` enumeration that the core raises. */
  datatype ErrorCode =
    | InvalidCredentials
    | AccountLocked
    | AccountDisabled
    | UserNotFound
    | TokenExpired
    | InvalidSignature
    | MalformedToken
    | UnsupportedToken
    | InvalidToken
    | InvalidSubject
    | RefreshTokenInvalid
    | RefreshTokenRevoked
    | RefreshTokenExpired
  {
    /** `ErrorCode.name()`: the code as it travels in a response body. */
    function Name(): string {
      match this
      case InvalidCredentials => "INVALID_CREDENTIALS"
      case AccountLocked => "ACCOUNT_LOCKED"
      case AccountDisabled => "ACCOUNT_DISABLED"
      case UserNotFound => "USER_NOT_FOUND"
      case TokenExpired => "TOKEN_EXPIRED"
      case InvalidSignature => "INVALID_SIGNATURE"
      case MalformedToken => "MALFORMED_TOKEN"
      case UnsupportedToken => "UNSUPPORTED_TOKEN"
      case InvalidToken => "INVALID_TOKEN"
      case InvalidSubject => "INVALID_SUBJECT"
      case RefreshTokenInvalid => "REFRESH_TOKEN_INVALID"
      case RefreshTokenRevoked => "REFRESH_TOKEN_REVOKED"
      case RefreshTokenExpired => "REFRESH_TOKEN_EXPIRED"
    }
  }

  /** The exceptions the core throws, by the class the callers tell apart. */
  datatype Error =
      /** An `AppException` (`InvalidTokenException`, `TokenExpiredException`, ...). */
    | App(code: ErrorCode, message: string)
      /** Spring's `BadCredentialsException`, whose message carries the code. */
    | BadCredentials(message: string)
      /** Spring's `LockedException`. */
    | Locked(message: string)
      /** Spring's `DisabledException`. */
    | Disabled(message: string)
      /** Spring's `UsernameNotFoundException`. */
    | UsernameNotFound(message: string)
      /** Any other unchecked exception (a null dereference, an index out of bounds). */
    | Unexpected
}
