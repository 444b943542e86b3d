# JWT authenticator: refresh sessions and authentication decisions in Dafny

This project is a Dafny model of the authentication core of a Spring Boot
back end and its Angular sign-up form. The model covers these parts:

- **Refresh-session engine** (`RefreshTokenService`, the `RefreshToken`
  entity and `RefreshTokenRepository`). A session is addressed by the
  SHA-256 digest of an opaque secret `uuid + "." + uuid`. The engine issues,
  validates, rotates and revokes sessions. It caps the number of active
  sessions per user and sweeps sessions that expired more than seven days
  ago.
- **Access tokens** (`JwtService`). These are HS256-signed JWTs with a
  `roles` claim. They are checked for their signature, their expiry and
  their subject.
- **`AuthService`**: login, refresh, logout and logout-everywhere.
- **Users** (`CustomUserDetailsService` and the `User` entity).
- **Per-request filter** (`JwtAuthenticationFilter`). It reads the bearer
  token, authenticates the request or records an error code on it.
- **Error responses**: the JSON 401 of `JsonAuthenticationEntryPoint` and
  the JSON 403 of `JsonAccessDeniedHandler`.
- **Refresh cookie** (`RefreshCookieFactory`).
- **Constraints on input**: the `LoginRequest` bean-validation constraints
  and the validators of the Angular registration form.

**Conventions.**
- The clock is read once per operation and becomes a parameter `now`, in
  milliseconds. The one exception is `validateTokenStrict`, whose
  `new Date()` is a second reading `checkedAt`, separate from the parser's.
- The random UUIDs become parameters.
- Exceptions become `Result` values.
- Rows of the `refresh_tokens` table are `TokenRecord` values, held in a
  `RefreshTokenRepository` object whose `rows` field the methods reassign.
- Entities the Java code changes in place (`RefreshToken`, `User`) are
  classes.
- The per-request state the filter writes is the class `Exchange`.
- A `@Transactional` method that throws leaves the table as it found it.

## Model

Paths are relative to the repository root; the Java files live under
`src/main/java/com/example/jwt_authenticator/`, abbreviated below to the
directory inside that package.

| member | source | states |
|---|---|---|
| RefreshTokenEntity.RefreshToken.Build | src/main/java/com/example/jwt_authenticator/entity/RefreshToken.java:9-60 | the builder sets every field as given and leaves the identity empty |
| RefreshTokenEntity.RefreshToken.MarkAsUsed | src/main/java/com/example/jwt_authenticator/entity/RefreshToken.java:70-72 | `lastUsedAt` becomes the clock; every other column of the row is unchanged |
| RefreshTokenEntity.RefreshToken.Revoke | src/main/java/com/example/jwt_authenticator/entity/RefreshToken.java:74-76 | the entity is revoked; every other column of the row is unchanged |
| RefreshTokenEntity.RefreshToken.OnCreate | src/main/java/com/example/jwt_authenticator/entity/RefreshToken.java:78-82 | `createdAt` is filled only when missing, then `lastUsedAt` defaults to it only when missing; both are set afterwards |
| RefreshTokenEntity.RefreshToken.Load | src/main/java/com/example/jwt_authenticator/entity/RefreshToken.java:21-60 | the entity loaded from a stored row has an identity and both timestamps, and is written back as that very row |
| RefreshTokenEntity.RefreshToken.IsExpired | src/main/java/com/example/jwt_authenticator/entity/RefreshToken.java:62-64 | agrees with the stored row; once expired, expired at every later instant |
| RefreshTokenEntity.RefreshToken.IsValid | src/main/java/com/example/jwt_authenticator/entity/RefreshToken.java:66-68 | agrees with the stored row: not revoked and not expired |
| RefreshTokenStore.FindByTokenHash | src/main/java/com/example/jwt_authenticator/repository/RefreshTokenRepository.java:15 | returns a stored row with that digest; returns nothing exactly when no row carries it |
| RefreshTokenStore.FindByTokenHashUnique | src/main/java/com/example/jwt_authenticator/entity/RefreshToken.java:28-30 | under the unique constraint on `token_hash`, the lookup by a row's digest returns that very row |
| RefreshTokenStore.FindValidTokensByUserId | src/main/java/com/example/jwt_authenticator/repository/RefreshTokenRepository.java:17-19 | lists exactly the user's rows that are not revoked and have `expiresAt > now` |
| RefreshTokenStore.ValidTokensConcat | src/main/java/com/example/jwt_authenticator/repository/RefreshTokenRepository.java:17-19 | the listing keeps table order: over a table in two parts it is the first part's listing followed by the second's |
| RefreshTokenStore.ValidTokensMultiplicity | src/main/java/com/example/jwt_authenticator/repository/RefreshTokenRepository.java:17-19 | each active row appears as often as the table holds it, every other row not at all |
| RefreshTokenStore.ValidTokensUniqueIds | src/main/java/com/example/jwt_authenticator/repository/RefreshTokenRepository.java:17-19 | over a table with unique identities, no session is listed twice |
| RefreshTokenStore.CountActiveSessions | src/main/java/com/example/jwt_authenticator/repository/RefreshTokenRepository.java:21-23 | the count equals the length of the list `findValidTokensByUserId` returns |
| RefreshTokenStore.KeepUnexpired | src/main/java/com/example/jwt_authenticator/repository/RefreshTokenRepository.java:29-31 | exactly the rows with `expiresAt` not before the threshold remain |
| RefreshTokenStore.KeepUnexpiredKeepsTable | src/main/java/com/example/jwt_authenticator/repository/RefreshTokenRepository.java:29-31 | deleting rows keeps identities and digests unique |
| RefreshTokenStore.RefreshTokenRepository.Save | src/main/java/com/example/jwt_authenticator/repository/RefreshTokenRepository.java:13 | a new entity runs `onCreate`, gets the next identity and is appended; an entity with an identity is merged into its row; the table stays valid |
| RefreshTokenStore.RefreshTokenRepository.RevokeAllByUserId | src/main/java/com/example/jwt_authenticator/repository/RefreshTokenRepository.java:25-27 | every row of the user is revoked; the count reported is the number of matched rows |
| RefreshTokenStore.RefreshTokenRepository.RevokeAllByUserIdAndType | src/main/java/com/example/jwt_authenticator/repository/RefreshTokenRepository.java:33-35 | every row of that user and type is revoked; the count reported is the number of matched rows |
| RefreshTokenStore.RefreshTokenRepository.DeleteExpiredTokens | src/main/java/com/example/jwt_authenticator/repository/RefreshTokenRepository.java:29-31 | rows expiring strictly before the threshold are removed; the count reported is how many were removed |
| RefreshTokenStore.RevokeAllByUserIdEffect | src/main/java/com/example/jwt_authenticator/repository/RefreshTokenRepository.java:25-27 | the user's rows are revoked, expired ones included; other users' rows are untouched |
| RefreshTokenStore.RevokeAllByUserIdAndTypeEffect | src/main/java/com/example/jwt_authenticator/repository/RefreshTokenRepository.java:33-35 | only rows matching both the user and the type are revoked |
| RefreshTokenSessions.ExtractIp | src/main/java/com/example/jwt_authenticator/service/RefreshTokenService.java:155-161 | `X-Forwarded-For`, then `X-Real-IP`, then the remote address; a header with a comma gives its first comma-separated field, trimmed; a header without one is taken whole; a header of commas only fails |
| RefreshTokenSessions.ExtractUserAgent | src/main/java/com/example/jwt_authenticator/service/RefreshTokenService.java:163-167 | absent without a request or header; otherwise the whole header when it has at most 500 characters, and exactly its first 500 characters when it is longer |
| RefreshTokenSessions.ExtractDeviceName | src/main/java/com/example/jwt_authenticator/service/RefreshTokenService.java:169-179 | always one of the seven labels; "Unknown" exactly without an agent; otherwise each label exactly when its word is the first of iPhone/iPad, Android, Windows, Macintosh, Linux the agent names, and "Unknown Device" exactly when it names none |
| RefreshTokenSessions.OldestIndex | src/main/java/com/example/jwt_authenticator/service/RefreshTokenService.java:136-138 | picks a session created no later than any other, and the first one listed among ties |
| RefreshTokenSessions.ValidateOutcome | src/main/java/com/example/jwt_authenticator/service/RefreshTokenService.java:74-92 | every refusal is an application error carrying the generic refresh message; REFRESH_TOKEN_INVALID exactly when the secret is null, blank or not stored |
| RefreshTokenSessions.ValidateCodes | src/main/java/com/example/jwt_authenticator/service/RefreshTokenService.java:74-92 | under the unique digest constraint, one condition per refusal code: INVALID iff the secret is null, blank or unstored; REVOKED iff its stored row is revoked; EXPIRED iff its stored row is not revoked but expired |
| RefreshTokenSessions.RefreshTokenService.EnforceMaxSessions | src/main/java/com/example/jwt_authenticator/service/RefreshTokenService.java:132-143 | below the cap the table is unchanged; at or over it the oldest active session is revoked; rows keep identity, digest and revocation |
| RefreshTokenSessions.RefreshTokenService.Issue | src/main/java/com/example/jwt_authenticator/service/RefreshTokenService.java:44-72 | fails, with the table rolled back, exactly when the address fails or the digest is taken; on success the eviction result plus the new row; the session count after issuing; the new secret validates |
| RefreshTokenSessions.RefreshTokenService.StoreSession | src/main/java/com/example/jwt_authenticator/service/RefreshTokenService.java:51-71 | appends the row for the new secret (type, expiry, address, agent, device); the secret validates when its expiry is not in the past |
| RefreshTokenSessions.RefreshTokenService.Validate | src/main/java/com/example/jwt_authenticator/service/RefreshTokenService.java:74-92 | answers as `ValidateOutcome`; on success stores `lastUsedAt`, otherwise changes nothing |
| RefreshTokenSessions.ValidateAcceptsValid | src/main/java/com/example/jwt_authenticator/service/RefreshTokenService.java:74-92 | `validate` accepts a secret exactly when it is present, not blank, stored, and its entity `isValid`; the session comes back stamped as used |
| RefreshTokenSessions.RefreshTokenService.Rotate | src/main/java/com/example/jwt_authenticator/service/RefreshTokenService.java:94-107 | a validation error is passed on with the table unchanged; after a validation it fails (with the table unchanged) exactly when rotation is on and issuing the successor fails; without rotation the same secret and expiry come back and only `lastUsedAt` is stored; with it the result is the new secret, its expiry, type and user, the new table is the old one with the validated row revoked, one session evicted and the new row appended, the old secret is refused as revoked and the new one validates |
| RefreshTokenSessions.RefreshTokenService.ReplaceSession | src/main/java/com/example/jwt_authenticator/service/RefreshTokenService.java:102-106 | revokes the validated session, then issues its successor for the same user and type |
| RefreshTokenSessions.RefreshTokenService.RevokeValidated | src/main/java/com/example/jwt_authenticator/service/RefreshTokenService.java:102-103 | exactly the validated session's row becomes revoked |
| RefreshTokenSessions.RefreshTokenService.Revoke | src/main/java/com/example/jwt_authenticator/service/RefreshTokenService.java:109-117 | the session of the secret is revoked if there is one; nothing changes otherwise |
| RefreshTokenSessions.RevokeEffect | src/main/java/com/example/jwt_authenticator/service/RefreshTokenService.java:109-117 | the table keeps its length; a null, blank or unknown secret leaves it as it is; otherwise each row is unchanged or is the secret's session revoked |
| RefreshTokenSessions.RefreshTokenService.RevokeAll | src/main/java/com/example/jwt_authenticator/service/RefreshTokenService.java:119-122 | every row of the user is revoked |
| RefreshTokenSessions.RefreshTokenService.CleanupExpiredTokens | src/main/java/com/example/jwt_authenticator/service/RefreshTokenService.java:124-130 | deletes the rows that expired more than seven days before the clock |
| RefreshTokenSessions.EvictionCount | src/main/java/com/example/jwt_authenticator/service/RefreshTokenService.java:132-143 | the active count drops by exactly one at or over the cap and is unchanged below it; the revoked row is active and oldest |
| RefreshTokenSessions.SessionsAfterIssue | src/main/java/com/example/jwt_authenticator/service/RefreshTokenService.java:44-72 | after issuing, the count is the count after eviction plus one when the new session expires after the clock |
| RefreshTokenSessions.IssuedSessionValidates | src/main/java/com/example/jwt_authenticator/service/RefreshTokenService.java:57-71 | a session just stored validates by its secret until it expires |
| RefreshTokenSessions.RevokedIsRejected | src/main/java/com/example/jwt_authenticator/service/RefreshTokenService.java:83-85 | once revoked, a secret is refused as REFRESH_TOKEN_REVOKED however the table evolves |
| RefreshTokenSessions.RevokeRejects | src/main/java/com/example/jwt_authenticator/service/RefreshTokenService.java:109-117 | revoking a stored secret revokes exactly its row; the secret is then refused; revoking again changes nothing |
| RefreshTokenSessions.RevokeUnknown | src/main/java/com/example/jwt_authenticator/service/RefreshTokenService.java:111-113 | a missing, blank or unknown secret leaves the table unchanged |
| RefreshTokenSessions.RevokeAllEndsSessions | src/main/java/com/example/jwt_authenticator/service/RefreshTokenService.java:119-122 | after revoking all, the user has no active session at any instant |
| RefreshTokenSessions.ExpiryBoundary | src/main/java/com/example/jwt_authenticator/entity/RefreshToken.java:62-64 | a session expiring exactly at the clock validates, yet is neither counted nor listed as active |
| RefreshTokenSessions.SweepKeepsRecentlyExpired | src/main/java/com/example/jwt_authenticator/service/RefreshTokenService.java:124-130 | a session expired less than seven days ago survives the sweep and is refused as REFRESH_TOKEN_EXPIRED |
| RefreshTokenSessions.SecretNotBlank | src/main/java/com/example/jwt_authenticator/service/RefreshTokenService.java:51 | the secret `uuid + "." + uuid` is never blank |
| UserEntity.DetailsOf | src/main/java/com/example/jwt_authenticator/service/CustomUserDetailsService.java:25-32 | the principal carries the user's id, name, hash, flags and role |
| UserEntity.User.constructor | src/main/java/com/example/jwt_authenticator/entity/User.java:40-44 | `new User()` is active and not locked |
| UserEntity.User.Build | src/main/java/com/example/jwt_authenticator/entity/User.java:21-44 | the builder sets fields as given; a flag not set is false |
| UserEntity.User.OnCreate | src/main/java/com/example/jwt_authenticator/entity/User.java:53-58 | both timestamps take the clock |
| UserEntity.User.OnUpdate | src/main/java/com/example/jwt_authenticator/entity/User.java:60-63 | only `updatedAt` moves |
| UserEntity.User.MarkLoggedIn | src/main/java/com/example/jwt_authenticator/entity/User.java:65-67 | only `lastLoginAt` moves |
| UserEntity.User.Record | src/main/java/com/example/jwt_authenticator/entity/User.java:69-71 | the stored row is usable exactly when the entity is active and not locked |
| UserEntity.User.IsAccountUsable | src/main/java/com/example/jwt_authenticator/entity/User.java:69-71 | what the entity answers is what the services' usability check says of its stored row |
| UserDetailsLookup.FindByUsername | src/main/java/com/example/jwt_authenticator/service/CustomUserDetailsService.java:19-20 | returns a user with that name; returns nothing exactly when there is none or the name is null |
| UserDetailsLookup.FindById | src/main/java/com/example/jwt_authenticator/service/AuthService.java:47-48 | returns a user with that identity; returns nothing exactly when there is none |
| UserDetailsLookup.LoadUserByUsername | src/main/java/com/example/jwt_authenticator/service/CustomUserDetailsService.java:18-33 | an unknown name gives USER_NOT_FOUND; locked is checked before disabled; succeeds exactly for a usable user, with that user's principal |
| UserDetailsLookup.FindByUsernameUnique | src/main/java/com/example/jwt_authenticator/service/CustomUserDetailsService.java:19-20 | with unique usernames, the lookup finds the one user |
| JwtTokens.ParseSignedClaims | src/main/java/com/example/jwt_authenticator/service/JwtService.java:138-144 | parses exactly a JWS with the right key that is not expired (`now <= exp`); another key fails on the signature first |
| JwtTokens.MapFailure | src/main/java/com/example/jwt_authenticator/service/JwtService.java:112-136 | each parse failure maps to its own code; TOKEN_EXPIRED exactly for an expired token |
| JwtTokens.JavaDiv | src/main/java/com/example/jwt_authenticator/service/JwtService.java:58-59 | Java `long` division: floor for non-negative values, never positive for negative ones |
| JwtTokens.BuilderClaims | src/main/java/com/example/jwt_authenticator/service/JwtService.java:99-110 | the caller's claims minus null values and minus `sub`, `iat` and `exp` |
| JwtTokens.JwtService.ExtractClaim | src/main/java/com/example/jwt_authenticator/service/JwtService.java:112-136 | succeeds exactly when the token parses, with the resolver's value; otherwise a token failure code |
| JwtTokens.JwtService.ExtractUsername | src/main/java/com/example/jwt_authenticator/service/JwtService.java:38-40 | the subject of a token that parses (possibly absent); otherwise the error mapped from the parse failure |
| JwtTokens.JwtService.ExtractExpiration | src/main/java/com/example/jwt_authenticator/service/JwtService.java:51-53 | the expiry of a token that parses (possibly absent); otherwise the error mapped from the parse failure |
| JwtTokens.JwtService.ExtractUsernameSafe | src/main/java/com/example/jwt_authenticator/service/JwtService.java:42-49 | present exactly when the token parses and has a subject |
| JwtTokens.JwtService.GetTimeUntilExpirationSeconds | src/main/java/com/example/jwt_authenticator/service/JwtService.java:55-63 | never negative; zero on any failure; otherwise the whole seconds left |
| JwtTokens.JwtService.ValidateTokenStrict | src/main/java/com/example/jwt_authenticator/service/JwtService.java:65-77 | true exactly when the token parses at the parser's instant, names the principal and has an expiry no earlier than the `new Date()` reading; a parse failure is thrown as mapped; another subject gives INVALID_SUBJECT; an expiry before the `new Date()` reading gives TOKEN_EXPIRED |
| JwtTokens.JwtService.ValidateTokenSoft | src/main/java/com/example/jwt_authenticator/service/JwtService.java:79-85 | true exactly when the strict check succeeds |
| JwtTokens.JwtService.CreateToken | src/main/java/com/example/jwt_authenticator/service/JwtService.java:99-110 | signed with the service key; subject set; `iat` is the clock; `exp` is one lifetime later |
| JwtTokens.JwtService.GenerateToken | src/main/java/com/example/jwt_authenticator/service/JwtService.java:87-91 | the subject is the username; the only custom claim is `roles` |
| JwtTokens.JwtService.GenerateTokenWith | src/main/java/com/example/jwt_authenticator/service/JwtService.java:93-97 | `roles` is added unless already set to a non-null value; the other extra claims are kept |
| JwtTokens.GeneratedTokenRoundTrip | src/main/java/com/example/jwt_authenticator/service/JwtService.java:87-110 | a generated token yields its username and validates strictly until its expiry |
| JwtTokens.ForgedTokenRefused | src/main/java/com/example/jwt_authenticator/service/JwtService.java:138-144 | a token signed with another key gives INVALID_SIGNATURE, expired or not |
| JwtTokens.StrictExpiryCheck | src/main/java/com/example/jwt_authenticator/service/JwtService.java:65-77 | the strict check's own expiry rejection fires on a token the parser accepted exactly when the expiry lies from the parser's instant up to, not including, the `new Date()` reading; with one reading TOKEN_EXPIRED comes exactly from the parser |
| JwtTokens.ExpiryAtParseInstant | src/main/java/com/example/jwt_authenticator/service/JwtService.java:71-74 | a token expiring at the parser's instant passes the parser and is refused as expired by a later `new Date()` |
| LoginRequests.IsRememberMe | src/main/java/com/example/jwt_authenticator/dto/LoginRequest.java:23-25 | true exactly when the flag is present and true |
| LoginRequests.Violations | src/main/java/com/example/jwt_authenticator/dto/LoginRequest.java:9-19 | lists exactly the violated constraints |
| LoginRequests.ValidRequestShape | src/main/java/com/example/jwt_authenticator/dto/LoginRequest.java:9-19 | a valid request has a 3–100 character username and an 8–100 character password from the allowed class |
| Authentication.AssertAccountOk | src/main/java/com/example/jwt_authenticator/service/AuthService.java:72-75 | passes exactly a usable account; locked is reported before disabled |
| Authentication.CheckCredentials | src/main/java/com/example/jwt_authenticator/service/AuthService.java:27-33 | an unknown user and a wrong password are refused alike as INVALID_CREDENTIALS; then the account check |
| Authentication.AuthService.AccessTokenFor | src/main/java/com/example/jwt_authenticator/service/AuthService.java:77-87 | a token signed with the key, for the username, expiring one lifetime on |
| Authentication.AuthService.Login | src/main/java/com/example/jwt_authenticator/service/AuthService.java:26-42 | a credential failure is passed on; a null remember-me flag fails; with the credentials accepted and the flag set, the login fails (with the unexpected error) exactly when the client address cannot be extracted or the new secret's digest is already stored after eviction; sessions are unchanged on failure; on success the new table is the evicted table plus one row with the next identity, the new secret's digest, the matching type, the expiry returned as `refreshExpiresAt`, `createdAt = now`, and the request's address, agent and device, and that session validates; the access token validates and `expiresIn` is the lifetime in seconds |
| Authentication.AuthService.Refresh | src/main/java/com/example/jwt_authenticator/service/AuthService.java:44-57 | a validation failure is passed on with sessions unchanged; after a validation: a failed rotation gives the unexpected error, then a missing owner USER_NOT_FOUND, then a locked owner ACCOUNT_LOCKED and an inactive one ACCOUNT_DISABLED, else success; with rotation on, a refused owner's secret is already revoked; on success the tokens, the username and the refresh expiry (the new session's, or the old one's without rotation) are stated; after any validation the new table is stated: the stamped session merged without rotation, the old table on a refused rotation, and otherwise the old session revoked, eviction, and the successor appended, even when the owner is then refused |
| Authentication.AuthService.Logout | src/main/java/com/example/jwt_authenticator/service/AuthService.java:59-61 | a stored secret is found revoked afterwards; an absent, blank or unknown one changes nothing |
| Authentication.AuthService.LogoutAll | src/main/java/com/example/jwt_authenticator/service/AuthService.java:63-66 | fails exactly when validation does, with the table unchanged; otherwise every session of the owner is revoked and none stays active |
| JwtAuthentication.ShouldNotFilter | src/main/java/com/example/jwt_authenticator/security/JwtAuthenticationFilter.java:42-48 | a path is skipped exactly when it starts with one of `/api/auth/`, `/swagger-ui`, `/v3/api-docs` |
| JwtAuthentication.PublicRoutes | src/main/java/com/example/jwt_authenticator/security/JwtAuthenticationFilter.java:42-48 | every path under `/api/auth/`, `/swagger-ui` or `/v3/api-docs` is skipped, whatever follows the prefix; `/api/auth` and `/api/authority` are filtered |
| JwtAuthentication.ResolveBearerToken | src/main/java/com/example/jwt_authenticator/security/JwtAuthenticationFilter.java:112-118 | present exactly when the header starts with "Bearer " and a non-empty trimmed rest remains; that rest is the token |
| JwtAuthentication.BearerRoundTrip | src/main/java/com/example/jwt_authenticator/security/JwtAuthenticationFilter.java:112-118 | "Bearer " plus a trimmed token reads back as the token |
| JwtAuthentication.ResolvedTokenStable | src/main/java/com/example/jwt_authenticator/security/JwtAuthenticationFilter.java:112-118 | a resolved token, sent again, reads back as itself |
| JwtAuthentication.RefusalOf | src/main/java/com/example/jwt_authenticator/security/JwtAuthenticationFilter.java:86-109 | a token exception keeps its code and message; any other failure becomes INVALID_TOKEN |
| JwtAuthentication.Verify | src/main/java/com/example/jwt_authenticator/security/JwtAuthenticationFilter.java:69-84 | a decoded token is never passed on; an authenticated principal is the one loaded by the token's subject, and the token passes the strict check for it |
| JwtAuthentication.Decide | src/main/java/com/example/jwt_authenticator/security/JwtAuthenticationFilter.java:57-67 | passes on exactly when already authenticated or without a bearer token; otherwise the verification of the token |
| JwtAuthentication.VerifyCharacterised | src/main/java/com/example/jwt_authenticator/security/JwtAuthenticationFilter.java:69-84 | authenticates exactly a parsed token whose subject is a usable user and which has an expiry; a refusal always carries a token failure code |
| JwtAuthentication.RefusalCodes | src/main/java/com/example/jwt_authenticator/security/JwtAuthenticationFilter.java:86-109 | an expired token gives TOKEN_EXPIRED; an unknown or unusable subject gives INVALID_TOKEN |
| JwtAuthentication.IssuedTokenAuthenticates | src/main/java/com/example/jwt_authenticator/security/JwtAuthenticationFilter.java:69-84 | an issued token authenticates its usable user until expiry and is refused as expired after it |
| JwtAuthentication.JwtAuthenticationFilter.DoFilterInternal | src/main/java/com/example/jwt_authenticator/security/JwtAuthenticationFilter.java:50-110 | the exchange ends as the decision for the request prescribes |
| JwtAuthentication.Apply | src/main/java/com/example/jwt_authenticator/security/JwtAuthenticationFilter.java:76-108 | pass on and authenticate run the chain; a refusal records the code and message and writes a 401 carrying them |
| JwtAuthentication.RefusalResponse | src/main/java/com/example/jwt_authenticator/security/JwtAuthenticationFilter.java:120-123 | the entry point answers with the recorded code and message |
| AuthenticationEntryPoint.ResolveTraceId | src/main/java/com/example/jwt_authenticator/security/JsonAuthenticationEntryPoint.java:48-51 | the logging context's trace id unless blank, else the request id header |
| AuthenticationEntryPoint.MapCode | src/main/java/com/example/jwt_authenticator/security/JsonAuthenticationEntryPoint.java:68-77 | never blank; a disabled account gives ACCOUNT_DISABLED, a locked one ACCOUNT_LOCKED and a missing user USER_NOT_FOUND; bad credentials carry their message as the code, else INVALID_CREDENTIALS; other exceptions give UNAUTHORIZED |
| AuthenticationEntryPoint.MapMessage | src/main/java/com/example/jwt_authenticator/security/JsonAuthenticationEntryPoint.java:79-89 | "Token invalide" exactly for the generic token codes; "Expired token" exactly for TOKEN_EXPIRED; "Account deactivated", "Account locked" and "User not found" exactly for ACCOUNT_DISABLED, ACCOUNT_LOCKED and USER_NOT_FOUND; "Unauthenticated" exactly for unknown codes |
| AuthenticationEntryPoint.Commence | src/main/java/com/example/jwt_authenticator/security/JsonAuthenticationEntryPoint.java:33-66 | a 401; the request's attributes win over the mapped code and message; code and message are never blank |
| AuthenticationEntryPoint.LoginFailuresReported | src/main/java/com/example/jwt_authenticator/security/JsonAuthenticationEntryPoint.java:68-89 | a login refusal reaches the client as INVALID_CREDENTIALS / "Token invalide", a lock as ACCOUNT_LOCKED / "Account locked" |
| AccessDenied.ExtractRole | src/main/java/com/example/jwt_authenticator/security/JsonAccessDeniedHandler.java:125-130 | the first known role mentioned, in the order ADMIN, MODERATOR, PREMIUM; ROLE_UNKNOWN exactly when none is |
| AccessDenied.MapErrorInfo | src/main/java/com/example/jwt_authenticator/security/JsonAccessDeniedHandler.java:55-123 | each code holds exactly when its check is the first to match, in source order; there is always a suggestion |
| AccessDenied.Handle | src/main/java/com/example/jwt_authenticator/security/JsonAccessDeniedHandler.java:27-53 | a 403 with the mapped code, message and details |
| AccessDenied.RoleBeforeOwnership | src/main/java/com/example/jwt_authenticator/security/JsonAccessDeniedHandler.java:70-90 | a message naming a role and ownership is answered as a role problem |
| RefreshCookies.Create | src/main/java/com/example/jwt_authenticator/security/RefreshCookieFactory.java:34-44 | HTTP-only; configured attributes; the max age is the whole seconds left, never negative |
| RefreshCookies.Delete | src/main/java/com/example/jwt_authenticator/security/RefreshCookieFactory.java:46-54 | an empty value with max age zero and the same attributes |
| RefreshCookies.ReadFrom | src/main/java/com/example/jwt_authenticator/security/RefreshCookieFactory.java:56-64 | nothing without cookies; otherwise the first cookie of the name |
| RefreshCookies.FirstNamed | src/main/java/com/example/jwt_authenticator/security/RefreshCookieFactory.java:59-63 | the value of the first cookie with the name; nothing exactly when none has it |
| RefreshCookies.CreateThenRead | src/main/java/com/example/jwt_authenticator/security/RefreshCookieFactory.java:34-64 | the secret set by `create` is read back |
| RefreshCookies.DeletedCookieIsInert | src/main/java/com/example/jwt_authenticator/security/RefreshCookieFactory.java:46-54 | a deleted cookie reads back empty: refresh refuses it, logout ignores it |
| RegisterForm.UsernameErrors | frontend/src/app/feature/register/register.component.ts:26-31 | exactly the failing username validators |
| RegisterForm.PasswordErrors | frontend/src/app/feature/register/register.component.ts:37-42 | exactly the failing password validators |
| RegisterForm.ValidFormPassword | frontend/src/app/feature/register/register.component.ts:64-69 | a valid form has the confirmation equal to a strong password of 8–128 characters |
| RegisterForm.PatternImpliesStrength | frontend/src/app/feature/register/register.component.ts:47-62 | every password the back-end pattern accepts passes the strength check |
| RegisterForm.StrengthAcceptsWhatPatternRefuses | frontend/src/app/feature/register/register.component.ts:47-62 | "Abcdef1! " passes the form but not the back-end pattern |
| RegisterForm.FormUsernameMeetsLoginConstraints | frontend/src/app/feature/register/register.component.ts:26-31 | a username the form accepts meets the login constraints |

## Left out

- SHA-256 and HMAC-SHA256 are symbolic: a digest is equal exactly when its input is, and a token records the key it was signed with. The 64-character hex form and the key derivation are not modelled.
- The JWT wire format (base64url, JSON) is the `decode` parameter of the filter. The `nbf` claim and other library checks are not modelled. jjwt keeps `iat`/`exp` in whole seconds; the model keeps milliseconds.
- The clock is the parameter `now`, read once per operation; `LocalDateTime` time zones are not modelled. The calls to `LocalDateTime.now()` inside one Java method (for example in `enforceMaxSessions` and `issue`) are taken to read the same instant.
- `UUID.randomUUID()` is the pair of parameters `uuid1`, `uuid2`. A digest collision is reported as the unique-constraint failure.
- Column widths (`ip_address` 45, `device_name` 100, etc.), database concurrency and isolation, the `@Scheduled` timing of the sweep, and logging are not modelled.
- JSON serialisation of the error bodies, the `Set-Cookie` header text and `WebAuthenticationDetailsSource` are not modelled.
- JwtAuthentication.JwtAuthenticationFilter.DoFilterInternal: an exception thrown by the rest of the chain inside the `try` block (caught as INVALID_TOKEN) is not modelled; the chain is recorded only as invoked.
- `Validators.email`, the e-mail control's limits and the form's submission and UI code are not modelled.
- `AuthService.toResponse`, the `AuthController` endpoints and the `AuthResponse`/`ApiError` DTO classes beyond their fields are not modelled.
- `ErrorCode.java`, `Role`, `CustomUserDetails` (its authorities are the `authoritiesOf` parameter), `UserRepository` and `PasswordEncoder` (the `passwordMatches` parameter) are not part of this model.
- `JwtService.toRoleNames` is folded into `authoritiesOf`.
- JwtTokens.JwtService.ValidateTokenStrict: its two parses read the clock at the same instant `now`. A token that expires between the two parses is refused by the second parse rather than by the `new Date()` check; the code and message are the same TOKEN_EXPIRED and "Expired token".
- JwtAuthentication.Verify: the filter's parse and the strict check's parses and `new Date()` are all taken at the request's `now`, so within the filter the strict check's own expiry rejection does not occur (`JwtTokens.StrictExpiryCheck` shows when it does). `Authentication.AuthService.Login` likewise validates its fresh access token at `now`.
- Text lengths count Dafny characters (Unicode scalar values). Java's `String.length()`/`substring` and JavaScript's `.length` count UTF-16 code units, so a text with characters outside the Basic Multilingual Plane is measured differently: the 500-character cut of the `User-Agent` (`service/RefreshTokenService.java:163-167`), `@Size` on the login fields (`dto/LoginRequest.java:10,14`) and the form's length validators (`register.component.ts:28-29,39-40`).
- `Text.IsWhitespace` / `Text.IsBlank`: `Character.isWhitespace`, behind every `isBlank()` guard, is modelled on ASCII only. Java also counts the Unicode space separators U+1680, U+2000-U+2006, U+2008-U+200A, U+205F and U+3000, and U+2028 and U+2029, as whitespace. So a header, secret or trace id made only of those characters is blank in Java and falls through to the next source, while the model keeps it.
- `Text.ToLower` folds ASCII letters only. Java's `toLowerCase()` in `security/JsonAccessDeniedHandler.java:82,93,105` follows Unicode and the default locale (for example the Turkish dotted I), which the model does not.
- RefreshTokenSessions.OldestIndex: among active sessions with the same `createdAt`, it picks the first in table (insertion) order. `findValidTokensByUserId` (`repository/RefreshTokenRepository.java:17-19`) has no ORDER BY, so in the source the tie is broken by whatever order the database returns.

## Behaviours worth noting

- **Two expiry boundaries.** The entity treats a session as expired only when `now > expiresAt`, so it still validates when the two are equal. The repository queries select `expiresAt > now`, so the same session is not counted or listed as active (`RefreshTokenSessions.ExpiryBoundary`). The sweep deletes only rows expired for more than seven days; until then such a secret is answered REFRESH_TOKEN_EXPIRED (`RefreshTokenSessions.SweepKeepsRecentlyExpired`).
- **Single eviction.** `enforceMaxSessions` revokes one session even when the user is already over the cap, so a user over the cap stays over it (`RefreshTokenSessions.EvictionCount`, `RefreshTokenSessions.SessionsAfterIssue`).
- **Refresh consumes a refused user's secret.** `refresh` rotates first and checks the account afterwards, outside a rollback. A locked or disabled owner is refused, yet the presented secret is already revoked (`Authentication.AuthService.Refresh`).
- **A null `rememberMe`.** `login` unboxes the flag directly, which fails with a null dereference after the credentials were accepted (`Authentication.AuthService.Login`). `LoginRequest.isRememberMe` handles null, but `login` does not use it.
- **Built users are inactive.** The Lombok builder does not apply the field initialisers, so a user built without `active(true)` is inactive (`UserEntity.User.Build`).
- **An `X-Forwarded-For` of commas only** makes `extractIp` index an empty array and throw (`RefreshTokenSessions.ExtractIp`).
- **Login constraints are not enforced.** The login endpoint (`controller/AuthController.java:24`) does not annotate its body with `@Valid`, so the `LoginRequest` constraints are not applied there.
- **The strict expiry check fires only between clock readings.** The parser rejects a token whose expiry is before its own reading of the clock. So the `exp.before(new Date())` branch of `validateTokenStrict` can reject only a token that expires from the parser's instant up to the later `new Date()` reading, for example one expiring exactly when it is parsed (`JwtTokens.StrictExpiryCheck`, `JwtTokens.ExpiryAtParseInstant`). With both readings at the same instant the branch is unreachable.
- **The form is weaker than the back end.** The strength check accepts characters outside the back-end pattern's class (`RegisterForm.StrengthAcceptsWhatPatternRefuses`). It also allows passwords up to 128 characters, while the login constraint stops at 100.
- **Account problems are masked in the filter.** A token whose subject is unknown, locked or disabled is answered INVALID_TOKEN (`JwtAuthentication.RefusalCodes`).
- **The generic message for bad credentials** is "Token invalide" (`AuthenticationEntryPoint.LoginFailuresReported`).
