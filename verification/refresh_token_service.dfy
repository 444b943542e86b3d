/**
 * `RefreshTokenService`: the refresh-session engine. It issues opaque
 * secrets and stores only their SHA-256 digest, validates a presented
 * secret, rotates it, revokes one or all sessions of a user, caps the
 * number of active sessions per user and sweeps long-expired rows.
 *
 * Every operation reads the clock once, as the parameter `now`; the two
 * random UUIDs a new secret is made of are parameters as well. A failed
 * `@Transactional` operation leaves the table as it found it.
 */
module RefreshTokenSessions {
  import opened Common
  import opened Text
  import opened RefreshTokenEntity
  import opened RefreshTokenStore

  /** The `app.security.refresh.*` settings. */
  datatype SessionConfig = SessionConfig(
    refreshDays: int,
    rememberDays: int,
    rotate: bool,
    maxActiveSessions: int)

  /** The settings when none is configured: 30 and 90 days, rotation on, five sessions. */
  const DEFAULT_CONFIG: SessionConfig := SessionConfig(30, 90, true, 5)

  /** Sessions whose expiry is older than this many days are swept. */
  const CLEANUP_GRACE_DAYS: int := 7

  /** Longest `User-Agent` kept with a session. */
  const MAX_USER_AGENT: int := 500

  /** The message of every refresh-token failure; only the code tells them apart. */
  const INVALID_REFRESH: string := "Invalid refresh token"

  /** The parts of the HTTP request the service reads (the whole request may be null). */
  datatype ClientRequest = ClientRequest(
    forwardedFor: Option<string>,
    realIp: Option<string>,
    remoteAddr: Option<string>,
    userAgent: Option<string>)

  /** `Issued`: the raw secret handed to the client once, with its session's facts. */
  datatype Issued = Issued(rawToken: string, expiresAt: Millis, tokenType: TokenType, userId: int)

  function TypeFor(rememberMe: bool): TokenType {
    if rememberMe then RememberMe else Refresh
  }

  function DaysFor(config: SessionConfig, rememberMe: bool): int {
    if rememberMe then config.rememberDays else config.refreshDays
  }

  // ----- Request metadata -----

  /** The header `extractIp` settles on: `X-Forwarded-For`, else `X-Real-IP`,
      else the socket's remote address (a blank header counts as absent). */
  function ChosenIp(req: ClientRequest): Option<string> {
    if !NullOrBlank(req.forwardedFor) then req.forwardedFor
    else if !NullOrBlank(req.realIp) then req.realIp
    else req.remoteAddr
  }

  /** The first comma-separated field: the longest prefix without a comma. */
  function FirstField(s: string): (r: string)
    ensures |r| <= |s| && r == s[..|r|]
    ensures ',' !in r
    ensures |r| < |s| ==> s[|r|] == ','
  {
    if s == [] || s[0] == ',' then [] else [s[0]] + FirstField(s[1..])
  }

  /** `split(",")` drops trailing empty fields, so a text of commas only
      splits into nothing and indexing its first field throws. */
  predicate OnlyCommas(s: string) {
    ',' in s && forall i :: 0 <= i < |s| ==> s[i] == ','
  }

  /**
   * `extractIp`: no address without a request; otherwise the chosen header,
   * cut at its first comma and trimmed when it holds one. The only failure
   * is a header made of commas alone.
   */
  function ExtractIp(req: Option<ClientRequest>): (r: Result<Option<string>>)
    ensures req.None? ==> r == Ok(None)
    ensures r.Err? <==> req.Some? && ChosenIp(req.value).Some? && OnlyCommas(ChosenIp(req.value).value)
    ensures r.Err? ==> r.error == Unexpected
    ensures r.Ok? && r.value.Some? ==> ',' !in r.value.value
    ensures r.Ok? && req.Some? && ChosenIp(req.value).Some? && ',' !in ChosenIp(req.value).value
            ==> r.value == ChosenIp(req.value)
    ensures r.Ok? && req.Some? && ChosenIp(req.value).Some? && ',' in ChosenIp(req.value).value
            ==> r.value == Some(Trim(FirstField(ChosenIp(req.value).value)))
  {
    if req.None? then Ok(None)
    else
      var ip := ChosenIp(req.value);
      if ip.Some? && ',' in ip.value then
        if OnlyCommas(ip.value) then Err(Unexpected)
        else TrimKeepsCharacters(FirstField(ip.value)); Ok(Some(Trim(FirstField(ip.value))))
      else Ok(ip)
  }

  /** `extractUserAgent`: the header, cut to its first 500 characters. */
  function ExtractUserAgent(req: Option<ClientRequest>): (r: Option<string>)
    ensures r.None? <==> req.None? || req.value.userAgent.None?
    ensures r.Some? ==> |r.value| <= MAX_USER_AGENT && r.value <= req.value.userAgent.value
    ensures r.Some? && |req.value.userAgent.value| <= MAX_USER_AGENT ==> r == req.value.userAgent
    ensures r.Some? && |req.value.userAgent.value| > MAX_USER_AGENT ==>
      r.value == req.value.userAgent.value[..MAX_USER_AGENT]
  {
    if req.None? || req.value.userAgent.None? then None
    else
      var ua := req.value.userAgent.value;
      if |ua| > MAX_USER_AGENT then Some(ua[..MAX_USER_AGENT]) else Some(ua)
  }

  /** The labels `extractDeviceName` can produce. */
  predicate DeviceLabel(s: string) {
    s in {"Unknown", "iOS Device", "Android Device", "Windows PC", "Mac", "Linux PC", "Unknown Device"}
  }

  /** The request has a `User-Agent` header that mentions `word`. */
  predicate AgentMentions(req: Option<ClientRequest>, word: string) {
    req.Some? && req.value.userAgent.Some? && Contains(req.value.userAgent.value, word)
  }

  /**
   * `extractDeviceName`: a coarse label from the `User-Agent`, tried in the
   * order iPhone/iPad, Android, Windows, Macintosh, Linux, so that an
   * Android agent (which also names Linux) is labelled Android.
   */
  function ExtractDeviceName(req: Option<ClientRequest>): (r: string)
    ensures DeviceLabel(r)
    ensures r == "Unknown" <==> req.None? || req.value.userAgent.None?
    ensures r == "iOS Device" <==> AgentMentions(req, "iPhone") || AgentMentions(req, "iPad")
    ensures r == "Android Device" <==>
      !AgentMentions(req, "iPhone") && !AgentMentions(req, "iPad") && AgentMentions(req, "Android")
    ensures r == "Windows PC" <==>
      !AgentMentions(req, "iPhone") && !AgentMentions(req, "iPad") && !AgentMentions(req, "Android")
      && AgentMentions(req, "Windows")
    ensures r == "Mac" <==>
      !AgentMentions(req, "iPhone") && !AgentMentions(req, "iPad") && !AgentMentions(req, "Android")
      && !AgentMentions(req, "Windows") && AgentMentions(req, "Macintosh")
    ensures r == "Linux PC" <==>
      !AgentMentions(req, "iPhone") && !AgentMentions(req, "iPad") && !AgentMentions(req, "Android")
      && !AgentMentions(req, "Windows") && !AgentMentions(req, "Macintosh") && AgentMentions(req, "Linux")
    ensures r == "Unknown Device" <==>
      && req.Some? && req.value.userAgent.Some?
      && !AgentMentions(req, "iPhone") && !AgentMentions(req, "iPad") && !AgentMentions(req, "Android")
      && !AgentMentions(req, "Windows") && !AgentMentions(req, "Macintosh") && !AgentMentions(req, "Linux")
  {
    if req.None? || req.value.userAgent.None? then "Unknown"
    else
      var ua := req.value.userAgent.value;
      if Contains(ua, "iPhone") || Contains(ua, "iPad") then "iOS Device"
      else if Contains(ua, "Android") then "Android Device"
      else if Contains(ua, "Windows") then "Windows PC"
      else if Contains(ua, "Macintosh") then "Mac"
      else if Contains(ua, "Linux") then "Linux PC"
      else "Unknown Device"
  }

  // ----- The session cap -----

  /**
   * `stream().min(by createdAt)`: the position of the oldest session; among
   * sessions created at the same instant the first one listed wins.
   */
  function OldestIndex(tokens: seq<TokenRecord>): (k: nat)
    requires tokens != []
    ensures k < |tokens|
    ensures forall i :: 0 <= i < |tokens| ==> tokens[k].createdAt <= tokens[i].createdAt
    ensures forall i :: 0 <= i < k ==> tokens[i].createdAt > tokens[k].createdAt
    decreases |tokens|
  {
    if |tokens| == 1 then 0
    else
      var k := OldestIndex(tokens[..|tokens| - 1]);
      if tokens[k].createdAt <= tokens[|tokens| - 1].createdAt then k else |tokens| - 1
  }

  /** The table after `enforceMaxSessions`: when the user is at or over the
      cap, the oldest active session is revoked, and only that one. */
  function AfterEviction(rows: seq<TokenRecord>, userId: int, now: Millis, maxActive: int): seq<TokenRecord> {
    if CountActiveSessions(rows, userId, now) < maxActive then rows
    else
      var tokens := FindValidTokensByUserId(rows, userId, now);
      if tokens == [] then rows
      else Merge(rows, tokens[OldestIndex(tokens)].(revoked := true))
  }

  /** The row `issue` stores for a secret it hands out. */
  function SessionRow(id: int, issued: Issued, now: Millis, ip: Option<string>, req: Option<ClientRequest>): TokenRecord {
    TokenRecord(id, Sha256(issued.rawToken), issued.userId, issued.tokenType, now, now,
                issued.expiresAt, false, ip, ExtractUserAgent(req), Some(ExtractDeviceName(req)))
  }

  /**
   * When `rotate` fails after a successful validation of `t`: only with
   * rotation on, and then exactly when issuing the successor fails, over the
   * table in which `t` has been revoked.
   */
  predicate RotationRefused(rows: seq<TokenRecord>, t: TokenRecord, config: SessionConfig,
                            req: Option<ClientRequest>, uuid1: string, uuid2: string, now: Millis)
  {
    && config.rotate
    && (|| ExtractIp(req).Err?
        || !HashFree(AfterEviction(Merge(rows, t.(revoked := true)), t.userId, now, config.maxActiveSessions),
                     Sha256(uuid1 + "." + uuid2)))
  }

  // ----- Validation and revocation -----

  /**
   * What `validate` answers for a presented secret: a missing, blank or
   * unknown secret is invalid, then a revoked session is reported as
   * revoked, then an expired one as expired; otherwise the session, now
   * marked as used.
   */
  function ValidateOutcome(rows: seq<TokenRecord>, raw: Option<string>, now: Millis): (r: Result<TokenRecord>)
    ensures r.Err? ==> r.error.App? && r.error.message == INVALID_REFRESH
    ensures r == Err(App(RefreshTokenInvalid, INVALID_REFRESH)) <==> NullOrBlank(raw) || HashFree(rows, Sha256(raw.value))
  {
    if NullOrBlank(raw) then Err(App(RefreshTokenInvalid, INVALID_REFRESH))
    else
      match FindByTokenHash(rows, Sha256(raw.value))
      case None => Err(App(RefreshTokenInvalid, INVALID_REFRESH))
      case Some(t) =>
        if t.revoked then Err(App(RefreshTokenRevoked, INVALID_REFRESH))
        else if Expired(t.expiresAt, now) then Err(App(RefreshTokenExpired, INVALID_REFRESH))
        else Ok(t.(lastUsedAt := now))
  }

  /** The table after `revoke(raw)`: the session of that secret revoked, if there is one. */
  function RevokeEffect(rows: seq<TokenRecord>, raw: Option<string>): (r: seq<TokenRecord>)
    ensures |r| == |rows|
    ensures NullOrBlank(raw) || HashFree(rows, Sha256(raw.value)) ==> r == rows
    ensures !NullOrBlank(raw) && !HashFree(rows, Sha256(raw.value)) ==>
      forall i :: 0 <= i < |rows| ==>
        r[i] == rows[i] || r[i] == FindByTokenHash(rows, Sha256(raw.value)).value.(revoked := true)
  {
    if NullOrBlank(raw) then rows
    else
      match FindByTokenHash(rows, Sha256(raw.value))
      case None => rows
      case Some(t) => Merge(rows, t.(revoked := true))
  }

  /** The service over one repository and one configuration. */
  class RefreshTokenService {
    const repo: RefreshTokenRepository
    const config: SessionConfig

    ghost predicate Valid()
      reads this, repo
    {
      repo.Valid()
    }

    constructor (repo: RefreshTokenRepository, config: SessionConfig)
      requires repo.Valid()
      ensures Valid() && this.repo == repo && this.config == config
    {
      this.repo := repo;
      this.config := config;
    }

    /** `enforceMaxSessions`: makes room for one more session by revoking the
        user's oldest active one, once. */
    method EnforceMaxSessions(userId: int, now: Millis)
      requires Valid()
      modifies repo
      ensures Valid() && repo.nextId == old(repo.nextId)
      ensures repo.rows == AfterEviction(old(repo.rows), userId, now, config.maxActiveSessions)
      ensures Evolves(old(repo.rows), repo.rows)
    {
      var active := CountActiveSessions(repo.rows, userId, now);
      if active < config.maxActiveSessions {
        return;
      }
      var tokens := FindValidTokensByUserId(repo.rows, userId, now);
      if tokens == [] {
        return;
      }
      var oldestRow := tokens[OldestIndex(tokens)];
      var oldest := new RefreshToken.Load(oldestRow);
      oldest.Revoke();
      StoredRowFound(repo.rows, oldestRow);
      MergeEvolves(repo.rows, oldestRow.(revoked := true));
      repo.Save(oldest, now);
    }

    /**
     * `issue`: enforces the cap, then stores a new session for the secret
     * `uuid1 + "." + uuid2` and returns that secret. Fails, leaving the table
     * as it was, when the client address cannot be extracted or the digest
     * is already stored (the unique constraint on `token_hash`).
     */
    method Issue(userId: int, rememberMe: bool, req: Option<ClientRequest>,
                 uuid1: string, uuid2: string, now: Millis) returns (r: Result<Issued>)
      requires Valid()
      modifies repo
      ensures Valid()
      ensures Evolves(old(repo.rows), repo.rows)
      ensures r.Err? <==> (ExtractIp(req).Err? ||
        !HashFree(AfterEviction(old(repo.rows), userId, now, config.maxActiveSessions), Sha256(uuid1 + "." + uuid2)))
      ensures r.Err? ==> r.error == Unexpected && repo.rows == old(repo.rows) && repo.nextId == old(repo.nextId)
      ensures r.Ok? ==>
        && r.value == Issued(uuid1 + "." + uuid2, now + DaysFor(config, rememberMe) * DAY_MS, TypeFor(rememberMe), userId)
        && repo.nextId == old(repo.nextId) + 1
        && repo.rows == AfterEviction(old(repo.rows), userId, now, config.maxActiveSessions)
                        + [SessionRow(old(repo.nextId), r.value, now, ExtractIp(req).value, req)]
      ensures r.Ok? ==>
        var c := CountActiveSessions(old(repo.rows), userId, now);
        CountActiveSessions(repo.rows, userId, now)
          == (if c >= config.maxActiveSessions && c > 0 then c - 1 else c)
           + (if DaysFor(config, rememberMe) > 0 then 1 else 0)
      ensures r.Ok? && DaysFor(config, rememberMe) >= 0 ==>
        ValidateOutcome(repo.rows, Some(r.value.rawToken), now) == Ok(repo.rows[|repo.rows| - 1])
    {
      var snapshot := repo.rows;
      EnforceMaxSessions(userId, now);
      var evicted := repo.rows;
      r := StoreSession(userId, rememberMe, req, uuid1, uuid2, now);
      if r.Err? {
        // the transaction rolls back, undoing the eviction
        repo.rows := snapshot;
        return;
      }
      EvolvesTrans(snapshot, evicted, repo.rows);
      var row := SessionRow(old(repo.nextId), r.value, now, ExtractIp(req).value, req);
      SessionsAfterIssue(snapshot, old(repo.nextId), userId, now, config.maxActiveSessions, row);
      LaterExpiry(now, DaysFor(config, rememberMe));
    }

    /** The second half of `issue`: builds the entity for the new secret and saves it. */
    method StoreSession(userId: int, rememberMe: bool, req: Option<ClientRequest>,
                        uuid1: string, uuid2: string, now: Millis) returns (r: Result<Issued>)
      requires Valid()
      modifies repo
      ensures Valid()
      ensures r.Err? <==> (ExtractIp(req).Err? || !HashFree(old(repo.rows), Sha256(uuid1 + "." + uuid2)))
      ensures r.Err? ==> r.error == Unexpected && repo.rows == old(repo.rows) && repo.nextId == old(repo.nextId)
      ensures r.Ok? ==>
        && r.value == Issued(uuid1 + "." + uuid2, now + DaysFor(config, rememberMe) * DAY_MS, TypeFor(rememberMe), userId)
        && repo.nextId == old(repo.nextId) + 1
        && repo.rows == old(repo.rows) + [SessionRow(old(repo.nextId), r.value, now, ExtractIp(req).value, req)]
      ensures Evolves(old(repo.rows), repo.rows)
      ensures r.Ok? && DaysFor(config, rememberMe) >= 0 ==>
        ValidateOutcome(repo.rows, Some(r.value.rawToken), now) == Ok(repo.rows[|repo.rows| - 1])
    {
      var raw := uuid1 + "." + uuid2;
      var hash := Sha256(raw);
      var tokenType := TypeFor(rememberMe);
      var exp := now + DaysFor(config, rememberMe) * DAY_MS;
      var ip := ExtractIp(req);
      if ip.Err? || !HashFree(repo.rows, hash) {
        return Err(Unexpected);
      }
      var entity := new RefreshToken.Build(hash, userId, tokenType, Some(now), Some(now), exp, false,
                                           ip.value, ExtractUserAgent(req), Some(ExtractDeviceName(req)));
      repo.Save(entity, now);
      r := Ok(Issued(raw, exp, tokenType, userId));
      if DaysFor(config, rememberMe) >= 0 {
        SecretNotBlank(uuid1, uuid2);
        LaterExpiry(now, DaysFor(config, rememberMe));
        IssuedSessionValidates(old(repo.rows), repo.rows[|repo.rows| - 1], raw, now);
      }
    }

    /** `validate`: the outcome `ValidateOutcome` describes; on success the
        session's `lastUsedAt` is stored. */
    method Validate(raw: Option<string>, now: Millis) returns (r: Result<TokenRecord>)
      requires Valid()
      modifies repo
      ensures Valid() && repo.nextId == old(repo.nextId)
      ensures r == ValidateOutcome(old(repo.rows), raw, now)
      ensures repo.rows == if r.Ok? then Merge(old(repo.rows), r.value) else old(repo.rows)
      ensures Evolves(old(repo.rows), repo.rows)
    {
      if raw.None? || IsBlank(raw.value) {
        return Err(App(RefreshTokenInvalid, INVALID_REFRESH));
      }
      var found := FindByTokenHash(repo.rows, Sha256(raw.value));
      if found.None? {
        return Err(App(RefreshTokenInvalid, INVALID_REFRESH));
      }
      var token := new RefreshToken.Load(found.value);
      if token.revoked {
        return Err(App(RefreshTokenRevoked, INVALID_REFRESH));
      }
      if token.IsExpired(now) {
        return Err(App(RefreshTokenExpired, INVALID_REFRESH));
      }
      token.MarkAsUsed(now);
      StoredRowFound(repo.rows, found.value);
      MergeEvolves(repo.rows, token.Record());
      repo.Save(token, now);
      r := Ok(token.Record());
    }

    /**
     * `rotate`: validates the secret; with rotation off hands the same
     * secret back, otherwise revokes its session and issues a new one of the
     * same type for the same user. Any failure leaves the table as it was.
     */
    method Rotate(raw: Option<string>, req: Option<ClientRequest>,
                  uuid1: string, uuid2: string, now: Millis) returns (r: Result<Issued>)
      requires Valid()
      modifies repo
      ensures Valid()
      ensures Evolves(old(repo.rows), repo.rows)
      ensures r.Err? ==> repo.rows == old(repo.rows)
      ensures r.Err? ==> r.error.App? || r.error == Unexpected
      ensures ValidateOutcome(old(repo.rows), raw, now).Err? ==> r == Err(ValidateOutcome(old(repo.rows), raw, now).error)
      ensures r.Ok? ==> ValidateOutcome(old(repo.rows), raw, now).Ok?
      ensures r.Ok? && !config.rotate ==>
        var t := ValidateOutcome(old(repo.rows), raw, now).value;
        && r.value == Issued(raw.value, t.expiresAt, t.tokenType, t.userId)
        && repo.rows == Merge(old(repo.rows), t)
      ensures ValidateOutcome(old(repo.rows), raw, now).Ok? ==>
        && (r.Err? <==> RotationRefused(old(repo.rows), ValidateOutcome(old(repo.rows), raw, now).value,
                                        config, req, uuid1, uuid2, now))
        && (r.Err? ==> r.error == Unexpected)
      ensures r.Ok? && config.rotate ==>
        var t := ValidateOutcome(old(repo.rows), raw, now).value;
        && r.value == Issued(uuid1 + "." + uuid2, now + DaysFor(config, t.tokenType == RememberMe) * DAY_MS,
                             t.tokenType, t.userId)
        && repo.rows == AfterEviction(Merge(old(repo.rows), t.(revoked := true)), t.userId, now, config.maxActiveSessions)
                        + [SessionRow(old(repo.nextId), r.value, now, ExtractIp(req).value, req)]
        && ValidateOutcome(repo.rows, raw, now) == Err(App(RefreshTokenRevoked, INVALID_REFRESH))
        && (DaysFor(config, t.tokenType == RememberMe) >= 0 ==>
              ValidateOutcome(repo.rows, Some(r.value.rawToken), now).Ok?)
    {
      var snapshot := repo.rows;
      var v := Validate(raw, now);
      if v.Err? {
        return Err(v.error);
      }
      var t := v.value;
      if !config.rotate {
        return Ok(Issued(raw.value, t.expiresAt, t.tokenType, t.userId));
      }
      r := ReplaceSession(snapshot, raw.value, t, req, uuid1, uuid2, now);
      if r.Err? {
        // the whole rotation rolls back, including the validation's update
        repo.rows := snapshot;
      }
    }

    /** The second half of `rotate`: revokes the validated session `t` and
        issues its successor (on failure the caller rolls the table back). */
    method ReplaceSession(ghost snapshot: seq<TokenRecord>, raw: string, t: TokenRecord,
                          req: Option<ClientRequest>, uuid1: string, uuid2: string, now: Millis)
      returns (r: Result<Issued>)
      requires Valid() && config.rotate
      requires ValidateOutcome(snapshot, Some(raw), now) == Ok(t)
      requires repo.rows == Merge(snapshot, t) && Evolves(snapshot, repo.rows)
      requires TableValid(snapshot, repo.nextId)
      modifies repo
      ensures Valid()
      ensures Evolves(snapshot, repo.rows)
      ensures r.Err? ==> r.error == Unexpected
      ensures r.Err? <==> RotationRefused(snapshot, t, config, req, uuid1, uuid2, now)
      ensures r.Ok? ==>
        && r.value == Issued(uuid1 + "." + uuid2, now + DaysFor(config, t.tokenType == RememberMe) * DAY_MS,
                             t.tokenType, t.userId)
        && repo.rows == AfterEviction(Merge(snapshot, t.(revoked := true)), t.userId, now, config.maxActiveSessions)
                        + [SessionRow(old(repo.nextId), r.value, now, ExtractIp(req).value, req)]
        && ValidateOutcome(repo.rows, Some(raw), now) == Err(App(RefreshTokenRevoked, INVALID_REFRESH))
        && (DaysFor(config, t.tokenType == RememberMe) >= 0 ==>
              ValidateOutcome(repo.rows, Some(r.value.rawToken), now).Ok?)
    {
      var k := ValidatedRow(snapshot, repo.nextId, Some(raw), now);
      RevokeValidated(snapshot, k, t, now);
      var revoked := repo.rows;
      r := Issue(t.userId, t.tokenType == RememberMe, req, uuid1, uuid2, now);
      if r.Err? {
        return;
      }
      EvolvesTrans(snapshot, revoked, repo.rows);
      RevokedIsRejected(revoked, repo.rows, k, raw, now);
    }

    /** Saves the validated session `t`, found at position `k` of the
        snapshot, as revoked. */
    method RevokeValidated(ghost snapshot: seq<TokenRecord>, ghost k: int, t: TokenRecord, now: Millis)
      requires Valid()
      requires TableValid(snapshot, repo.nextId) && 0 <= k < |snapshot|
      requires snapshot[k].id == t.id && snapshot[k].tokenHash == t.tokenHash
      requires repo.rows == Merge(snapshot, t) && Merge(snapshot, t) == snapshot[k := t]
      modifies repo
      ensures Valid() && repo.nextId == old(repo.nextId)
      ensures repo.rows == snapshot[k := t.(revoked := true)]
      ensures repo.rows == Merge(snapshot, t.(revoked := true))
      ensures Evolves(snapshot, repo.rows)
    {
      var validated := repo.rows;
      var previous := new RefreshToken.Load(t);
      previous.Revoke();
      assert validated[k] == t;
      StoredRowFound(validated, t);
      MergeEvolves(validated, t.(revoked := true));
      repo.Save(previous, now);
      MergeAt(validated, k, t.(revoked := true));
      MergeTwice(snapshot, t, t.(revoked := true));
    }

    /** `revoke`: revokes the session of the secret, if there is one; a
        missing or blank secret, or an unknown one, changes nothing. */
    method Revoke(raw: Option<string>)
      requires Valid()
      modifies repo
      ensures Valid() && repo.nextId == old(repo.nextId)
      ensures repo.rows == RevokeEffect(old(repo.rows), raw)
      ensures Evolves(old(repo.rows), repo.rows)
    {
      if raw.None? || IsBlank(raw.value) {
        return;
      }
      var found := FindByTokenHash(repo.rows, Sha256(raw.value));
      if found.Some? {
        var t := new RefreshToken.Load(found.value);
        t.Revoke();
        StoredRowFound(repo.rows, found.value);
        MergeEvolves(repo.rows, found.value.(revoked := true));
        // `revoke` reads no clock: `save` reads its instant only on an insert,
        // and this entity is already stored, so any instant will do here
        repo.Save(t, 0);
      }
    }

    /** `revokeAll`: revokes every session of the user. */
    method RevokeAll(userId: int)
      requires Valid()
      modifies repo
      ensures Valid() && repo.nextId == old(repo.nextId)
      ensures repo.rows == RevokeSelected(old(repo.rows), userId, None)
      ensures Evolves(old(repo.rows), repo.rows)
    {
      var _ := repo.RevokeAllByUserId(userId);
    }

    /** `cleanupExpiredTokens`: deletes the sessions that expired more than
        seven days before `now`. */
    method CleanupExpiredTokens(now: Millis)
      requires Valid()
      modifies repo
      ensures Valid() && repo.nextId == old(repo.nextId)
      ensures repo.rows == KeepUnexpired(old(repo.rows), now - CLEANUP_GRACE_DAYS * DAY_MS)
    {
      var _ := repo.DeleteExpiredTokens(now - CLEANUP_GRACE_DAYS * DAY_MS);
    }
  }

  // ----- Lemmas -----

  /**
   * The cap at work: below it nothing changes; at or over it exactly one
   * active session of the user is revoked, one created no later than any
   * other active one, so the count drops by one and no further.
   */
  lemma EvictionCount(rows: seq<TokenRecord>, nextId: int, userId: int, now: Millis, maxActive: int)
    requires TableValid(rows, nextId)
    ensures var c := CountActiveSessions(rows, userId, now);
      CountActiveSessions(AfterEviction(rows, userId, now, maxActive), userId, now)
        == if c >= maxActive && c > 0 then c - 1 else c
    ensures var c := CountActiveSessions(rows, userId, now);
      c < maxActive || c == 0 ==> AfterEviction(rows, userId, now, maxActive) == rows
    ensures var c := CountActiveSessions(rows, userId, now);
      c >= maxActive && c > 0 ==>
        exists k :: 0 <= k < |rows| && ActiveFor(rows[k], userId, now)
          && AfterEviction(rows, userId, now, maxActive) == rows[k := rows[k].(revoked := true)]
          && (forall j :: 0 <= j < |rows| && ActiveFor(rows[j], userId, now) ==> rows[k].createdAt <= rows[j].createdAt)
  {
    var c := CountActiveSessions(rows, userId, now);
    var tokens := FindValidTokensByUserId(rows, userId, now);
    if c >= maxActive && c > 0 {
      var o := tokens[OldestIndex(tokens)];
      assert o in tokens;
      var k :| 0 <= k < |rows| && rows[k] == o;
      MergeAt(rows, k, o.(revoked := true));
      CountAfterReplace(rows, k, o.(revoked := true), userId, now);
      forall j | 0 <= j < |rows| && ActiveFor(rows[j], userId, now)
        ensures rows[k].createdAt <= rows[j].createdAt
      {
        assert rows[j] in tokens;
      }
    } else if c == 0 && c >= maxActive {
      assert tokens == [];
    }
  }

  /** The session `validate` accepts sits at a position `k` of the table,
      and the update `validate` saves replaces exactly that position. */
  lemma ValidatedRow(rows: seq<TokenRecord>, nextId: int, raw: Option<string>, now: Millis) returns (k: int)
    requires TableValid(rows, nextId) && ValidateOutcome(rows, raw, now).Ok?
    ensures 0 <= k < |rows|
    ensures var t := ValidateOutcome(rows, raw, now).value;
      && raw.Some? && !IsBlank(raw.value)
      && rows[k].id == t.id && rows[k].tokenHash == t.tokenHash == Sha256(raw.value)
      && !t.revoked && Merge(rows, t) == rows[k := t]
  {
    var found := FindByTokenHash(rows, Sha256(raw.value)).value;
    k :| 0 <= k < |rows| && rows[k] == found;
    MergeAt(rows, k, found.(lastUsedAt := now));
  }

  /**
   * `validate` accepts a secret exactly when it names a stored session whose
   * entity `isValid` at that instant, and hands back that session stamped
   * as used.
   */
  lemma ValidateAcceptsValid(rows: seq<TokenRecord>, raw: Option<string>, now: Millis)
    ensures ValidateOutcome(rows, raw, now).Ok? <==>
      && !NullOrBlank(raw)
      && FindByTokenHash(rows, Sha256(raw.value)).Some?
      && RecordValid(FindByTokenHash(rows, Sha256(raw.value)).value, now)
    ensures ValidateOutcome(rows, raw, now).Ok? ==>
      ValidateOutcome(rows, raw, now).value == FindByTokenHash(rows, Sha256(raw.value)).value.(lastUsedAt := now)
  {
  }

  /**
   * The refusal codes of `validate`, in terms of the stored rows: an
   * absent, blank or unknown secret is REFRESH_TOKEN_INVALID; a stored
   * session is REFRESH_TOKEN_REVOKED when revoked, whether expired or not,
   * and REFRESH_TOKEN_EXPIRED when unrevoked and past its expiry.
   */
  lemma ValidateCodes(rows: seq<TokenRecord>, raw: Option<string>, now: Millis)
    requires UniqueHashes(rows)
    ensures ValidateOutcome(rows, raw, now) == Err(App(RefreshTokenInvalid, INVALID_REFRESH))
        <==> NullOrBlank(raw) || forall k :: 0 <= k < |rows| ==> rows[k].tokenHash != Sha256(raw.value)
    ensures ValidateOutcome(rows, raw, now) == Err(App(RefreshTokenRevoked, INVALID_REFRESH))
        <==> !NullOrBlank(raw) &&
             exists k :: 0 <= k < |rows| && rows[k].tokenHash == Sha256(raw.value) && rows[k].revoked
    ensures ValidateOutcome(rows, raw, now) == Err(App(RefreshTokenExpired, INVALID_REFRESH))
        <==> !NullOrBlank(raw) &&
             exists k :: 0 <= k < |rows| && rows[k].tokenHash == Sha256(raw.value) && !rows[k].revoked
                         && Expired(rows[k].expiresAt, now)
  {
    if !NullOrBlank(raw) && !HashFree(rows, Sha256(raw.value)) {
      var k :| 0 <= k < |rows| && rows[k].tokenHash == Sha256(raw.value);
      FindByTokenHashUnique(rows, k);
    }
  }

  /** The secret `uuid1 + "." + uuid2` is never blank: it holds a dot. */
  lemma SecretNotBlank(uuid1: string, uuid2: string)
    ensures !IsBlank(uuid1 + "." + uuid2)
  {
    assert (uuid1 + "." + uuid2)[|uuid1|] == '.';
  }

  /** An expiry `days` days after `now` lies after `now` exactly when `days` is positive. */
  lemma LaterExpiry(now: Millis, days: int)
    ensures now + days * DAY_MS > now <==> days > 0
    ensures now + days * DAY_MS >= now <==> days >= 0
  {
    if days > 0 {
      assert days * DAY_MS >= DAY_MS;
    } else if days < 0 {
      assert days * DAY_MS <= -DAY_MS;
    }
  }

  /**
   * The session count `issue` leaves: the eviction takes at most one
   * session away and the new session adds one when it expires after `now`,
   * so a user already over the cap stays over it.
   */
  lemma SessionsAfterIssue(rows: seq<TokenRecord>, nextId: int, userId: int, now: Millis, maxActive: int, row: TokenRecord)
    requires TableValid(rows, nextId)
    requires row.userId == userId && !row.revoked
    ensures var c := CountActiveSessions(rows, userId, now);
      CountActiveSessions(AfterEviction(rows, userId, now, maxActive) + [row], userId, now)
        == (if c >= maxActive && c > 0 then c - 1 else c) + (if row.expiresAt > now then 1 else 0)
  {
    EvictionCount(rows, nextId, userId, now, maxActive);
    CountConcat(AfterEviction(rows, userId, now, maxActive), [row], userId, now);
    assert [row][1..] == [];
  }

  /** A session just stored is found by its secret and validates while it has not expired. */
  lemma IssuedSessionValidates(rows: seq<TokenRecord>, row: TokenRecord, raw: string, now: Millis)
    requires UniqueHashes(rows + [row])
    requires row.tokenHash == Sha256(raw) && !IsBlank(raw)
    requires !row.revoked && row.expiresAt >= now && row.lastUsedAt == now
    ensures ValidateOutcome(rows + [row], Some(raw), now) == Ok(row)
  {
    FindByTokenHashUnique(rows + [row], |rows|);
  }

  /** Once revoked, a secret is refused as revoked for as long as its row is kept. */
  lemma RevokedIsRejected(before: seq<TokenRecord>, after: seq<TokenRecord>, k: int, raw: string, now: Millis)
    requires UniqueHashes(after) && Evolves(before, after)
    requires 0 <= k < |before| && before[k].revoked && before[k].tokenHash == Sha256(raw) && !IsBlank(raw)
    ensures ValidateOutcome(after, Some(raw), now) == Err(App(RefreshTokenRevoked, INVALID_REFRESH))
  {
    FindByTokenHashUnique(after, k);
  }

  /**
   * `revoke` of a stored secret revokes exactly that secret's row, after
   * which the secret is refused as revoked; revoking it again changes nothing.
   */
  lemma RevokeRejects(rows: seq<TokenRecord>, nextId: int, raw: string, now: Millis) returns (k: int)
    requires TableValid(rows, nextId) && !IsBlank(raw) && !HashFree(rows, Sha256(raw))
    ensures 0 <= k < |rows| && rows[k].tokenHash == Sha256(raw)
    ensures RevokeEffect(rows, Some(raw)) == rows[k := rows[k].(revoked := true)]
    ensures ValidateOutcome(RevokeEffect(rows, Some(raw)), Some(raw), now) == Err(App(RefreshTokenRevoked, INVALID_REFRESH))
    ensures RevokeEffect(RevokeEffect(rows, Some(raw)), Some(raw)) == RevokeEffect(rows, Some(raw))
  {
    var found := FindByTokenHash(rows, Sha256(raw)).value;
    k :| 0 <= k < |rows| && rows[k] == found;
    var t := found.(revoked := true);
    MergeAt(rows, k, t);
    RowWithIdUnique(rows, k);
    MergeKeepsTable(rows, nextId, t);
    var once := rows[k := t];
    FindByTokenHashUnique(once, k);
    MergeAt(once, k, t);
    RevokedIsRejected(once, once, k, raw, now);
  }

  /** `revoke` of a missing, blank or unknown secret changes nothing. */
  lemma RevokeUnknown(rows: seq<TokenRecord>, raw: Option<string>)
    requires NullOrBlank(raw) || HashFree(rows, Sha256(raw.value))
    ensures RevokeEffect(rows, raw) == rows
  {
  }

  /** After `revokeAll`, the user has no active session left at any instant. */
  lemma {:induction false} RevokeAllEndsSessions(rows: seq<TokenRecord>, userId: int, now: Millis)
    ensures CountActiveSessions(RevokeSelected(rows, userId, None), userId, now) == 0
  {
    if rows != [] {
      assert RevokeSelected(rows, userId, None)[1..] == RevokeSelected(rows[1..], userId, None);
      RevokeAllEndsSessions(rows[1..], userId, now);
    }
  }

  /**
   * The expiry boundary is drawn twice: a session whose expiry equals the
   * clock still validates (it is expired only strictly after), but it no
   * longer counts as active nor is it listed among the user's valid sessions.
   */
  lemma ExpiryBoundary(rows: seq<TokenRecord>, nextId: int, k: int, now: Millis)
    requires TableValid(rows, nextId) && 0 <= k < |rows|
    requires !rows[k].revoked && rows[k].expiresAt == now && !IsBlank(rows[k].tokenHash.input)
    ensures ValidateOutcome(rows, Some(rows[k].tokenHash.input), now) == Ok(rows[k].(lastUsedAt := now))
    ensures !ActiveFor(rows[k], rows[k].userId, now)
    ensures rows[k] !in FindValidTokensByUserId(rows, rows[k].userId, now)
  {
    FindByTokenHashUnique(rows, k);
  }

  /**
   * The sweep keeps a session that expired less than seven days ago; until
   * it is swept, presenting its secret is answered as expired, not as invalid.
   */
  lemma SweepKeepsRecentlyExpired(rows: seq<TokenRecord>, nextId: int, k: int, now: Millis)
    requires TableValid(rows, nextId) && 0 <= k < |rows|
    requires !rows[k].revoked && !IsBlank(rows[k].tokenHash.input)
    requires now - CLEANUP_GRACE_DAYS * DAY_MS <= rows[k].expiresAt < now
    ensures rows[k] in KeepUnexpired(rows, now - CLEANUP_GRACE_DAYS * DAY_MS)
    ensures ValidateOutcome(KeepUnexpired(rows, now - CLEANUP_GRACE_DAYS * DAY_MS), Some(rows[k].tokenHash.input), now)
         == Err(App(RefreshTokenExpired, INVALID_REFRESH))
  {
    var kept := KeepUnexpired(rows, now - CLEANUP_GRACE_DAYS * DAY_MS);
    KeepUnexpiredKeepsTable(rows, nextId, now - CLEANUP_GRACE_DAYS * DAY_MS);
    var j :| 0 <= j < |kept| && kept[j] == rows[k];
    FindByTokenHashUnique(kept, j);
  }
}
