/**
 * The `RefreshToken` entity: one refresh session, addressed by the digest of
 * its secret. `TokenRecord` is a stored row of the `refresh_tokens` table
 * (every non-null column filled in); the class `RefreshToken` is the entity
 * object the service loads from a row, changes in place and saves back.
 */
module RefreshTokenEntity {
  import opened Common

  /** `TokenType`: a standard session, or a long-lived "remember me" one. */
  datatype TokenType = Refresh | RememberMe

  /**
   * The hex-encoded SHA-256 digest of a raw secret. It is kept symbolic: two
   * digests are equal exactly when their inputs are, which is the collision
   * resistance the store relies on for lookups by digest.
   */
  datatype Digest = Sha256Digest(input: string)

  /** `sha256(raw)`. */
  function Sha256(raw: string): Digest {
    Sha256Digest(raw)
  }

  /** `isExpired`: the clock is strictly after the expiry instant. */
  predicate Expired(expiresAt: Millis, now: Millis) {
    now > expiresAt
  }

  /** `isValid` of the entity loaded from the row `t`: not revoked and not expired. */
  predicate RecordValid(t: TokenRecord, now: Millis) {
    !t.revoked && !Expired(t.expiresAt, now)
  }

  /** A row of `refresh_tokens` as stored (id, timestamps and hash are never null there). */
  datatype TokenRecord = TokenRecord(
    id: int,
    tokenHash: Digest,
    userId: int,
    tokenType: TokenType,
    createdAt: Millis,
    lastUsedAt: Millis,
    expiresAt: Millis,
    revoked: bool,
    ipAddress: Option<string>,
    userAgent: Option<string>,
    deviceName: Option<string>)

  class RefreshToken {
    var id: Option<int>
    var tokenHash: Digest
    var userId: int
    var tokenType: TokenType
    var createdAt: Option<Millis>
    var lastUsedAt: Option<Millis>
    var expiresAt: Millis
    var revoked: bool
    var ipAddress: Option<string>
    var userAgent: Option<string>
    var deviceName: Option<string>

    /** `RefreshToken.builder()...build()`: every field as given, no identity yet. */
    constructor Build(tokenHash: Digest, userId: int, tokenType: TokenType,
                      createdAt: Option<Millis>, lastUsedAt: Option<Millis>, expiresAt: Millis,
                      revoked: bool, ipAddress: Option<string>, userAgent: Option<string>,
                      deviceName: Option<string>)
      ensures id.None?
      ensures this.tokenHash == tokenHash && this.userId == userId && this.tokenType == tokenType
      ensures this.createdAt == createdAt && this.lastUsedAt == lastUsedAt
      ensures this.expiresAt == expiresAt && this.revoked == revoked
      ensures this.ipAddress == ipAddress && this.userAgent == userAgent && this.deviceName == deviceName
    {
      this.id := None;
      this.tokenHash := tokenHash;
      this.userId := userId;
      this.tokenType := tokenType;
      this.createdAt := createdAt;
      this.lastUsedAt := lastUsedAt;
      this.expiresAt := expiresAt;
      this.revoked := revoked;
      this.ipAddress := ipAddress;
      this.userAgent := userAgent;
      this.deviceName := deviceName;
    }

    /** The managed entity the persistence layer materialises from a stored row. */
    constructor Load(r: TokenRecord)
      ensures Persisted() && Record() == r
    {
      this.id := Some(r.id);
      this.tokenHash := r.tokenHash;
      this.userId := r.userId;
      this.tokenType := r.tokenType;
      this.createdAt := Some(r.createdAt);
      this.lastUsedAt := Some(r.lastUsedAt);
      this.expiresAt := r.expiresAt;
      this.revoked := r.revoked;
      this.ipAddress := r.ipAddress;
      this.userAgent := r.userAgent;
      this.deviceName := r.deviceName;
    }

    /** The entity has an identity and both timestamps, so it can be a row. */
    predicate Persisted()
      reads this
    {
      id.Some? && createdAt.Some? && lastUsedAt.Some?
    }

    /** The row this entity is written as. */
    function Record(): TokenRecord
      reads this
      requires Persisted()
    {
      TokenRecord(id.value, tokenHash, userId, tokenType, createdAt.value, lastUsedAt.value,
                  expiresAt, revoked, ipAddress, userAgent, deviceName)
    }

    /** `isExpired`: once the clock has passed the expiry, every later clock has too. */
    predicate IsExpired(now: Millis)
      reads this
      ensures IsExpired(now) ==> forall later: Millis :: later >= now ==> Expired(expiresAt, later)
      ensures Persisted() ==> (IsExpired(now) <==> Expired(Record().expiresAt, now))
    {
      Expired(expiresAt, now)
    }

    /** `isValid`: what the entity says of itself is what its row says. */
    predicate IsValid(now: Millis)
      reads this
      ensures Persisted() ==> (IsValid(now) <==> RecordValid(Record(), now))
      ensures IsValid(now) ==> !revoked
    {
      !revoked && !IsExpired(now)
    }

    /** `markAsUsed`: stamps `lastUsedAt` with the clock and touches nothing else. */
    method MarkAsUsed(now: Millis)
      modifies this`lastUsedAt
      ensures lastUsedAt == Some(now)
      ensures old(Persisted()) ==> Persisted() && Record() == old(Record()).(lastUsedAt := now)
    {
      lastUsedAt := Some(now);
    }

    /** `revoke`: sets `revoked`; calling it again changes nothing, and no
        method of the entity ever clears the flag. */
    method Revoke()
      modifies this`revoked
      ensures revoked
      ensures old(Persisted()) ==> Persisted() && Record() == old(Record()).(revoked := true)
    {
      revoked := true;
    }

    /** `onCreate` (run before the first insert): fills `createdAt` only when
        it is missing, then defaults `lastUsedAt` to `createdAt` only when that
        is missing. */
    method OnCreate(now: Millis)
      modifies this`createdAt, this`lastUsedAt
      ensures createdAt == if old(createdAt).None? then Some(now) else old(createdAt)
      ensures lastUsedAt == if old(lastUsedAt).None? then createdAt else old(lastUsedAt)
      ensures createdAt.Some? && lastUsedAt.Some?
    {
      if createdAt.None? {
        createdAt := Some(now);
      }
      if lastUsedAt.None? {
        lastUsedAt := createdAt;
      }
    }
  }
}
