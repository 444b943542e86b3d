/**
 * `RefreshTokenRepository` over an in-memory `refresh_tokens` table: the
 * finders and the count are filters over the rows, `save` inserts or merges
 * one entity, and the `@Modifying` queries update or delete rows in bulk.
 * Rows are kept in insertion order, which is the order the finders return.
 */
module RefreshTokenStore {
  import opened Common
  import opened RefreshTokenEntity

  /** The WHERE clause shared by `findValidTokensByUserId` and `countActiveSessions`. */
  predicate ActiveFor(t: TokenRecord, userId: int, now: Millis) {
    t.userId == userId && !t.revoked && t.expiresAt > now
  }

  /** No row carries the digest `h`. */
  predicate HashFree(rows: seq<TokenRecord>, h: Digest) {
    forall i :: 0 <= i < |rows| ==> rows[i].tokenHash != h
  }

  ghost predicate UniqueIds(rows: seq<TokenRecord>) {
    forall i, j :: 0 <= i < j < |rows| ==> rows[i].id != rows[j].id
  }

  /** The `unique = true` constraint on `token_hash`. */
  ghost predicate UniqueHashes(rows: seq<TokenRecord>) {
    forall i, j :: 0 <= i < j < |rows| ==> rows[i].tokenHash != rows[j].tokenHash
  }

  /** The table's integrity: identities and digests are unique, and the
      identity generator is ahead of every identity handed out. */
  ghost predicate TableValid(rows: seq<TokenRecord>, nextId: int) {
    && UniqueIds(rows)
    && UniqueHashes(rows)
    && (forall i :: 0 <= i < |rows| ==> rows[i].id < nextId)
  }

  /** `findByTokenHash`: a row with that digest, or none when no row has it. */
  function FindByTokenHash(rows: seq<TokenRecord>, h: Digest): (r: Option<TokenRecord>)
    ensures r.Some? ==> r.value in rows && r.value.tokenHash == h
    ensures r.None? <==> HashFree(rows, h)
  {
    if rows == [] then None
    else if rows[0].tokenHash == h then Some(rows[0])
    else FindByTokenHash(rows[1..], h)
  }

  /** The row with the identity `id`, or none (the lookup `save` merges into).
      It is the same search `UserDetailsLookup.FindById` makes over the
      `users` table; the two tables have different row types, so each keeps
      its own. */
  function RowWithId(rows: seq<TokenRecord>, id: int): (r: Option<TokenRecord>)
    ensures r.Some? ==> r.value in rows && r.value.id == id
    ensures r.None? <==> forall i :: 0 <= i < |rows| ==> rows[i].id != id
  {
    if rows == [] then None
    else if rows[0].id == id then Some(rows[0])
    else RowWithId(rows[1..], id)
  }

  /** `findValidTokensByUserId(userId, now)`: exactly the rows of that user
      that are not revoked and expire after `now`, in table order. */
  function FindValidTokensByUserId(rows: seq<TokenRecord>, userId: int, now: Millis): (r: seq<TokenRecord>)
    ensures |r| <= |rows|
    ensures forall t :: t in r <==> t in rows && ActiveFor(t, userId, now)
  {
    if rows == [] then []
    else if ActiveFor(rows[0], userId, now) then [rows[0]] + FindValidTokensByUserId(rows[1..], userId, now)
    else FindValidTokensByUserId(rows[1..], userId, now)
  }

  /** `countActiveSessions(userId, now)`: the `COUNT` over the same WHERE
      clause, which is the number of rows `findValidTokensByUserId` lists. */
  function CountActiveSessions(rows: seq<TokenRecord>, userId: int, now: Millis): (n: nat)
    ensures n == |FindValidTokensByUserId(rows, userId, now)|
    ensures n <= |rows|
  {
    if rows == [] then 0
    else (if ActiveFor(rows[0], userId, now) then 1 else 0) + CountActiveSessions(rows[1..], userId, now)
  }

  /** `save` of an entity that already has an identity: its row takes the new values. */
  function Merge(rows: seq<TokenRecord>, r: TokenRecord): seq<TokenRecord> {
    seq(|rows|, i requires 0 <= i < |rows| => if rows[i].id == r.id then r else rows[i])
  }

  /** The rows a bulk revocation selects: the user's rows, of one type when one is given. */
  predicate Selected(t: TokenRecord, userId: int, tokenType: Option<TokenType>) {
    t.userId == userId && (tokenType.None? || t.tokenType == tokenType.value)
  }

  /** The table after `UPDATE ... SET revoked = true WHERE <Selected>`. */
  function RevokeSelected(rows: seq<TokenRecord>, userId: int, tokenType: Option<TokenType>): seq<TokenRecord> {
    seq(|rows|, i requires 0 <= i < |rows| =>
      if Selected(rows[i], userId, tokenType) then rows[i].(revoked := true) else rows[i])
  }

  /** The row count such an update reports: every selected row, revoked before or not. */
  function CountSelected(rows: seq<TokenRecord>, userId: int, tokenType: Option<TokenType>): nat {
    if rows == [] then 0
    else (if Selected(rows[0], userId, tokenType) then 1 else 0) + CountSelected(rows[1..], userId, tokenType)
  }

  /** The table after `DELETE ... WHERE expiresAt < threshold`: exactly the
      rows expiring at or after the threshold remain, in table order. */
  function KeepUnexpired(rows: seq<TokenRecord>, threshold: Millis): (r: seq<TokenRecord>)
    ensures |r| <= |rows|
    ensures forall t :: t in r <==> t in rows && !(t.expiresAt < threshold)
  {
    if rows == [] then []
    else if rows[0].expiresAt < threshold then KeepUnexpired(rows[1..], threshold)
    else [rows[0]] + KeepUnexpired(rows[1..], threshold)
  }

  /**
   * How the table may change under every operation but the expiry sweep:
   * each row keeps its place, identity and digest, a revoked row stays
   * revoked, and new rows only ever come at the end.
   */
  predicate Evolves(before: seq<TokenRecord>, after: seq<TokenRecord>) {
    && |before| <= |after|
    && forall i :: 0 <= i < |before| ==>
         && after[i].id == before[i].id
         && after[i].tokenHash == before[i].tokenHash
         && (before[i].revoked ==> after[i].revoked)
  }

  /** The in-memory table behind the repository. */
  class RefreshTokenRepository {
    var rows: seq<TokenRecord>
    var nextId: int

    ghost predicate Valid()
      reads this
    {
      TableValid(rows, nextId)
    }

    constructor ()
      ensures Valid() && rows == []
    {
      rows := [];
      nextId := 1;
    }

    /**
     * `save(entity)`. A new entity (no identity) runs its `@PrePersist`
     * callback, receives the next identity and is appended; the unique
     * constraint on `token_hash` is what the caller must respect. An entity
     * with an identity is merged into its row, whose digest it keeps.
     */
    method Save(e: RefreshToken, now: Millis)
      requires Valid()
      requires e.id.None? ==> HashFree(rows, e.tokenHash)
      requires e.id.Some? ==> e.Persisted() && RowWithId(rows, e.id.value).Some?
      requires e.id.Some? ==> RowWithId(rows, e.id.value).value.tokenHash == e.tokenHash
      modifies this, e`id, e`createdAt, e`lastUsedAt
      ensures Valid() && e.Persisted()
      ensures old(e.id).None? ==>
        && e.id == Some(old(nextId))
        && e.createdAt == (if old(e.createdAt).None? then Some(now) else old(e.createdAt))
        && e.lastUsedAt == (if old(e.lastUsedAt).None? then e.createdAt else old(e.lastUsedAt))
        && rows == old(rows) + [e.Record()]
        && nextId == old(nextId) + 1
      ensures old(e.id).Some? ==>
        && e.id == old(e.id) && e.createdAt == old(e.createdAt) && e.lastUsedAt == old(e.lastUsedAt)
        && rows == Merge(old(rows), e.Record())
        && nextId == old(nextId)
    {
      if e.id.None? {
        e.OnCreate(now);
        e.id := Some(nextId);
        rows := rows + [e.Record()];
        nextId := nextId + 1;
      } else {
        MergeKeepsTable(rows, nextId, e.Record());
        rows := Merge(rows, e.Record());
      }
    }

    /** `revokeAllByUserId`: revokes every row of the user, expired ones
        included, and reports how many rows it matched. */
    method RevokeAllByUserId(userId: int) returns (count: nat)
      requires Valid()
      modifies this`rows
      ensures Valid()
      ensures rows == RevokeSelected(old(rows), userId, None)
      ensures count == CountSelected(old(rows), userId, None)
    {
      count := CountSelected(rows, userId, None);
      rows := RevokeSelected(rows, userId, None);
    }

    /** `revokeAllByUserIdAndType`: the same, restricted to one token type. */
    method RevokeAllByUserIdAndType(userId: int, tokenType: TokenType) returns (count: nat)
      requires Valid()
      modifies this`rows
      ensures Valid()
      ensures rows == RevokeSelected(old(rows), userId, Some(tokenType))
      ensures count == CountSelected(old(rows), userId, Some(tokenType))
    {
      count := CountSelected(rows, userId, Some(tokenType));
      rows := RevokeSelected(rows, userId, Some(tokenType));
    }

    /** `deleteExpiredTokens(threshold)`: removes the rows expiring strictly
        before the threshold and reports how many it removed. */
    method DeleteExpiredTokens(threshold: Millis) returns (count: nat)
      requires Valid()
      modifies this`rows
      ensures Valid()
      ensures rows == KeepUnexpired(old(rows), threshold)
      ensures count == |old(rows)| - |rows|
    {
      var kept := KeepUnexpired(rows, threshold);
      KeepUnexpiredKeepsTable(rows, nextId, threshold);
      count := |rows| - |kept|;
      rows := kept;
    }
  }

  // ----- Lemmas about the table -----

  /** Under the unique constraint, the digest lookup finds THE row carrying it. */
  lemma {:induction false} FindByTokenHashUnique(rows: seq<TokenRecord>, i: int)
    requires UniqueHashes(rows)
    requires 0 <= i < |rows|
    ensures FindByTokenHash(rows, rows[i].tokenHash) == Some(rows[i])
  {
    if i > 0 {
      assert rows[0].tokenHash != rows[i].tokenHash;
      assert UniqueHashes(rows[1..]) by {
        forall a, b | 0 <= a < b < |rows| - 1 ensures rows[1..][a].tokenHash != rows[1..][b].tokenHash {
          assert rows[1..][a] == rows[a + 1] && rows[1..][b] == rows[b + 1];
        }
      }
      FindByTokenHashUnique(rows[1..], i - 1);
      assert rows[1..][i - 1] == rows[i];
    }
  }

  /** `findValidTokensByUserId` keeps table order: listing a table in two
      parts lists the first part's valid rows, then the second's. */
  lemma {:induction false} ValidTokensConcat(a: seq<TokenRecord>, b: seq<TokenRecord>, userId: int, now: Millis)
    ensures FindValidTokensByUserId(a + b, userId, now)
         == FindValidTokensByUserId(a, userId, now) + FindValidTokensByUserId(b, userId, now)
  {
    if a == [] {
      assert a + b == b;
    } else {
      assert (a + b)[0] == a[0];
      assert (a + b)[1..] == a[1..] + b;
      ValidTokensConcat(a[1..], b, userId, now);
    }
  }

  /** Each valid row is listed as often as the table holds it, and no other
      row is listed. */
  lemma {:induction false} ValidTokensMultiplicity(rows: seq<TokenRecord>, userId: int, now: Millis, t: TokenRecord)
    ensures multiset(FindValidTokensByUserId(rows, userId, now))[t]
         == if ActiveFor(t, userId, now) then multiset(rows)[t] else 0
  {
    if rows != [] {
      assert rows == [rows[0]] + rows[1..];
      ValidTokensMultiplicity(rows[1..], userId, now, t);
    }
  }

  /** Over a table with unique identities, no session is listed twice. */
  lemma {:induction false} ValidTokensUniqueIds(rows: seq<TokenRecord>, userId: int, now: Millis)
    requires UniqueIds(rows)
    ensures UniqueIds(FindValidTokensByUserId(rows, userId, now))
  {
    if rows != [] {
      var rest := FindValidTokensByUserId(rows[1..], userId, now);
      assert UniqueIds(rows[1..]) by {
        forall i, j | 0 <= i < j < |rows| - 1
          ensures rows[1..][i].id != rows[1..][j].id
        {
          assert rows[1..][i] == rows[i + 1] && rows[1..][j] == rows[j + 1];
        }
      }
      ValidTokensUniqueIds(rows[1..], userId, now);
      if ActiveFor(rows[0], userId, now) {
        var r := [rows[0]] + rest;
        forall i, j | 0 <= i < j < |r|
          ensures r[i].id != r[j].id
        {
          if i == 0 {
            assert r[j] == rest[j - 1] && rest[j - 1] in rows[1..];
            var m :| 0 <= m < |rows| - 1 && rows[1..][m] == rest[j - 1];
            assert rows[m + 1] == r[j];
          } else {
            assert r[i] == rest[i - 1] && r[j] == rest[j - 1];
          }
        }
      }
    }
  }

  /** Under unique identities, the row with identity `rows[i].id` is `rows[i]`. */
  lemma {:induction false} RowWithIdUnique(rows: seq<TokenRecord>, i: int)
    requires UniqueIds(rows)
    requires 0 <= i < |rows|
    ensures RowWithId(rows, rows[i].id) == Some(rows[i])
  {
    if i > 0 {
      assert UniqueIds(rows[1..]) by {
        forall a, b | 0 <= a < b < |rows| - 1 ensures rows[1..][a].id != rows[1..][b].id {
          assert rows[1..][a] == rows[a + 1] && rows[1..][b] == rows[b + 1];
        }
      }
      RowWithIdUnique(rows[1..], i - 1);
      assert rows[1..][i - 1] == rows[i];
    }
  }

  /** Merging a row into the slot that holds its identity replaces exactly that slot. */
  lemma MergeAt(rows: seq<TokenRecord>, k: int, r: TokenRecord)
    requires UniqueIds(rows)
    requires 0 <= k < |rows| && rows[k].id == r.id
    ensures Merge(rows, r) == rows[k := r]
  {
  }

  /** A merge that keeps the row's digest keeps the table valid. */
  lemma MergeKeepsTable(rows: seq<TokenRecord>, nextId: int, r: TokenRecord)
    requires TableValid(rows, nextId)
    requires RowWithId(rows, r.id).Some? && RowWithId(rows, r.id).value.tokenHash == r.tokenHash
    ensures TableValid(Merge(rows, r), nextId)
  {
    var k :| 0 <= k < |rows| && rows[k] == RowWithId(rows, r.id).value;
    MergeAt(rows, k, r);
  }

  /** The first row differs from every later row in identity and digest. */
  lemma HeadDistinct(rows: seq<TokenRecord>, nextId: int)
    requires TableValid(rows, nextId) && rows != []
    ensures TableValid(rows[1..], nextId)
    ensures forall t :: t in rows[1..] ==> t.id != rows[0].id && t.tokenHash != rows[0].tokenHash
  {
    forall t | t in rows[1..] ensures t.id != rows[0].id && t.tokenHash != rows[0].tokenHash {
      var m :| 0 <= m < |rows| - 1 && rows[1..][m] == t;
      assert rows[1..][m] == rows[m + 1];
    }
  }

  /** A row distinct from every row of a valid table can be put in front of it. */
  lemma ConsValid(x: TokenRecord, tail: seq<TokenRecord>, nextId: int)
    requires TableValid(tail, nextId) && x.id < nextId
    requires forall t :: t in tail ==> t.id != x.id && t.tokenHash != x.tokenHash
    ensures TableValid([x] + tail, nextId)
  {
    var res := [x] + tail;
    forall a, b | 0 <= a < b < |res|
      ensures res[a].id != res[b].id && res[a].tokenHash != res[b].tokenHash
    {
      assert res[b] == tail[b - 1];
      if a > 0 { assert res[a] == tail[a - 1]; }
    }
  }

  /** Deleting rows keeps the table valid. */
  lemma {:induction false} KeepUnexpiredKeepsTable(rows: seq<TokenRecord>, nextId: int, threshold: Millis)
    requires TableValid(rows, nextId)
    ensures TableValid(KeepUnexpired(rows, threshold), nextId)
  {
    if rows != [] {
      HeadDistinct(rows, nextId);
      KeepUnexpiredKeepsTable(rows[1..], nextId, threshold);
      if !(rows[0].expiresAt < threshold) {
        ConsValid(rows[0], KeepUnexpired(rows[1..], threshold), nextId);
      }
    }
  }

  /** The count over a concatenation is the sum of the counts. */
  lemma {:induction false} CountConcat(a: seq<TokenRecord>, b: seq<TokenRecord>, userId: int, now: Millis)
    ensures CountActiveSessions(a + b, userId, now)
         == CountActiveSessions(a, userId, now) + CountActiveSessions(b, userId, now)
  {
    if a == [] {
      assert a + b == b;
    } else {
      assert (a + b)[0] == a[0];
      assert (a + b)[1..] == a[1..] + b;
      CountConcat(a[1..], b, userId, now);
    }
  }

  /** Revoking one active row of the user lowers the user's active count by
      exactly one; replacing a row by one with the same activity keeps it. */
  lemma CountAfterReplace(rows: seq<TokenRecord>, k: int, r: TokenRecord, userId: int, now: Millis)
    requires 0 <= k < |rows|
    ensures CountActiveSessions(rows[k := r], userId, now)
         == CountActiveSessions(rows, userId, now)
          - (if ActiveFor(rows[k], userId, now) then 1 else 0)
          + (if ActiveFor(r, userId, now) then 1 else 0)
  {
    var pre, post := rows[..k], rows[k + 1..];
    assert rows == pre + [rows[k]] + post;
    assert rows[k := r] == pre + [r] + post;
    CountConcat(pre + [rows[k]], post, userId, now);
    CountConcat(pre, [rows[k]], userId, now);
    CountConcat(pre + [r], post, userId, now);
    CountConcat(pre, [r], userId, now);
  }

  /** `revokeAllByUserId` revokes every row of the user, expired or not,
      and leaves every other user's rows as they were. */
  lemma RevokeAllByUserIdEffect(rows: seq<TokenRecord>, userId: int)
    ensures |RevokeSelected(rows, userId, None)| == |rows|
    ensures forall i :: 0 <= i < |rows| && rows[i].userId == userId ==>
      RevokeSelected(rows, userId, None)[i] == rows[i].(revoked := true)
    ensures forall i :: 0 <= i < |rows| && rows[i].userId != userId ==>
      RevokeSelected(rows, userId, None)[i] == rows[i]
  {
  }

  /** `revokeAllByUserIdAndType` touches only the rows matching both the user and the type. */
  lemma RevokeAllByUserIdAndTypeEffect(rows: seq<TokenRecord>, userId: int, tokenType: TokenType)
    ensures |RevokeSelected(rows, userId, Some(tokenType))| == |rows|
    ensures forall i :: 0 <= i < |rows| ==>
      RevokeSelected(rows, userId, Some(tokenType))[i]
        == if rows[i].userId == userId && rows[i].tokenType == tokenType
           then rows[i].(revoked := true) else rows[i]
  {
  }

  /** A row known to be in a table with unique identities is the row `save` merges into. */
  lemma StoredRowFound(rows: seq<TokenRecord>, r: TokenRecord)
    requires UniqueIds(rows) && r in rows
    ensures RowWithId(rows, r.id) == Some(r)
  {
    var k :| 0 <= k < |rows| && rows[k] == r;
    RowWithIdUnique(rows, k);
  }

  /** Merging a row that keeps the stored digest, and does not clear a
      revocation, is an evolution of the table. */
  lemma MergeEvolves(rows: seq<TokenRecord>, r: TokenRecord)
    requires forall i :: 0 <= i < |rows| && rows[i].id == r.id ==>
      rows[i].tokenHash == r.tokenHash && (rows[i].revoked ==> r.revoked)
    ensures Evolves(rows, Merge(rows, r))
  {
  }

  /** Evolution composes. */
  lemma EvolvesTrans(a: seq<TokenRecord>, b: seq<TokenRecord>, c: seq<TokenRecord>)
    requires Evolves(a, b) && Evolves(b, c)
    ensures Evolves(a, c)
  {
  }

  /** Two merges of the same identity leave the second one's values. */
  lemma MergeTwice(rows: seq<TokenRecord>, a: TokenRecord, b: TokenRecord)
    requires a.id == b.id
    ensures Merge(Merge(rows, a), b) == Merge(rows, b)
  {
  }
}
