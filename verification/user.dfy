/**
 * The `User` entity (a row of `users`), the snapshot of it the services
 * read, and the `CustomUserDetails` principal built from it.
 */
module UserEntity {
  import opened Common

  /**
   * A stored user, as the services read it. `role` is the name of the `Role`
   * constant; the enumeration itself is not part of this model.
   */
  datatype UserRecord = UserRecord(
    id: int,
    username: string,
    email: string,
    passwordHash: string,
    role: string,
    active: bool,
    locked: bool)

  /** `CustomUserDetails`: the principal, carrying the user's fields as they are. */
  datatype UserDetails = UserDetails(
    id: int,
    username: string,
    passwordHash: string,
    active: bool,
    locked: bool,
    role: string)

  /** The principal for a stored user (`new CustomUserDetails(user.getId(), ...)`). */
  function DetailsOf(u: UserRecord): (d: UserDetails)
    ensures d.id == u.id && d.username == u.username && d.passwordHash == u.passwordHash
    ensures d.active == u.active && d.locked == u.locked && d.role == u.role
  {
    UserDetails(u.id, u.username, u.passwordHash, u.active, u.locked, u.role)
  }

  /** `isAccountUsable`: active and not locked. */
  predicate Usable(u: UserRecord) {
    u.active && !u.locked
  }

  /** The `User` entity object, with every column that may be null as an option. */
  class User {
    var id: Option<int>
    var username: Option<string>
    var email: Option<string>
    var passwordHash: Option<string>
    var role: Option<string>
    var active: bool
    var locked: bool
    var createdAt: Option<Millis>
    var updatedAt: Option<Millis>
    var lastLoginAt: Option<Millis>

    /** `new User()`: the field initialisers make a new user active and unlocked. */
    constructor ()
      ensures active && !locked
      ensures id.None? && username.None? && email.None? && passwordHash.None? && role.None?
      ensures createdAt.None? && updatedAt.None? && lastLoginAt.None?
    {
      id := None;
      username := None;
      email := None;
      passwordHash := None;
      role := None;
      active := true;
      locked := false;
      createdAt := None;
      updatedAt := None;
      lastLoginAt := None;
    }

    /**
     * `User.builder()...build()`. The builder does not run the field
     * initialisers, so a flag the caller does not set (`None`) is false:
     * a built user is inactive unless `active(true)` was called.
     */
    constructor Build(id: Option<int>, username: Option<string>, email: Option<string>,
                      passwordHash: Option<string>, role: Option<string>,
                      active: Option<bool>, locked: Option<bool>)
      ensures this.active == (active == Some(true)) && this.locked == (locked == Some(true))
      ensures this.id == id && this.username == username && this.email == email
      ensures this.passwordHash == passwordHash && this.role == role
      ensures createdAt.None? && updatedAt.None? && lastLoginAt.None?
    {
      this.id := id;
      this.username := username;
      this.email := email;
      this.passwordHash := passwordHash;
      this.role := role;
      this.active := active == Some(true);
      this.locked := locked == Some(true);
      createdAt := None;
      updatedAt := None;
      lastLoginAt := None;
    }

    /** `isAccountUsable`: the stored row of the entity is one the services accept. */
    predicate IsAccountUsable()
      reads this
      ensures Stored() ==> (IsAccountUsable() <==> Usable(Record()))
    {
      active && !locked
    }

    /** `onCreate` (before the first insert): both timestamps take the same instant. */
    method OnCreate(now: Millis)
      modifies this`createdAt, this`updatedAt
      ensures createdAt == Some(now) && updatedAt == Some(now)
    {
      createdAt := Some(now);
      updatedAt := Some(now);
    }

    /** `onUpdate` (before every update): only `updatedAt` moves. */
    method OnUpdate(now: Millis)
      modifies this`updatedAt
      ensures updatedAt == Some(now)
    {
      updatedAt := Some(now);
    }

    /** `markLoggedIn`: only `lastLoginAt` moves. */
    method MarkLoggedIn(now: Millis)
      modifies this`lastLoginAt
      ensures lastLoginAt == Some(now)
    {
      lastLoginAt := Some(now);
    }

    /** The entity is complete enough to be a stored row. */
    predicate Stored()
      reads this
    {
      id.Some? && username.Some? && email.Some? && passwordHash.Some? && role.Some?
    }

    /** The row this entity is stored as. */
    function Record(): (r: UserRecord)
      reads this
      requires Stored()
      ensures Usable(r) <==> active && !locked
    {
      UserRecord(id.value, username.value, email.value, passwordHash.value, role.value, active, locked)
    }
  }
}
