/**
 * `CustomUserDetailsService` and the two `UserRepository` finders the core
 * calls, over a snapshot of the `users` table (usernames are unique there).
 */
module UserDetailsLookup {
  import opened Common
  import opened UserEntity

  /** Usernames are unique in `users`. */
  predicate UniqueUsernames(users: seq<UserRecord>) {
    forall i, j :: 0 <= i < j < |users| ==> users[i].username != users[j].username
  }

  /** `findByUsername`: the user with that name; a null name finds nobody. */
  function FindByUsername(users: seq<UserRecord>, username: Option<string>): (r: Option<UserRecord>)
    ensures r.Some? ==> r.value in users && username == Some(r.value.username)
    ensures r.None? <==> username.None? || forall i :: 0 <= i < |users| ==> users[i].username != username.value
  {
    if username.None? || users == [] then None
    else if users[0].username == username.value then Some(users[0])
    else FindByUsername(users[1..], username)
  }

  /** `findById`: the user with that identity. */
  function FindById(users: seq<UserRecord>, id: int): (r: Option<UserRecord>)
    ensures r.Some? ==> r.value in users && r.value.id == id
    ensures r.None? <==> forall i :: 0 <= i < |users| ==> users[i].id != id
  {
    if users == [] then None
    else if users[0].id == id then Some(users[0])
    else FindById(users[1..], id)
  }

  /**
   * `loadUserByUsername`: an unknown name fails USER_NOT_FOUND; a locked
   * account fails ACCOUNT_LOCKED before an inactive one fails
   * ACCOUNT_DISABLED; otherwise the principal carries the user's fields.
   */
  function LoadUserByUsername(users: seq<UserRecord>, username: Option<string>): (r: Result<UserDetails>)
    ensures FindByUsername(users, username).None? ==> r == Err(UsernameNotFound("USER_NOT_FOUND"))
    ensures r.Ok? <==> FindByUsername(users, username).Some? && Usable(FindByUsername(users, username).value)
    ensures r.Ok? ==> r.value == DetailsOf(FindByUsername(users, username).value)
    ensures r.Ok? ==> r.value.active && !r.value.locked && username == Some(r.value.username)
    ensures r.Err? && FindByUsername(users, username).Some? ==>
      r.error == if FindByUsername(users, username).value.locked then Locked("ACCOUNT_LOCKED")
                 else Disabled("ACCOUNT_DISABLED")
  {
    match FindByUsername(users, username)
    case None => Err(UsernameNotFound("USER_NOT_FOUND"))
    case Some(user) =>
      if user.locked then Err(Locked("ACCOUNT_LOCKED"))
      else if !user.active then Err(Disabled("ACCOUNT_DISABLED"))
      else Ok(DetailsOf(user))
  }

  /** Under unique usernames, the lookup finds the one user with that name. */
  lemma {:induction false} FindByUsernameUnique(users: seq<UserRecord>, i: int)
    requires UniqueUsernames(users) && 0 <= i < |users|
    ensures FindByUsername(users, Some(users[i].username)) == Some(users[i])
  {
    if i > 0 {
      assert UniqueUsernames(users[1..]) by {
        forall a, b | 0 <= a < b < |users| - 1 ensures users[1..][a].username != users[1..][b].username {
          assert users[1..][a] == users[a + 1] && users[1..][b] == users[b + 1];
        }
      }
      FindByUsernameUnique(users[1..], i - 1);
      assert users[1..][i - 1] == users[i];
    }
  }
}
