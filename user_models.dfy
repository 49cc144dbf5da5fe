/**
 * The user tables: users and their profiles, with the columns' UNIQUE,
 * NOT NULL, length and default settings, and the insert that enforces them.
 */
module UserModels {
  import opened Common
  import opened Tables
  import opened Credentials

  /**
   * A row of `users`. The password column is NOT NULL and holds a digest;
   * `role` is one of the role values and is `UserRole` unless given.
   */
  datatype User = User(
    id: int,
    username: string,
    email: string,
    password: string,
    role: string,
    createdAt: Timestamp,
    updatedAt: Timestamp)

  /** A row of `profiles`; the description may be null. */
  datatype Profile = Profile(id: int, userId: int, description: Option<string>)

  // Table keys.
  function UserId(u: User): int { u.id }
  function Username(u: User): string { u.username }
  function Email(u: User): string { u.email }
  function ProfileId(p: Profile): int { p.id }
  function ProfileUserId(p: Profile): int { p.userId }

  /** The column widths: `String(120)`, `String(256)`, `String(256)`, `String(32)`. */
  predicate ValidUser(u: User)
  {
    |u.username| <= 120 && |u.email| <= 256 && |u.password| <= 256 && |u.role| <= 32
  }

  /** Unique ids, usernames and emails, and every row within its column widths. */
  predicate UsersValid(users: seq<User>)
  {
    && UniqueBy(users, UserId)
    && UniqueBy(users, Username)
    && UniqueBy(users, Email)
    && forall i :: 0 <= i < |users| ==> ValidUser(users[i])
  }

  /** Unique ids, at most one profile per user (`unique=True` on `user_id`), and the foreign key to `users`. */
  predicate ProfilesValid(profiles: seq<Profile>, users: seq<User>)
  {
    && UniqueBy(profiles, ProfileId)
    && UniqueBy(profiles, ProfileUserId)
    && forall i :: 0 <= i < |profiles| ==> !KeyAbsent(users, UserId, profiles[i].userId)
  }

  /** A user row built from the registration data: the role takes its default. */
  function NewUser(id: int, username: string, email: string, digest: string, now: Timestamp): (u: User)
    ensures u.role == UserRole
  {
    User(id, username, email, digest, UserRole, now, now)
  }

  /** The constraints the database checks when one user row is inserted. */
  predicate AdmitsUser(users: seq<User>, user: User)
  {
    && ValidUser(user)
    && KeyAbsent(users, UserId, user.id)
    && KeyAbsent(users, Username, user.username)
    && KeyAbsent(users, Email, user.email)
  }

  /** Inserting and committing one user, or the database's refusal (`None`). */
  function InsertUser(users: seq<User>, user: User): (r: Option<seq<User>>)
    requires UsersValid(users)
    ensures r.Some? <==> AdmitsUser(users, user)
    ensures r.Some? ==> r.value == users + [user] && UsersValid(r.value)
  {
    if AdmitsUser(users, user) then
      UniqueAppend(users, UserId, user);
      UniqueAppend(users, Username, user);
      UniqueAppend(users, Email, user);
      Some(users + [user])
    else
      None
  }

  /** The constraints the database checks when one profile row is inserted. */
  predicate AdmitsProfile(profiles: seq<Profile>, users: seq<User>, profile: Profile)
  {
    && KeyAbsent(profiles, ProfileId, profile.id)
    && KeyAbsent(profiles, ProfileUserId, profile.userId)
    && !KeyAbsent(users, UserId, profile.userId)
  }

  /** Inserting and committing one profile, or the database's refusal (`None`). */
  function InsertProfile(profiles: seq<Profile>, users: seq<User>, profile: Profile): (r: Option<seq<Profile>>)
    requires ProfilesValid(profiles, users)
    ensures r.Some? <==> AdmitsProfile(profiles, users, profile)
    ensures r.Some? ==> r.value == profiles + [profile] && ProfilesValid(r.value, users)
  {
    if AdmitsProfile(profiles, users, profile) then
      UniqueAppend(profiles, ProfileId, profile);
      UniqueAppend(profiles, ProfileUserId, profile);
      Some(profiles + [profile])
    else
      None
  }

  /** Growing the users table keeps the profiles' foreign keys satisfied. */
  lemma {:induction false} ProfilesStayValid(profiles: seq<Profile>, users: seq<User>, user: User)
    requires ProfilesValid(profiles, users)
    ensures ProfilesValid(profiles, users + [user])
  {
    forall i | 0 <= i < |profiles|
      ensures !KeyAbsent(users + [user], UserId, profiles[i].userId)
    {
      var j :| 0 <= j < |users| && UserId(users[j]) == profiles[i].userId;
      assert (users + [user])[j] == users[j];
    }
  }

  /** Each user has at most one profile. */
  lemma ProfileAtMostOne(profiles: seq<Profile>, users: seq<User>, userId: int)
    requires ProfilesValid(profiles, users)
    ensures Count(profiles, ProfileUserId, userId) <= 1
  {
    UniqueCountAtMostOne(profiles, ProfileUserId, userId);
  }

  /** No two users share a username, and no two share an email. */
  lemma UsersDistinct(users: seq<User>, i: int, j: int)
    requires UsersValid(users)
    requires 0 <= i < j < |users|
    ensures users[i].username != users[j].username && users[i].email != users[j].email
  {
    assert Username(users[i]) != Username(users[j]);
    assert Email(users[i]) != Email(users[j]);
  }
}
