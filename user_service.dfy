/**
 * The user service: registration, login, and a user's profile. The store is
 * an object holding the users and profiles tables; registration and profile
 * creation insert into it, login and profile lookup only read it.
 */
module UserService {
  import opened Common
  import opened Tables
  import opened Credentials
  import opened UserModels
  import opened UserSchemas
  import opened UserUtils

  datatype UserResponse = UserResponse(id: int, username: string, email: string)

  datatype Token = Token(accessToken: string, tokenType: string)

  /** The login form: username and password. */
  datatype LoginForm = LoginForm(username: string, password: string)

  datatype ProfileCreateRequest = ProfileCreateRequest(description: Option<string>)

  /** The keyword arguments the service hands to the profile response schema. */
  datatype ProfileResponseFields = ProfileResponseFields(
    id: int,
    userId: int,
    description: Option<string>,
    createdAt: Option<Timestamp>,
    updatedAt: Option<Timestamp>)

  /** A profile response the schema accepts: every declared field is present. */
  datatype ProfileResponse = ProfileResponse(
    id: int,
    userId: int,
    description: Option<string>,
    createdAt: Timestamp,
    updatedAt: Timestamp)

  /** Why a user-service call ends without a response. */
  datatype UserError =
    | UserExists          // 'UserExists'
    | MultipleRowsFound   // the registration query matched two users; nothing catches it
    | InsertFailed        // raised inside the registration insert and turned into a 500
    | BadCredentials      // CredentialsException
    | ProfileExists       // 'ProfileExists'
    | ProfileNotFound     // 'ProfileNotFound'
    | InsertRefused       // the database refused the profile row at commit; nothing catches it
    | ResponseInvalid(missing: set<string>) // the response schema refused its arguments
  {
    /** The HTTP status the client sees. */
    function Status(): nat
    {
      match this
      case UserExists => 400
      case ProfileExists => 400
      case BadCredentials => 401
      case ProfileNotFound => 404
      case _ => 500
    }
  }

  /** The users the registration query selects: those with the same username or the same email. */
  function Matching(users: seq<User>, username: string, email: string): (m: seq<User>)
    ensures forall u :: u in m <==> u in users && (u.username == username || u.email == email)
    ensures |m| <= |users|
    ensures |m| == Count(users, (u: User) => u.username == username || u.email == email, true)
  {
    if users == [] then []
    else
      var rest := Matching(users[1..], username, email);
      assert forall u :: u in users <==> u == users[0] || u in users[1..];
      if users[0].username == username || users[0].email == email then [users[0]] + rest else rest
  }

  /** When the query selects nobody, both the username and the email are free. */
  lemma NoMatchMeansFree(users: seq<User>, username: string, email: string)
    requires Matching(users, username, email) == []
    ensures KeyAbsent(users, Username, username) && KeyAbsent(users, Email, email)
  {
    forall i | 0 <= i < |users|
      ensures Username(users[i]) != username && Email(users[i]) != email
    {
      assert users[i] in users;
      assert users[i] !in Matching(users, username, email);
    }
  }

  /** The arguments the service passes to the profile response schema: the stored row, no timestamps. */
  function ProfileResponseFieldsOf(p: Profile): (f: ProfileResponseFields)
    ensures f.id == p.id && f.userId == p.userId && f.description == p.description
    ensures f.createdAt.None? && f.updatedAt.None?
  {
    ProfileResponseFields(p.id, p.userId, p.description, None, None)
  }

  /** Pydantic's validation of the profile response: it refuses arguments that lack a declared field. */
  function ValidateProfileResponse(f: ProfileResponseFields): (r: Result<ProfileResponse, set<string>>)
    ensures r.Ok? <==> f.createdAt.Some? && f.updatedAt.Some?
    ensures r.Err? ==> r.error == MissingTimestamps(f.createdAt, f.updatedAt) && r.error != {}
    ensures r.Ok? ==> r.value.id == f.id && r.value.userId == f.userId && r.value.description == f.description
  {
    if f.createdAt.Some? && f.updatedAt.Some? then
      Ok(ProfileResponse(f.id, f.userId, f.description, f.createdAt.value, f.updatedAt.value))
    else
      Err(MissingTimestamps(f.createdAt, f.updatedAt))
  }

  /** The users and profiles tables, and the ids the next inserted rows receive. */
  class UserStore {
    var users: seq<User>
    var profiles: seq<Profile>
    var nextUserId: int
    var nextProfileId: int

    /** Every table constraint holds, and each next id is above every stored id. */
    ghost predicate Valid()
      reads this
    {
      && UsersValid(users)
      && ProfilesValid(profiles, users)
      && (forall i :: 0 <= i < |users| ==> users[i].id < nextUserId)
      && (forall i :: 0 <= i < |profiles| ==> profiles[i].id < nextProfileId)
    }

    constructor ()
      ensures Valid() && users == [] && profiles == []
    {
      users, profiles := [], [];
      nextUserId, nextProfileId := 1, 1;
    }

    /**
     * `UserService.create`. A user whose username or email is taken is refused
     * with 'UserExists' (when the query selects two different users,
     * `scalar_one_or_none` raises first). Otherwise the password is hashed and
     * one user is inserted with the digest, never the plain password, and the
     * default role; anything raised while hashing or inserting becomes a 500.
     */
    method Create(request: UserCreateRequest, hasher: Hasher, now: Timestamp) returns (r: Result<UserResponse, UserError>)
      requires Valid()
      modifies this`users, this`nextUserId
      ensures Valid() && profiles == old(profiles)
      ensures |Matching(old(users), request.username, request.email)| > 1 ==>
        r == Err(MultipleRowsFound) && users == old(users)
      ensures |Matching(old(users), request.username, request.email)| == 1 ==>
        r == Err(UserExists) && users == old(users)
      ensures Matching(old(users), request.username, request.email) == [] && hasher.hash(Some(request.password)).None? ==>
        r == Err(InsertFailed) && users == old(users)
      ensures Matching(old(users), request.username, request.email) == [] && hasher.hash(Some(request.password)).Some? ==>
        var user := NewUser(old(nextUserId), request.username, request.email, hasher.hash(Some(request.password)).value, now);
        if ValidUser(user) then
          && users == old(users) + [user]
          && nextUserId == old(nextUserId) + 1
          && r == Ok(UserResponse(user.id, request.username, request.email))
        else
          r == Err(InsertFailed) && users == old(users)
      ensures r.Ok? <==> users != old(users)
      ensures r.Ok? ==>
        && |users| == |old(users)| + 1
        && users[|old(users)|].password == hasher.hash(Some(request.password)).value
        && users[|old(users)|].role == UserRole
        && users[|old(users)|].id == r.value.id
        && r.value.username == request.username && r.value.email == request.email
    {
      var found := Matching(users, request.username, request.email);
      if |found| > 1 {
        return Err(MultipleRowsFound);
      }
      if |found| == 1 {
        return Err(UserExists);
      }
      NoMatchMeansFree(users, request.username, request.email);
      var digest := hasher.hash(Some(request.password));
      if digest.None? {
        return Err(InsertFailed);
      }
      var user := NewUser(nextUserId, request.username, request.email, digest.value, now);
      var inserted := InsertUser(users, user);
      if inserted.None? {
        return Err(InsertFailed);
      }
      ProfilesStayValid(profiles, users, user);
      users, nextUserId := inserted.value, nextUserId + 1;
      r := Ok(UserResponse(user.id, user.username, user.email));
    }

    /**
     * `UserService.login`: bad credentials when authentication fails;
     * otherwise a bearer token whose claims are the user's subject and role,
     * expiring `accessTokenExpireMinutes` after `now` (30 minutes when that
     * setting is zero). With a codec that round-trips, the token resolves
     * back to the user who logged in.
     */
    method Login(form: LoginForm, hasher: Hasher, codec: TokenCodec, now: Timestamp, accessTokenExpireMinutes: int)
      returns (r: Result<Token, UserError>)
      ensures AuthenticateUser(users, hasher, form.username, form.password).None? ==> r == Err(BadCredentials)
      ensures AuthenticateUser(users, hasher, form.username, form.password).Some? ==>
        var user := AuthenticateUser(users, hasher, form.username, form.password).value;
        r == Ok(Token(codec.encode(AccessTokenClaims(IdentityClaims(user), Some(accessTokenExpireMinutes * 60), now)), "bearer"))
      ensures r.Ok? && UsersValid(users) && RoundTrips(codec) ==>
        exists u :: u in users && u.username == form.username && GetCurrentUser(users, codec, r.value.accessToken) == Ok(u)
    {
      var user := AuthenticateUser(users, hasher, form.username, form.password);
      if user.None? {
        return Err(BadCredentials);
      }
      var accessToken := CreateAccessToken(IdentityClaims(user.value), Some(accessTokenExpireMinutes * 60), now, codec);
      r := Ok(Token(accessToken, "bearer"));
      if UsersValid(users) && RoundTrips(codec) {
        IssuedTokenResolves(users, codec, user.value, Some(accessTokenExpireMinutes * 60), now);
      }
    }

    /**
     * `UserService.create_profile`: a user who already has a profile is
     * refused with 'ProfileExists'; otherwise one profile is inserted for that
     * user's id. The insert is refused when the user is not stored (foreign
     * key). Once committed, the response schema refuses its arguments (no
     * timestamps), so the client sees an error although the profile is stored.
     */
    method CreateProfile(request: ProfileCreateRequest, user: User) returns (r: Result<ProfileResponse, UserError>)
      requires Valid()
      modifies this`profiles, this`nextProfileId
      ensures Valid() && users == old(users)
      ensures !KeyAbsent(old(profiles), ProfileUserId, user.id) ==>
        r == Err(ProfileExists) && profiles == old(profiles)
      ensures KeyAbsent(old(profiles), ProfileUserId, user.id) ==>
        var profile := Profile(old(nextProfileId), user.id, request.description);
        if !KeyAbsent(users, UserId, user.id) then
          && profiles == old(profiles) + [profile]
          && nextProfileId == old(nextProfileId) + 1
          && r == Err(ResponseInvalid({"created_at", "updated_at"}))
        else
          r == Err(InsertRefused) && profiles == old(profiles)
      ensures r.Err?
      ensures Count(profiles, ProfileUserId, user.id) <= 1
    {
      var existing := Find(profiles, ProfileUserId, user.id);
      if existing.Some? {
        r := Err(ProfileExists);
      } else {
        var profile := Profile(nextProfileId, user.id, request.description);
        var inserted := InsertProfile(profiles, users, profile);
        if inserted.None? {
          r := Err(InsertRefused);
        } else {
          profiles, nextProfileId := inserted.value, nextProfileId + 1;
          var response := ValidateProfileResponse(ProfileResponseFieldsOf(profile));
          r := match response
            case Ok(body) => Ok(body)
            case Err(missing) => Err(ResponseInvalid(missing));
        }
      }
      ProfileAtMostOne(profiles, users, user.id);
    }

    /**
     * `UserService.get_profile`: 'ProfileNotFound' when the user has no
     * profile. Otherwise the service hands that profile's fields unchanged to
     * the response schema, which refuses them for lacking timestamps.
     */
    method GetProfile(user: User) returns (r: Result<ProfileResponse, UserError>)
      requires Valid()
      ensures KeyAbsent(profiles, ProfileUserId, user.id) ==> r == Err(ProfileNotFound)
      ensures !KeyAbsent(profiles, ProfileUserId, user.id) ==> r == Err(ResponseInvalid({"created_at", "updated_at"}))
    {
      var profile := Find(profiles, ProfileUserId, user.id);
      if profile.None? {
        return Err(ProfileNotFound);
      }
      var fields := ProfileResponseFieldsOf(profile.value);
      var response := ValidateProfileResponse(fields);
      r := match response
        case Ok(body) => Ok(body)
        case Err(missing) => Err(ResponseInvalid(missing));
    }
  }

  /** The profile lookup finds the user's one profile. */
  lemma ProfileLookup(profiles: seq<Profile>, users: seq<User>, p: Profile)
    requires ProfilesValid(profiles, users) && p in profiles
    ensures Find(profiles, ProfileUserId, p.userId) == Some(p)
  {
    FindUnique(profiles, ProfileUserId, p);
  }

  /**
   * Registration and login fit together: a user stored with the digest of a
   * password can authenticate with that password whenever the hasher's
   * `verify` accepts the hasher's own digests.
   */
  lemma RegisteredUserAuthenticates(users: seq<User>, hasher: Hasher, user: User, password: string)
    requires UsersValid(users) && user in users
    requires hasher.hash(Some(password)) == Some(user.password)
    requires VerifiesOwnDigests(hasher)
    ensures AuthenticateUser(users, hasher, user.username, password) == Some(user)
  {
    FindUnique(users, Username, user);
  }
}
