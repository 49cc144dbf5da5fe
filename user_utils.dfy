/**
 * Authentication helpers: looking a user up by username, checking a
 * password, issuing an access token and resolving a bearer token to its user.
 * The hasher and the token codec are parameters (see `Credentials`).
 */
module UserUtils {
  import opened Common
  import opened Tables
  import opened Credentials
  import opened UserModels

  /** The lifetime of a token issued without a (truthy) lifetime: 30 minutes, in seconds. */
  const DefaultTokenLifetime: int := 30 * 60

  /** Why a bearer token does not resolve to a user. */
  datatype AuthError =
    | CredentialsInvalid // CredentialsException: the client sees 401
    | SubjectNotText     // the token's 'sub' is not a string; TokenData refuses it and nothing catches that

  /** `get_user`: the user with that username, if any. */
  function GetUser(users: seq<User>, username: string): (r: Option<User>)
    ensures r.None? <==> KeyAbsent(users, Username, username)
    ensures r.Some? ==> r.value in users && r.value.username == username
  {
    Find(users, Username, username)
  }

  /**
   * `authenticate_user`: no user when the username is unknown or the password
   * does not verify against the stored digest; otherwise the looked-up user.
   */
  function AuthenticateUser(users: seq<User>, hasher: Hasher, username: string, password: string): (r: Option<User>)
    ensures KeyAbsent(users, Username, username) ==> r.None?
    ensures GetUser(users, username).Some? && !hasher.verify(password, GetUser(users, username).value.password) ==> r.None?
    ensures GetUser(users, username).Some? && hasher.verify(password, GetUser(users, username).value.password) ==>
      r == GetUser(users, username)
    ensures r.Some? ==> r == GetUser(users, username) && hasher.verify(password, r.value.password)
  {
    var user := GetUser(users, username);
    if user.None? then None
    else if !hasher.verify(password, user.value.password) then None
    else user
  }

  /** With unique usernames, authentication succeeds exactly for a stored user whose digest verifies the password. */
  lemma AuthenticateUserIff(users: seq<User>, hasher: Hasher, username: string, password: string)
    requires UsersValid(users)
    ensures AuthenticateUser(users, hasher, username, password).Some? <==>
      exists u :: u in users && u.username == username && hasher.verify(password, u.password)
  {
    if u :| u in users && u.username == username && hasher.verify(password, u.password) {
      FindUnique(users, Username, u);
    }
  }

  /** The expiry instant: `now + delta` when the delta is truthy (non-zero), otherwise `now` plus 30 minutes. */
  function Expiry(now: Timestamp, expiresDelta: Option<int>): (t: Timestamp)
    ensures expiresDelta.Some? && expiresDelta.value != 0 ==> t == now + expiresDelta.value
    ensures expiresDelta.None? || expiresDelta == Some(0) ==> t == now + DefaultTokenLifetime
  {
    if expiresDelta.Some? && expiresDelta.value != 0 then now + expiresDelta.value else now + DefaultTokenLifetime
  }

  /**
   * The payload `create_access_token` encodes: the caller's claims plus 'exp',
   * which replaces any 'exp' the caller gave. The caller's own map is a value
   * and is left as it was.
   */
  function AccessTokenClaims(data: Claims, expiresDelta: Option<int>, now: Timestamp): (c: Claims)
    ensures c.Keys == data.Keys + {"exp"}
    ensures c["exp"] == Instant(Expiry(now, expiresDelta))
    ensures forall k :: k in data && k != "exp" ==> c[k] == data[k]
  {
    data["exp" := Instant(Expiry(now, expiresDelta))]
  }

  /** `create_access_token`: copy the claims, set the expiry on the copy, encode it. */
  method CreateAccessToken(data: Claims, expiresDelta: Option<int>, now: Timestamp, codec: TokenCodec)
    returns (token: string)
    ensures token == codec.encode(AccessTokenClaims(data, expiresDelta, now))
  {
    var toEncode := data;
    var expire := Expiry(now, expiresDelta);
    toEncode := toEncode["exp" := Instant(expire)];
    token := codec.encode(toEncode);
  }

  /** The claims issued for a user at login: subject and role. */
  function IdentityClaims(user: User): (c: Claims)
    ensures Get(c, "sub") == Some(Text(user.username)) && Get(c, "role") == Some(Text(user.role))
  {
    map["sub" := Text(user.username), "role" := Text(user.role)]
  }

  /**
   * `get_current_user`: decode the token, read its subject, look that
   * username up. A token that does not decode, has no subject, or names no
   * stored user is refused as bad credentials.
   */
  function GetCurrentUser(users: seq<User>, codec: TokenCodec, token: string): (r: Result<User, AuthError>)
    ensures codec.decode(token).None? ==> r == Err(CredentialsInvalid)
    ensures codec.decode(token).Some? && Get(codec.decode(token).value, "sub").None? ==> r == Err(CredentialsInvalid)
    ensures r.Ok? <==>
      && codec.decode(token).Some?
      && Get(codec.decode(token).value, "sub").Some?
      && Get(codec.decode(token).value, "sub").value.Text?
      && !KeyAbsent(users, Username, Get(codec.decode(token).value, "sub").value.text)
    ensures r.Ok? ==> r.value in users && Get(codec.decode(token).value, "sub") == Some(Text(r.value.username))
    ensures codec.decode(token).Some? && Get(codec.decode(token).value, "sub").Some?
            && Get(codec.decode(token).value, "sub").value.Text?
            && KeyAbsent(users, Username, Get(codec.decode(token).value, "sub").value.text) ==>
      r == Err(CredentialsInvalid)
    ensures codec.decode(token).Some? && Get(codec.decode(token).value, "sub").Some?
            && !Get(codec.decode(token).value, "sub").value.Text? ==>
      r == Err(SubjectNotText)
  {
    match codec.decode(token)
    case None => Err(CredentialsInvalid)
    case Some(payload) =>
      match Get(payload, "sub")
      case None => Err(CredentialsInvalid)
      case Some(Text(username)) =>
        (match GetUser(users, username)
         case None => Err(CredentialsInvalid)
         case Some(user) => Ok(user))
      case Some(_) => Err(SubjectNotText)
  }

  /**
   * A token issued with a user's identity claims, read back by a codec that
   * round-trips, resolves to that same user.
   */
  lemma IssuedTokenResolves(users: seq<User>, codec: TokenCodec, user: User, expiresDelta: Option<int>, now: Timestamp)
    requires UsersValid(users) && user in users
    requires RoundTrips(codec)
    ensures GetCurrentUser(users, codec, codec.encode(AccessTokenClaims(IdentityClaims(user), expiresDelta, now))) == Ok(user)
  {
    var claims := AccessTokenClaims(IdentityClaims(user), expiresDelta, now);
    assert codec.decode(codec.encode(claims)) == Some(claims);
    assert Get(claims, "sub") == Some(Text(user.username));
    FindUnique(users, Username, user);
  }
}
