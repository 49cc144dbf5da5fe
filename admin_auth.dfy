/**
 * The admin panel's session authentication: login stores a token in the
 * session for a user who authenticates and holds the admin role, logout
 * clears the session, and each request is let in only while the session's
 * token decodes to a payload whose role is the admin role.
 */
module AdminAuth {
  import opened Common
  import opened Credentials
  import opened UserModels
  import opened UserUtils

  /** The signed session cookie's contents, updated in place by login and logout. */
  class Session {
    var entries: map<string, string>

    constructor ()
      ensures entries == map[]
    {
      entries := map[];
    }
  }

  /** The login form: username and password. */
  datatype AdminForm = AdminForm(username: string, password: string)

  /** The claims an admin session token carries: the user's subject and role. */
  function AdminTokenClaims(user: User, now: Timestamp, sessionMinutes: int): (c: Claims)
    ensures Get(c, "sub") == Some(Text(user.username)) && Get(c, "role") == Some(Text(user.role))
    ensures c.Keys == {"sub", "role", "exp"}
    ensures c["exp"] == Instant(Expiry(now, Some(sessionMinutes * 60)))
  {
    AccessTokenClaims(IdentityClaims(user), Some(sessionMinutes * 60), now)
  }

  /**
   * `AdminAuth.authenticate` on the session's contents: false when there is no
   * token or it is empty, when it does not decode, or when its role is not the
   * admin role; true otherwise.
   */
  function Authenticated(entries: map<string, string>, codec: TokenCodec): (ok: bool)
    ensures "token" !in entries || entries["token"] == "" ==> !ok
    ensures "token" in entries && codec.decode(entries["token"]).None? ==> !ok
    ensures ok <==>
      && "token" in entries && entries["token"] != ""
      && codec.decode(entries["token"]).Some?
      && Get(codec.decode(entries["token"]).value, "role") == Some(Text(AdminRole))
  {
    if "token" !in entries || entries["token"] == "" then false
    else
      match codec.decode(entries["token"])
      case None => false
      case Some(payload) => Get(payload, "role") == Some(Text(AdminRole))
  }

  /** `AdminAuth.authenticate`: reads the session, changes nothing. */
  method Authenticate(session: Session, codec: TokenCodec) returns (ok: bool)
    ensures ok == Authenticated(session.entries, codec)
    ensures ok ==> "token" in session.entries
  {
    var token := if "token" in session.entries then session.entries["token"] else "";
    if token == "" {
      return false;
    }
    var payload := codec.decode(token);
    if payload.None? {
      return false;
    }
    ok := Get(payload.value, "role") == Some(Text(AdminRole));
  }

  /**
   * `AdminAuth.login`: false, with the session untouched, when the credentials
   * fail or the user is not an admin; otherwise the session's 'token' is set to
   * a token for the user that expires `sessionMinutes` after `now`, and the
   * result is true. With a codec that round-trips, the session then passes
   * `Authenticated`.
   */
  method Login(session: Session, users: seq<User>, hasher: Hasher, codec: TokenCodec,
               form: AdminForm, now: Timestamp, sessionMinutes: int)
    returns (ok: bool)
    modifies session
    ensures var user := AuthenticateUser(users, hasher, form.username, form.password);
      user.None? || user.value.role != AdminRole ==> !ok && session.entries == old(session.entries)
    ensures var user := AuthenticateUser(users, hasher, form.username, form.password);
      user.Some? && user.value.role == AdminRole ==>
        ok && session.entries == old(session.entries)["token" := codec.encode(AdminTokenClaims(user.value, now, sessionMinutes))]
    ensures ok && RoundTrips(codec) ==> Authenticated(session.entries, codec)
  {
    var user := AuthenticateUser(users, hasher, form.username, form.password);
    if user.None? || user.value.role != AdminRole {
      return false;
    }
    var token := CreateAccessToken(IdentityClaims(user.value), Some(sessionMinutes * 60), now, codec);
    session.entries := session.entries["token" := token];
    ok := true;
    if RoundTrips(codec) {
      var claims := AdminTokenClaims(user.value, now, sessionMinutes);
      assert codec.decode(codec.encode(claims)) == Some(claims) && codec.encode(claims) != "";
    }
  }

  /** `AdminAuth.logout`: the whole session is cleared and the result is true. */
  method Logout(session: Session) returns (ok: bool)
    modifies session
    ensures ok && session.entries == map[]
  {
    session.entries := map[];
    ok := true;
  }

  /** Right after logout no codec lets the session in. */
  lemma LoggedOutSessionRejected(codec: TokenCodec)
    ensures !Authenticated(map[], codec)
  {
  }

  /** A session whose token carries any role other than the admin role is refused, even a user's own valid token. */
  lemma NonAdminTokenRejected(entries: map<string, string>, codec: TokenCodec, user: User, now: Timestamp, minutes: int)
    requires RoundTrips(codec)
    requires user.role != AdminRole
    requires "token" in entries && entries["token"] == codec.encode(AdminTokenClaims(user, now, minutes))
    ensures !Authenticated(entries, codec)
  {
    var claims := AdminTokenClaims(user, now, minutes);
    assert codec.decode(codec.encode(claims)) == Some(claims);
  }
}
