/**
 * The credential collaborators the services consume without reimplementing
 * them: the password hasher (bcrypt through passlib) and the token codec
 * (JWT). Each is a record of uninterpreted functions handed to the
 * operations as a parameter, so every property proved below holds for any
 * hasher and any codec. Also the role values stored in `users.role`.
 */
module Credentials {
  import opened Common

  /** A JSON value inside a token payload, as far as the services look at it. */
  datatype ClaimValue = Text(text: string) | Instant(at: Timestamp) | Null

  /** A token payload (a Python dict from claim name to value). */
  type Claims = map<string, ClaimValue>

  /**
   * The password hasher. `hash` answers `None` when the library raises instead
   * of returning a digest (passlib refuses a `None` secret, for one); its
   * argument is optional because one caller hands it an absent password.
   */
  datatype Hasher = Hasher(hash: Option<string> -> Option<string>, verify: (string, string) -> bool)

  /**
   * The token codec. `decode` answers `None` when the library raises
   * InvalidTokenError (bad signature, malformed, expired).
   */
  datatype TokenCodec = TokenCodec(encode: Claims -> string, decode: string -> Option<Claims>)

  /** The values of the role enumeration stored in `users.role`. */
  const UserRole: string := "user"
  const AdminRole: string := "admin"

  /** Python's `payload.get(key)`: `None` for a missing key and for a JSON null alike. */
  function Get(payload: Claims, key: string): (r: Option<ClaimValue>)
    ensures r.None? <==> key !in payload || payload[key] == Null
    ensures r.Some? ==> r.value == payload[key] && r.value != Null
  {
    if key in payload && payload[key] != Null then Some(payload[key]) else None
  }

  /**
   * What a caller may assume when it needs the hasher to accept what it
   * produced: `verify(p, d)` holds for every digest `d` that `hash` gave for `p`.
   * Like `RoundTrips`, only lemmas name it, as a hypothesis.
   */
  ghost predicate VerifiesOwnDigests(hasher: Hasher)
  {
    forall p, d :: hasher.hash(Some(p)) == Some(d) ==> hasher.verify(p, d)
  }

  /**
   * What a caller may assume when it needs the codec to read back what it
   * wrote: decoding an encoded payload gives the payload, and an encoded token
   * is never the empty string. The services never assume this; only lemmas that
   * relate a login to a later check name it as a hypothesis.
   */
  ghost predicate RoundTrips(codec: TokenCodec)
  {
    forall c :: codec.decode(codec.encode(c)) == Some(c) && codec.encode(c) != ""
  }
}
