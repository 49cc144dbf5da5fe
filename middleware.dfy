/**
 * The authentication middleware: every request is either forwarded untouched
 * or refused with a credentials error. Public routes (an exact list) and
 * everything under `/admin` pass without a token; any other request needs an
 * `Authorization` header whose token decodes to a payload with a subject.
 */
module Middleware {
  import opened Common
  import opened Credentials

  /** The routes that need no token, matched exactly. */
  const PublicRoutes: seq<string> := ["/", "/token", "/users", "/docs", "/openapi.json", "/favicon.ico"]

  /** What the middleware looks at in a request: its path and its `Authorization` header. */
  datatype Request = Request(path: string, authorization: Option<string>)

  /** What becomes of a request. */
  datatype Verdict = Forwarded(request: Request) | CredentialsRejected

  /** A path that passes without a token: one of the public routes exactly, or anything starting with `/admin`. */
  predicate IsPublic(path: string)
  {
    path in PublicRoutes || StartsWith(path, "/admin")
  }

  /**
   * The token taken from the header: a value starting with `Bearer` loses its
   * first seven characters (the scheme and one separator, as in section 2.1
   * of RFC 6750); any other value is used as it is.
   */
  function BearerToken(header: string): (token: string)
    ensures StartsWith(header, "Bearer") ==> token == DropPrefix(header, 7)
    ensures !StartsWith(header, "Bearer") ==> token == header
    ensures |token| <= |header|
  {
    if StartsWith(header, "Bearer") then DropPrefix(header, 7) else header
  }

  /** A well-formed `Bearer <token>` header yields exactly its token. */
  lemma {:induction false} BearerHeaderYieldsToken(token: string)
    ensures BearerToken("Bearer " + token) == token
  {
    var header := "Bearer " + token;
    assert header[..6] == "Bearer";
    assert header[7..] == token;
  }

  /** The prefix test is on `Bearer` alone: a header with no separator still loses seven characters. */
  lemma BearerWithoutSpace()
    ensures BearerToken("Bearer") == ""
    ensures BearerToken("Bearerabc") == "bc"
    ensures BearerToken("bearer abc") == "bearer abc"
  {
    assert "Bearer"[..6] == "Bearer";
    assert "Bearerabc"[..6] == "Bearer";
    assert "Bearerabc"[7..] == "bc";
    assert "bearer abc"[..6] != "Bearer" by { assert "bearer abc"[0] != "Bearer"[0]; }
  }

  /**
   * `AuthenticationMiddleware.dispatch`. A forwarded request is the request
   * itself, unchanged.
   */
  function Dispatch(request: Request, codec: TokenCodec): (v: Verdict)
    ensures IsPublic(request.path) ==> v == Forwarded(request)
    ensures !IsPublic(request.path) && (request.authorization.None? || request.authorization == Some("")) ==>
      v == CredentialsRejected
    ensures !IsPublic(request.path) && request.authorization.Some? && request.authorization.value != "" ==>
      (v.Forwarded? <==>
        && codec.decode(BearerToken(request.authorization.value)).Some?
        && Get(codec.decode(BearerToken(request.authorization.value)).value, "sub").Some?)
    ensures v.Forwarded? ==> v.request == request
  {
    if IsPublic(request.path) then Forwarded(request)
    else if request.authorization.None? || request.authorization.value == "" then CredentialsRejected
    else
      match codec.decode(BearerToken(request.authorization.value))
      case None => CredentialsRejected
      case Some(payload) => if Get(payload, "sub").None? then CredentialsRejected else Forwarded(request)
  }

  /** Public matching is exact: the profile route lies under `/users` but still needs a token. */
  lemma ProfileRouteNeedsToken(codec: TokenCodec)
    ensures !IsPublic("/users/profile")
    ensures Dispatch(Request("/users/profile", None), codec) == CredentialsRejected
  {
    assert "/users/profile"[..6] != "/admin" by { assert "/users/profile"[1] != "/admin"[1]; }
    assert "/users/profile" !in PublicRoutes by {
      forall i | 0 <= i < |PublicRoutes| ensures PublicRoutes[i] != "/users/profile" {
        assert |PublicRoutes[i]| != |"/users/profile"|;
      }
    }
  }

  /** Every path under `/admin` passes whatever its headers, with or without a token. */
  lemma AdminPathsPass(suffix: string, authorization: Option<string>, codec: TokenCodec)
    ensures Dispatch(Request("/admin" + suffix, authorization), codec) == Forwarded(Request("/admin" + suffix, authorization))
  {
    assert ("/admin" + suffix)[..6] == "/admin";
  }

  /**
   * A token that carries a subject and is read back by a round-tripping codec
   * gets its request through when sent as `Bearer <token>`.
   */
  lemma SubjectTokenPasses(request: Request, codec: TokenCodec, claims: Claims)
    requires RoundTrips(codec)
    requires Get(claims, "sub").Some?
    requires request.authorization == Some("Bearer " + codec.encode(claims))
    ensures Dispatch(request, codec) == Forwarded(request)
  {
    BearerHeaderYieldsToken(codec.encode(claims));
  }
}
