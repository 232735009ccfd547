/** Request authentication and role gates: the bearer-token check that runs in
    front of every protected route, and the two role checks that follow it.
    Verifying a token's signature is the parameter `parse`, which yields the
    token's claims when the signature is good and None otherwise; `now` is
    the current instant in seconds. */
module Middleware {
  import opened Text
  import opened AppErrors
  import opened Auth

  /** What the authentication step decides: let the request through with the
      caller's id and role, or answer with a status and an error message. */
  datatype Decision = Accept(userId: nat, role: string) | Reject(status: int, message: string)

  /** What a role gate decides. */
  datatype Gate = Pass | Deny(status: int, message: string)

  /** The token in an Authorization header: the header must split on single
      spaces into exactly two pieces, the first being "bearer" in any case. */
  function BearerToken(header: string): Option<string> {
    var parts := Split(header, ' ');
    if |parts| == 2 && ToLower(parts[0]) == "bearer" then Some(parts[1]) else None
  }

  /** A recognised header is the scheme word, one space and a token without
      spaces; and every such header is recognised, giving that token back. */
  lemma BearerTokenRoundTrip(header: string, scheme: string, token: string)
    ensures BearerToken(header).Some? ==>
              && |header| > 6 && ToLower(header[..6]) == "bearer" && header[6] == ' '
              && BearerToken(header).value == header[7..] && ' ' !in header[7..]
    ensures ToLower(scheme) == "bearer" && ' ' !in token ==> BearerToken(scheme + " " + token) == Some(token)
  {
    var parts := Split(header, ' ');
    if |parts| == 2 && ToLower(parts[0]) == "bearer" {
      SplitJoin(header, ' ');
      assert Join(parts, ' ') == parts[0] + [' '] + parts[1];
      assert |parts[0]| == 6;
      assert header[..6] == parts[0];
      assert header[7..] == parts[1];
    }
    if ToLower(scheme) == "bearer" && ' ' !in token {
      var h := scheme + " " + token;
      assert |scheme| == 6;
      assert ' ' !in scheme by {
        forall i | 0 <= i < |scheme| ensures scheme[i] != ' ' {
          assert LowerChar(scheme[i]) == "bearer"[i];
        }
      }
      assert ' ' in h by { assert h[6] == ' '; }
      var i := IndexOf(h, ' ');
      assert h[..6] == scheme;
      assert i == 6;
      assert h[7..] == token;
      assert Split(h, ' ') == [scheme, token];
    }
  }

  /** The time checks a signed token must pass: an expiry, when present, must
      be a number still in the future; a not-before, when present, a number
      already reached. The issued-at claim is not checked. */
  predicate TimeValid(claims: Claims, now: int) {
    && ("exp" in claims ==> claims["exp"].Num? && now < claims["exp"].n)
    && ("nbf" in claims ==> claims["nbf"].Num? && now >= claims["nbf"].n)
  }

  /** Authenticates a request from its Authorization header against the user
      table. The checks run in order: header present, bearer format, signature
      and time, a numeric user id, a numeric version, a known user, the version
      equal to the user's current one, a string role. */
  function JWTAuth(header: string, now: int, parse: string -> Option<Claims>, users: map<nat, User>): (d: Decision)
    ensures d.Reject? ==> d.status == 401
    ensures header == "" ==> d == Reject(401, "authorization header missing")
    ensures header != "" && BearerToken(header).None? ==> d == Reject(401, "invalid authorization format")
    ensures d.Accept? ==>
              && BearerToken(header).Some?
              && parse(BearerToken(header).value).Some?
              && var c := parse(BearerToken(header).value).value;
              && TimeValid(c, now)
              && d.userId in users
              && "user_id" in c && c["user_id"] == Num(d.userId)
              && "ver" in c && c["ver"] == Num(users[d.userId].tokenVersion)
              && "role" in c && c["role"] == Str(d.role)
  {
    if header == "" then Reject(401, "authorization header missing")
    else match BearerToken(header)
      case None => Reject(401, "invalid authorization format")
      case Some(token) =>
        match parse(token)
        case None => Reject(401, "invalid or expired token")
        case Some(c) =>
          if !TimeValid(c, now) then Reject(401, "invalid or expired token")
          else if "user_id" !in c || !c["user_id"].Num? then Reject(401, "invalid token payload (user_id)")
          else if "ver" !in c || !c["ver"].Num? then Reject(401, "token version missing")
          else if c["user_id"].n < 0 || c["user_id"].n !in users then Reject(401, "user not found")
          else if c["ver"].n != users[c["user_id"].n].tokenVersion then Reject(401, "token has been revoked")
          else if "role" !in c || !c["role"].Str? then Reject(401, "invalid token payload (role)")
          else Accept(c["user_id"].n, c["role"].s)
  }

  /** A refresh token carries no version, so it never authenticates a request. */
  lemma RefreshTokenIsNeverAccepted(header: string, now: int, parse: string -> Option<Claims>,
                                    users: map<nat, User>, u: User, issuedAt: int, jti: string)
    requires BearerToken(header).Some? && parse(BearerToken(header).value) == Some(RefreshClaims(u, issuedAt, jti))
    ensures JWTAuth(header, now, parse, users).Reject?
  {
    var c := RefreshClaims(u, issuedAt, jti);
    assert "ver" !in c;
  }

  /** An access token minted for a user at `issuedAt`, presented as
      "Bearer <token>", is accepted exactly while it is less than 15 minutes
      old and the user's version has not moved since; otherwise it is refused
      as expired or as revoked. */
  lemma AccessTokenLifetime(token: string, now: int, parse: string -> Option<Claims>,
                               users: map<nat, User>, u: User, issuedAt: int)
    requires ' ' !in token && parse(token) == Some(AccessClaims(u, issuedAt))
    requires u.id in users && users[u.id].tokenVersion >= u.tokenVersion
    ensures JWTAuth("Bearer " + token, now, parse, users) ==
              if now >= issuedAt + 900 then Reject(401, "invalid or expired token")
              else if users[u.id].tokenVersion != u.tokenVersion then Reject(401, "token has been revoked")
              else Accept(u.id, u.role)
  {
    assert ToLower("Bearer") == "bearer";
    BearerTokenRoundTrip("", "Bearer", token);
    assert "Bearer " + token == "Bearer" + " " + token;
  }

  /** Once a user's version has moved past the one an access token carries
      (a refresh or a logout raises it), that token is refused at any time. */
  lemma RevokedAccessTokenIsRefused(header: string, now: int, parse: string -> Option<Claims>,
                                    users: map<nat, User>, u: User, issuedAt: int)
    requires BearerToken(header).Some? && parse(BearerToken(header).value) == Some(AccessClaims(u, issuedAt))
    requires u.id in users && users[u.id].tokenVersion > u.tokenVersion
    ensures JWTAuth(header, now, parse, users).Reject?
  {
  }

  /** Lets only the exact role "ADMIN" through; a missing role is refused too. */
  function AdminOnly(role: Option<string>): (g: Gate)
    ensures g == Pass <==> role == Some("ADMIN")
    ensures g.Deny? ==> g == Deny(403, "akses ditolak, hanya ADMIN")
  {
    if role.None? || role.value != "ADMIN" then Deny(403, "akses ditolak, hanya ADMIN") else Pass
  }

  /** Lets a request through when its role, upper-cased, is among `allowed`;
      a request without a role is unauthenticated, one with another role is
      forbidden. */
  function RequireRoles(role: Option<string>, allowed: seq<string>): (g: Gate)
    ensures role.None? ==> g == Deny(401, "token tidak valid")
    ensures role.Some? ==> (g == Pass <==> exists k | 0 <= k < |allowed| :: allowed[k] == ToUpper(role.value))
    ensures role.Some? && g.Deny? ==> g == Deny(403, "akses ditolak, role tidak memiliki izin")
  {
    if role.None? then Deny(401, "token tidak valid")
    else if ToUpper(role.value) in allowed then Pass
    else Deny(403, "akses ditolak, role tidak memiliki izin")
  }

  /** The caller's role is matched regardless of its letter case (the list
      entries are compared as given), and an empty list lets no one in. */
  lemma RequireRolesIgnoresCase(role: string, allowed: seq<string>)
    ensures RequireRoles(Some(role), allowed) == RequireRoles(Some(ToUpper(role)), allowed)
    ensures RequireRoles(Some(role), []) == Deny(403, "akses ditolak, role tidak memiliki izin")
  {
    ToUpperIdempotent(role);
  }

  /** Whatever the admin-only gate lets through, a role list naming ADMIN lets
      through too; the converse fails on letter case: "admin" passes the list
      ["ADMIN"] but not the admin-only gate. */
  lemma AdminOnlyIsStricter(role: Option<string>, allowed: seq<string>)
    requires "ADMIN" in allowed
    ensures AdminOnly(role) == Pass ==> RequireRoles(role, allowed) == Pass
    ensures RequireRoles(Some("admin"), ["ADMIN"]) == Pass && AdminOnly(Some("admin")).Deny?
  {
    assert ToUpper("ADMIN") == "ADMIN";
    assert ToUpper("admin") == "ADMIN";
  }
}
