/** The token lifecycle: users with a per-user token version, a store of
    refresh tokens, and the four operations that create users and mint,
    rotate and revoke tokens. Signing, password hashing and the clock are
    parameters: `sign` turns claims into a token string, `matches` compares a
    stored hash with a password, `hash` is the hashing outcome, `now` is the
    current instant in seconds and `jti` the fresh random token id. */
module Auth {
  import opened Text
  import opened AppErrors

  /** A claim value as it travels in a token: a number or a string. */
  datatype ClaimValue = Num(n: int) | Str(s: string)

  type Claims = map<string, ClaimValue>

  /** Lifetimes in seconds: 15 minutes for access tokens, 7 days for refresh tokens. */
  const AccessLifetime := 15 * 60
  const RefreshLifetime := 7 * 24 * 60 * 60

  datatype User = User(id: nat, username: string, passwordHash: string, role: string, tokenVersion: int)

  /** A stored refresh token: its owner, the token text, its id and its expiry instant. */
  datatype RefreshToken = RefreshToken(userId: nat, token: string, jti: string, expiresAt: int)

  /** What a successful login or refresh hands back. */
  datatype Session = Session(access: string, refresh: string, user: User)

  /** The claims of an access token minted for `u` at `now`. */
  function AccessClaims(u: User, now: int): Claims {
    map["user_id" := Num(u.id), "role" := Str(u.role), "ver" := Num(u.tokenVersion),
        "exp" := Num(now + AccessLifetime), "iat" := Num(now)]
  }

  /** The claims of a refresh token minted for `u` at `now` with id `jti`. */
  function RefreshClaims(u: User, now: int, jti: string): Claims {
    map["user_id" := Num(u.id), "role" := Str(u.role), "type" := Str("refresh"),
        "exp" := Num(now + RefreshLifetime), "iat" := Num(now), "jti" := Str(jti)]
  }

  /** An access token carries the user's current version and lives 15 minutes;
      a refresh token is marked as such, carries its id, has no version and
      lives 7 days. */
  lemma TokenClaimsShape(u: User, now: int, jti: string)
    ensures AccessClaims(u, now)["ver"] == Num(u.tokenVersion)
    ensures AccessClaims(u, now)["exp"] == Num(now + 900)
    ensures "type" !in AccessClaims(u, now)
    ensures "ver" !in RefreshClaims(u, now, jti)
    ensures RefreshClaims(u, now, jti)["type"] == Str("refresh")
    ensures RefreshClaims(u, now, jti)["jti"] == Str(jti)
    ensures RefreshClaims(u, now, jti)["exp"] == Num(now + 604800)
    ensures AccessClaims(u, now)["user_id"] == RefreshClaims(u, now, jti)["user_id"] == Num(u.id)
  {
  }

  predicate ValidRole(role: string) {
    role in {"ADMIN", "STAFF", "VIEWER"}
  }

  /** The live refresh tokens of every user but `userId`. */
  function WithoutUser(tokens: map<string, RefreshToken>, userId: nat): (r: map<string, RefreshToken>)
    ensures forall t | t in r :: r[t].userId != userId
    ensures forall t | t in tokens && tokens[t].userId != userId :: t in r && r[t] == tokens[t]
    ensures r.Keys <= tokens.Keys
  {
    map t | t in tokens && tokens[t].userId != userId :: tokens[t]
  }

  class AuthService {
    /** The user table, keyed by id. */
    var users: map<nat, User>
    /** The next id the store assigns. */
    var nextUserId: nat
    /** The live refresh tokens, keyed by token text. */
    var tokens: map<string, RefreshToken>
    /** Every token text ever saved: deleted rows are only marked deleted and
        still hold their place in the unique index on the token column. */
    var savedTokens: set<string>
    /** The (user id, version) of every access token handed out so far. */
    ghost var issued: seq<(nat, int)>

    /** Users are keyed by their id and have distinct names; every stored
        refresh token is keyed by its text, was saved to the unique index, and
        is the only stored token of its user; every version handed out is at
        most the user's current one. */
    ghost predicate Valid()
      reads this
    {
      && 0 < nextUserId
      && (forall id | id in users :: users[id].id == id && 0 < id < nextUserId)
      && (forall a, b | a in users && b in users && a != b :: users[a].username != users[b].username)
      && (forall t | t in tokens :: tokens[t].token == t)
      && tokens.Keys <= savedTokens
      && (forall t1, t2 | t1 in tokens && t2 in tokens && tokens[t1].userId == tokens[t2].userId :: t1 == t2)
      && (forall k | 0 <= k < |issued| :: issued[k].0 in users && issued[k].1 <= users[issued[k].0].tokenVersion)
    }

    constructor ()
      ensures Valid()
      ensures users == map[] && nextUserId == 1 && tokens == map[] && savedTokens == {} && issued == []
    {
      users := map[];
      nextUserId := 1;
      tokens := map[];
      savedTokens := {};
      issued := [];
    }

    predicate UsernameTaken(username: string)
      reads this
    {
      exists id | id in users :: users[id].username == username
    }

    /** No version is ever lowered and no user disappears. */
    twostate predicate VersionsKept()
      reads this
    {
      forall id | id in old(users) :: id in users && users[id].tokenVersion >= old(users)[id].tokenVersion
    }

    method FindByUsername(username: string) returns (u: Option<User>)
      requires Valid()
      ensures u.Some? <==> UsernameTaken(username)
      ensures u.Some? ==> u.value.id in users && users[u.value.id] == u.value && u.value.username == username
    {
      if exists id | id in users :: users[id].username == username {
        var id :| id in users && users[id].username == username;
        u := Some(users[id]);
      } else {
        u := None;
      }
    }

    /** Creates a user. The role is upper-cased and must be ADMIN, STAFF or
      VIEWER; the username must be free; hashing must succeed. The new user
      starts at version 0. */
    method Register(username: string, role: string, hash: Option<string>) returns (r: Outcome)
      requires Valid()
      modifies this
      ensures Valid() && VersionsKept()
      ensures tokens == old(tokens) && savedTokens == old(savedTokens) && issued == old(issued)
      ensures !ValidRole(ToUpper(role)) ==> r == Fail(NewValidationError("role tidak valid (ADMIN, STAFF, VIEWER)"))
      ensures ValidRole(ToUpper(role)) && old(UsernameTaken(username)) ==> r == Fail(NewConflictError("username sudah digunakan"))
      ensures ValidRole(ToUpper(role)) && !old(UsernameTaken(username)) && hash.None? ==>
                r == Fail(NewInternalError("gagal proses password"))
      ensures r.Done? <==> ValidRole(ToUpper(role)) && !old(UsernameTaken(username)) && hash.Some?
      ensures r.Fail? ==> users == old(users) && nextUserId == old(nextUserId)
      ensures r.Done? ==> old(nextUserId) !in old(users) && nextUserId == old(nextUserId) + 1
                          && users == old(users)[old(nextUserId) := User(old(nextUserId), username, hash.value, ToUpper(role), 0)]
    {
      var normalised := ToUpper(role);
      if !ValidRole(normalised) {
        return Fail(NewValidationError("role tidak valid (ADMIN, STAFF, VIEWER)"));
      }
      var existing := FindByUsername(username);
      if existing.Some? {
        return Fail(NewConflictError("username sudah digunakan"));
      }
      if hash.None? {
        return Fail(NewInternalError("gagal proses password"));
      }
      users := users[nextUserId := User(nextUserId, username, hash.value, normalised, 0)];
      nextUserId := nextUserId + 1;
      r := Done;
    }

    /** Logs in: an unknown username is NotFound, a wrong password Validation.
      On success all of the user's refresh tokens are deleted and exactly one
      new one is saved; the token version is left alone. */
    method Login(username: string, password: string, now: int, jti: string,
                 matches: (string, string) -> bool, sign: Claims -> string) returns (r: Result<Session>)
      requires Valid()
      modifies this
      ensures Valid() && VersionsKept()
      ensures users == old(users) && nextUserId == old(nextUserId)
      ensures !old(UsernameTaken(username)) ==>
                r == Err(NewNotFoundError("user tidak ditemukan")) && tokens == old(tokens) && issued == old(issued)
      ensures old(UsernameTaken(username)) ==>
                (r == Err(NewValidationError("password salah")) <==>
                   forall id | id in old(users) && old(users)[id].username == username :: !matches(old(users)[id].passwordHash, password))
      ensures r.Err? && r.error.code == 400 ==>
                r.error == NewValidationError("password salah") && tokens == old(tokens) && issued == old(issued)
      ensures forall id | id in old(users) && old(users)[id].username == username && matches(old(users)[id].passwordHash, password) ::
                && (r.Ok? <==> sign(RefreshClaims(old(users)[id], now, jti)) !in old(savedTokens))
                && (r.Err? ==> r.error == NewInternalError("gagal menyimpan refresh token")
                               && tokens == WithoutUser(old(tokens), id) && issued == old(issued))
      ensures r.Ok? ==>
                var u := r.value.user;
                && u.id in old(users) && old(users)[u.id] == u && u.username == username
                && matches(u.passwordHash, password)
                && r.value.access == sign(AccessClaims(u, now))
                && r.value.refresh == sign(RefreshClaims(u, now, jti))
                && tokens == WithoutUser(old(tokens), u.id)[r.value.refresh := RefreshToken(u.id, r.value.refresh, jti, now + RefreshLifetime)]
                && issued == old(issued) + [(u.id, u.tokenVersion)]
      ensures old(UsernameTaken(username)) ==>
                r.Ok? || r.error == NewValidationError("password salah") || r.error == NewInternalError("gagal menyimpan refresh token")
    {
      var found := FindByUsername(username);
      if found.None? {
        return Err(NewNotFoundError("user tidak ditemukan"));
      }
      var user := found.value;
      if !matches(user.passwordHash, password) {
        return Err(NewValidationError("password salah"));
      }
      tokens := WithoutUser(tokens, user.id);
      r := SaveSession(user, now, jti, sign, "gagal menyimpan refresh token");
    }

    /** Mints an access and a refresh token for `user` and saves the refresh
      token. The save fails, with `failure`, when the token text was saved
      before: the unique index still holds deleted rows. */
    method SaveSession(user: User, now: int, jti: string, sign: Claims -> string, failure: string) returns (r: Result<Session>)
      requires Valid() && user.id in users && users[user.id] == user
      requires forall t | t in tokens :: tokens[t].userId != user.id
      modifies this
      ensures Valid() && users == old(users) && nextUserId == old(nextUserId)
      ensures var refresh := sign(RefreshClaims(user, now, jti));
              refresh in old(savedTokens) ==>
                && r == Err(NewInternalError(failure))
                && tokens == old(tokens) && savedTokens == old(savedTokens) && issued == old(issued)
      ensures var refresh := sign(RefreshClaims(user, now, jti));
              refresh !in old(savedTokens) ==>
                && r == Ok(Session(sign(AccessClaims(user, now)), refresh, user))
                && tokens == old(tokens)[refresh := RefreshToken(user.id, refresh, jti, now + RefreshLifetime)]
                && savedTokens == old(savedTokens) + {refresh}
                && issued == old(issued) + [(user.id, user.tokenVersion)]
    {
      var access := sign(AccessClaims(user, now));
      var refresh := sign(RefreshClaims(user, now, jti));
      var expiresAt := now + RefreshLifetime;
      if refresh in savedTokens {
        return Err(NewInternalError(failure));
      }
      tokens := tokens[refresh := RefreshToken(user.id, refresh, jti, expiresAt)];
      savedTokens := savedTokens + {refresh};
      issued := issued + [(user.id, user.tokenVersion)];
      r := Ok(Session(access, refresh, user));
    }

    /** Raises a user's version by one, which revokes every access token
      handed out to them so far. */
    method BumpVersion(uid: nat)
      requires Valid() && uid in users
      modifies this
      ensures Valid() && VersionsKept()
      ensures nextUserId == old(nextUserId) && tokens == old(tokens) && savedTokens == old(savedTokens) && issued == old(issued)
      ensures users == old(users)[uid := old(users)[uid].(tokenVersion := old(users)[uid].tokenVersion + 1)]
      ensures forall k | 0 <= k < |issued| && issued[k].0 == uid :: issued[k].1 < users[uid].tokenVersion
    {
      var user := users[uid];
      users := users[uid := user.(tokenVersion := user.tokenVersion + 1)];
    }

    /** Deletes a refresh token row; its text stays in the unique index. */
    method DeleteToken(token: string)
      requires Valid()
      modifies this
      ensures Valid()
      ensures tokens == old(tokens) - {token}
      ensures token in old(tokens) ==> forall t | t in tokens :: tokens[t].userId != old(tokens)[token].userId
      ensures users == old(users) && nextUserId == old(nextUserId) && savedTokens == old(savedTokens) && issued == old(issued)
    {
      tokens := tokens - {token};
    }

    /** Rotates a refresh token. An unknown token is Unauthorized; an expired
      one (now strictly after its expiry) is deleted and Unauthorized. Otherwise
      the owner's version goes up by one before the new pair is minted, so
      every access token handed out earlier carries a smaller version; the
      presented token is replaced by the new one. */
    method Refresh(token: string, now: int, jti: string, sign: Claims -> string) returns (r: Result<Session>)
      requires Valid()
      modifies this
      ensures Valid() && VersionsKept() && nextUserId == old(nextUserId)
      ensures token !in old(tokens) ==>
                r == Err(NewUnauthorizedError("refresh token tidak dikenal")) && unchanged(this)
      ensures token in old(tokens) && now > old(tokens)[token].expiresAt ==>
                && r == Err(NewUnauthorizedError("refresh token sudah kadaluarsa"))
                && tokens == old(tokens) - {token} && users == old(users) && issued == old(issued)
      ensures token in old(tokens) && now <= old(tokens)[token].expiresAt && old(tokens)[token].userId !in old(users) ==>
                r == Err(NewNotFoundError("user tidak ditemukan")) && unchanged(this)
      ensures token in old(tokens) && now <= old(tokens)[token].expiresAt && old(tokens)[token].userId in old(users) ==>
                var uid := old(tokens)[token].userId;
                var bumped := old(users)[uid].(tokenVersion := old(users)[uid].tokenVersion + 1);
                && users == old(users)[uid := bumped]
                && (r.Ok? <==> sign(RefreshClaims(bumped, now, jti)) !in old(savedTokens))
                && (r.Err? ==> r.error == NewInternalError("gagal menyimpan refresh token baru")
                               && tokens == old(tokens) - {token} && issued == old(issued))
      ensures r.Ok? ==>
                var uid := old(tokens)[token].userId;
                && token in old(tokens) && now <= old(tokens)[token].expiresAt && uid in old(users)
                && users == old(users)[uid := old(users)[uid].(tokenVersion := old(users)[uid].tokenVersion + 1)]
                && r.value.user == users[uid]
                && r.value.access == sign(AccessClaims(users[uid], now))
                && r.value.refresh == sign(RefreshClaims(users[uid], now, jti))
                && tokens == (old(tokens) - {token})[r.value.refresh := RefreshToken(uid, r.value.refresh, jti, now + RefreshLifetime)]
                && issued == old(issued) + [(uid, users[uid].tokenVersion)]
                && (forall k | 0 <= k < |old(issued)| && old(issued)[k].0 == uid :: old(issued)[k].1 < users[uid].tokenVersion)
    {
      if token !in tokens {
        return Err(NewUnauthorizedError("refresh token tidak dikenal"));
      }
      var rt := tokens[token];
      if now > rt.expiresAt {
        DeleteToken(token);
        return Err(NewUnauthorizedError("refresh token sudah kadaluarsa"));
      }
      if rt.userId !in users {
        return Err(NewNotFoundError("user tidak ditemukan"));
      }
      BumpVersion(rt.userId);
      DeleteToken(token);
      r := SaveSession(users[rt.userId], now, jti, sign, "gagal menyimpan refresh token baru");
    }

    /** Logs out: an unknown token is Unauthorized. Otherwise the owner's
      version goes up by one, revoking every access token handed out so far,
      and the presented token is deleted; its expiry is not looked at. */
    method Logout(token: string) returns (r: Outcome)
      requires Valid()
      modifies this
      ensures Valid() && VersionsKept()
      ensures nextUserId == old(nextUserId) && savedTokens == old(savedTokens) && issued == old(issued)
      ensures token !in old(tokens) ==>
                r == Fail(NewUnauthorizedError("refresh token tidak valid")) && users == old(users) && tokens == old(tokens)
      ensures token in old(tokens) && old(tokens)[token].userId !in old(users) ==>
                r == Fail(NewNotFoundError("user tidak ditemukan")) && users == old(users) && tokens == old(tokens)
      ensures r.Done? <==> token in old(tokens) && old(tokens)[token].userId in old(users)
      ensures r.Done? ==>
                var uid := old(tokens)[token].userId;
                && token in old(tokens) && uid in old(users)
                && users == old(users)[uid := old(users)[uid].(tokenVersion := old(users)[uid].tokenVersion + 1)]
                && tokens == old(tokens) - {token}
                && (forall k | 0 <= k < |issued| && issued[k].0 == uid :: issued[k].1 < users[uid].tokenVersion)
    {
      if token !in tokens {
        return Fail(NewUnauthorizedError("refresh token tidak valid"));
      }
      var rt := tokens[token];
      if rt.userId !in users {
        return Fail(NewNotFoundError("user tidak ditemukan"));
      }
      BumpVersion(rt.userId);
      DeleteToken(token);
      r := Done;
    }
  }
}
