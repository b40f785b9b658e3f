/** The four authentication endpoints of main.py as operations over the user
    store, an explicit configuration, the signer and the current time.
    Routing, rate limiting, dependency injection and logging are left to the
    framework. */
module Api {
  import opened Optional
  import opened Jwt
  import opened Passwords
  import opened Auth
  import opened Schemas
  import opened Models
  import opened Crud

  const HttpOk := 200
  const HttpCreated := 201
  const HttpBadRequest := 400
  const HttpUnauthorized := 401
  const HttpNotFound := 404

  /** The response of an endpoint: a status and a body, or the status and
      detail of the `HTTPException` it raises. */
  datatype Result<T> = Ok(status: int, value: T) | Err(status: int, detail: string)

  const DuplicateUsernameDetail := "El nombre de usuario ya está registrado"
  const InvalidCredentialsDetail := "Nombre de usuario o contraseña incorrectos"
  const UserNotFoundDetail := "Usuario no encontrado"

  /** How long an access token issued by /token or /refresh lives: the
      configured minutes, except that a zero `timedelta` is falsy and
      `create_access_token` then falls back to 15 minutes. */
  function AccessLifetime(cfg: Config): (seconds: int)
    ensures cfg.accessTokenExpireMinutes != 0 ==> seconds == cfg.accessTokenExpireMinutes * SecondsPerMinute
    ensures cfg.accessTokenExpireMinutes == 0 ==> seconds == DefaultAccessLifetime
  {
    Lifetime(Some(cfg.accessTokenExpireMinutes * SecondsPerMinute), DefaultAccessLifetime)
  }

  /** How long a refresh token issued by /token or /refresh lives; the
      fallback of `create_refresh_token` is the same configured value, so
      the zero case changes nothing. */
  function RefreshLifetime(cfg: Config): (seconds: int)
    ensures seconds == cfg.refreshTokenExpireDays * SecondsPerDay
  {
    Lifetime(Some(cfg.refreshTokenExpireDays * SecondsPerDay), RefreshFallback(cfg))
  }

  /** The token pair /token and /refresh build for a subject. */
  function IssueTokenPair(cfg: Config, sign: Signer, now: int, subject: string): (pair: Schemas.Token)
    ensures pair.tokenType == BearerTokenType
    ensures pair.expiresIn == cfg.accessTokenExpireMinutes * SecondsPerMinute
    ensures pair.accessToken == Encode(sign, cfg.secretKey, Claims(Some(subject), None, now + AccessLifetime(cfg)))
    ensures pair.refreshToken == Encode(sign, cfg.secretKey, Claims(Some(subject), Some(RefreshTokenType), now + RefreshLifetime(cfg)))
  {
    var data := Payload(Some(subject), None);
    var accessToken := CreateAccessToken(cfg, sign, now, data, Some(cfg.accessTokenExpireMinutes * SecondsPerMinute));
    var refreshToken := CreateRefreshToken(cfg, sign, now, data, Some(cfg.refreshTokenExpireDays * SecondsPerDay));
    Schemas.Token(accessToken, refreshToken, BearerTokenType, cfg.accessTokenExpireMinutes * SecondsPerMinute)
  }

  /** Each token of an issued pair is accepted for its own purpose, for the
      subject it was issued to, until it expires, and never for the other one. */
  lemma IssuedPairKeepsTypes(cfg: Config, sign: Signer, now: int, later: int, subject: string)
    ensures GetCurrentUser(cfg, sign, later, IssueTokenPair(cfg, sign, now, subject).accessToken)
         == (if later < now + AccessLifetime(cfg) then Some(subject) else None)
    ensures GetCurrentUserFromRefreshToken(cfg, sign, later, IssueTokenPair(cfg, sign, now, subject).accessToken) == None
    ensures GetCurrentUserFromRefreshToken(cfg, sign, later, IssueTokenPair(cfg, sign, now, subject).refreshToken)
         == (if later < now + RefreshLifetime(cfg) then Some(subject) else None)
    ensures GetCurrentUser(cfg, sign, later, IssueTokenPair(cfg, sign, now, subject).refreshToken) == None
  {
    var data := Payload(Some(subject), None);
    AccessRoundTrip(cfg, sign, now, later, subject, Some(cfg.accessTokenExpireMinutes * SecondsPerMinute));
    RefreshRoundTrip(cfg, sign, now, later, subject, Some(cfg.refreshTokenExpireDays * SecondsPerDay));
    AccessTokenNeverRefresh(cfg, sign, now, later, data, Some(cfg.accessTokenExpireMinutes * SecondsPerMinute));
    RefreshTokenNeverAccess(cfg, sign, now, later, data, Some(cfg.refreshTokenExpireDays * SecondsPerDay));
  }

  /** `expires_in` reports the access token's real lifetime exactly when the
      configured minutes are not zero. */
  lemma ExpiresInMatchesLifetime(cfg: Config, sign: Signer, now: int, subject: string)
    ensures IssueTokenPair(cfg, sign, now, subject).expiresIn == AccessLifetime(cfg)
            <==> cfg.accessTokenExpireMinutes != 0
  {
  }

  /** Under the default configuration an issued access token is accepted for
      30 minutes, as `expires_in` reports, and the refresh token for 7 days. */
  lemma DefaultLifetimes(sign: Signer, now: int, later: int, subject: string)
    ensures AccessLifetime(DefaultConfig()) == 30 * SecondsPerMinute
    ensures IssueTokenPair(DefaultConfig(), sign, now, subject).expiresIn == 1800
    ensures RefreshLifetime(DefaultConfig()) == 7 * SecondsPerDay
    ensures GetCurrentUser(DefaultConfig(), sign, later, IssueTokenPair(DefaultConfig(), sign, now, subject).accessToken).Some?
            <==> later < now + 1800
    ensures GetCurrentUserFromRefreshToken(DefaultConfig(), sign, later, IssueTokenPair(DefaultConfig(), sign, now, subject).refreshToken).Some?
            <==> later < now + 7 * SecondsPerDay
  {
    IssuedPairKeepsTypes(DefaultConfig(), sign, now, later, subject);
  }

  /** POST /register. The body has already passed `UserCreate` validation. */
  method Register(store: UserStore, user: UserCreate, salt: Salt, now: int) returns (r: Result<UserInDB>)
    requires store.Valid() && ValidUserCreate(user)
    modifies store
    ensures store.Valid()
    ensures r.Err? <==> old(user.username in store.users)
    ensures r.Err? ==>
              && r == Err(HttpBadRequest, DuplicateUsernameDetail)
              && store.users == old(store.users) && store.nextId == old(store.nextId)
              && store.passwords == old(store.passwords) && store.salts == old(store.salts)
    ensures r.Ok? ==>
              && r.status == HttpCreated
              && user.username in store.users
              && r.value == ToUserInDB(store.users[user.username])
              && r.value.username == user.username
              && r.value.id == old(store.nextId) && r.value.createdAt == Some(now)
              && (forall name | name in old(store.users) :: old(store.users)[name].id != r.value.id)
              && store.users == old(store.users)[user.username :=
                   User(old(store.nextId), user.username, GetPasswordHash(store.hasher, user.password, salt), now)]
              && store.nextId == old(store.nextId) + 1
              && store.passwords == old(store.passwords)[user.username := user.password]
              && store.salts == old(store.salts)[user.username := salt]
  {
    var existing := store.GetUserByUsername(user.username);
    if existing.Some? {
      return Err(HttpBadRequest, DuplicateUsernameDetail);
    }
    var created := store.CreateUser(user, salt, now);
    r := Ok(HttpCreated, ToUserInDB(created.value));
  }

  /** POST /token. One and the same 401 for an unknown username and for a
      wrong password. */
  method Login(store: UserStore, cfg: Config, sign: Signer, now: int, username: string, password: string)
    returns (r: Result<Schemas.Token>)
    requires store.Valid()
    ensures r.Ok? <==> username in store.users && password == store.passwords[username]
    ensures r.Err? ==> r == Err(HttpUnauthorized, InvalidCredentialsDetail)
    ensures r.Ok? ==> r.status == HttpOk && r.value == IssueTokenPair(cfg, sign, now, username)
    ensures r.Ok? ==>
              && r.value.tokenType == BearerTokenType
              && r.value.expiresIn == cfg.accessTokenExpireMinutes * SecondsPerMinute
  {
    var user := store.GetUserByUsername(username);
    if user.Some? {
      StoredHashVerifiesOnlyItsPassword(store, username, password);
    }
    if user.None? || !VerifyPassword(store.hasher, password, user.value.hashedPassword) {
      return Err(HttpUnauthorized, InvalidCredentialsDetail);
    }
    r := Ok(HttpOk, IssueTokenPair(cfg, sign, now, user.value.username));
  }

  /** GET /users/me. */
  method ReadUsersMe(store: UserStore, cfg: Config, sign: Signer, now: int, token: Jwt.Token)
    returns (r: Result<UserInDB>)
    requires store.Valid()
    ensures GetCurrentUser(cfg, sign, now, token).None? ==> r == Err(HttpUnauthorized, AccessCredentialsDetail)
    ensures r.Ok? <==> GetCurrentUser(cfg, sign, now, token).Some? && GetCurrentUser(cfg, sign, now, token).value in store.users
    ensures GetCurrentUser(cfg, sign, now, token).Some? && GetCurrentUser(cfg, sign, now, token).value !in store.users
            ==> r == Err(HttpNotFound, UserNotFoundDetail)
    ensures r.Ok? ==>
              && r.status == HttpOk
              && token.claims.tokenType != Some(RefreshTokenType)
              && token.claims.sub == Some(r.value.username)
              && r.value == ToUserInDB(store.users[r.value.username])
  {
    var currentUser := GetCurrentUser(cfg, sign, now, token);
    if currentUser.None? {
      return Err(HttpUnauthorized, AccessCredentialsDetail);
    }
    var user := store.GetUserByUsername(currentUser.value);
    if user.None? {
      return Err(HttpNotFound, UserNotFoundDetail);
    }
    r := Ok(HttpOk, ToUserInDB(user.value));
  }

  /** POST /refresh. It never reads or writes the store. */
  method Refresh(cfg: Config, sign: Signer, now: int, token: Jwt.Token) returns (r: Result<Schemas.Token>)
    ensures r.Ok? <==> GetCurrentUserFromRefreshToken(cfg, sign, now, token).Some?
    ensures r.Err? ==> r == Err(HttpUnauthorized, RefreshCredentialsDetail)
    ensures r.Ok? ==>
              && r.status == HttpOk
              && token.claims.tokenType == Some(RefreshTokenType)
              && token.claims.sub.Some?
              && r.value == IssueTokenPair(cfg, sign, now, token.claims.sub.value)
  {
    var currentUser := GetCurrentUserFromRefreshToken(cfg, sign, now, token);
    if currentUser.None? {
      return Err(HttpUnauthorized, RefreshCredentialsDetail);
    }
    r := Ok(HttpOk, IssueTokenPair(cfg, sign, now, currentUser.value));
  }

  /** Refreshing does not revoke: a refresh token that is accepted now is
      accepted for the same subject at every later moment before it expires. */
  lemma RefreshTokenStaysValid(cfg: Config, sign: Signer, now: int, later: int, token: Jwt.Token)
    requires GetCurrentUserFromRefreshToken(cfg, sign, now, token).Some?
    requires now <= later < token.claims.exp
    ensures GetCurrentUserFromRefreshToken(cfg, sign, later, token) == GetCurrentUserFromRefreshToken(cfg, sign, now, token)
  {
  }
}
