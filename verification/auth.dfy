/** Token issuance and validation (auth.py). Configuration that the source
    reads from the environment (auth.py, lines 15-18) is an explicit value. */
module Auth {
  import opened Optional
  import opened Jwt

  /** SECRET_KEY, ACCESS_TOKEN_EXPIRE_MINUTES and REFRESH_TOKEN_EXPIRE_DAYS.
      The algorithm, always HS256, is not a parameter of the model. */
  datatype Config = Config(secretKey: string, accessTokenExpireMinutes: int, refreshTokenExpireDays: int)

  /** The values used when the environment does not set them. */
  function DefaultConfig(): Config {
    Config("dev-key-change-in-production", 30, 7)
  }

  const SecondsPerMinute := 60
  const SecondsPerDay := 86400
  /** `create_access_token` falls back to 15 minutes, not to the configured TTL. */
  const DefaultAccessLifetime := 15 * SecondsPerMinute
  const RefreshTokenType := "refresh"
  /** What a token without a `type` claim counts as. */
  const AccessTokenType := "access"

  /** The detail of the 401 raised by each validator. */
  const AccessCredentialsDetail := "No se pudieron validar las credenciales"
  const RefreshCredentialsDetail := "Token de refresco inválido"

  /** The dictionary a caller hands to the token constructors; other keys
      never reach the checks and are not modelled. */
  datatype Payload = Payload(sub: Option<string>, tokenType: Option<string>)

  /** Python truthiness of an optional `timedelta` of that many seconds:
      `None` and a zero delta are falsy, every other delta (negative ones
      included) is truthy. */
  predicate Truthy(delta: Option<int>) {
    delta.Some? && delta.value != 0
  }

  /** The lifetime in seconds a token constructor gives, from the caller's
      delta and the constructor's fallback. */
  function Lifetime(delta: Option<int>, fallback: int): int {
    if Truthy(delta) then delta.value else fallback
  }

  function RefreshFallback(cfg: Config): int {
    cfg.refreshTokenExpireDays * SecondsPerDay
  }

  /** `create_access_token`: the caller's data, unchanged, plus `exp`, signed
      with the configured key. No `type` claim is added. */
  function CreateAccessToken(cfg: Config, sign: Signer, now: int, data: Payload, expiresDelta: Option<int>): (t: Token)
    ensures t.Signed? && t == Encode(sign, cfg.secretKey, t.claims)
    ensures t.claims.sub == data.sub && t.claims.tokenType == data.tokenType
    ensures Truthy(expiresDelta) ==> t.claims.exp == now + expiresDelta.value
    ensures !Truthy(expiresDelta) ==> t.claims.exp == now + DefaultAccessLifetime
  {
    var expire := now + Lifetime(expiresDelta, DefaultAccessLifetime);
    Encode(sign, cfg.secretKey, Claims(data.sub, data.tokenType, expire))
  }

  /** `create_refresh_token`: the caller's data plus `exp`, with `type`
      forced to "refresh" whatever the data held. */
  function CreateRefreshToken(cfg: Config, sign: Signer, now: int, data: Payload, expiresDelta: Option<int>): (t: Token)
    ensures t.Signed? && t == Encode(sign, cfg.secretKey, t.claims)
    ensures t.claims.sub == data.sub && t.claims.tokenType == Some(RefreshTokenType)
    ensures Truthy(expiresDelta) ==> t.claims.exp == now + expiresDelta.value
    ensures !Truthy(expiresDelta) ==> t.claims.exp == now + cfg.refreshTokenExpireDays * SecondsPerDay
  {
    var expire := now + Lifetime(expiresDelta, RefreshFallback(cfg));
    Encode(sign, cfg.secretKey, Claims(data.sub, Some(RefreshTokenType), expire))
  }

  /** `payload.get("type", "access")`. */
  function TypeOf(claims: Claims): string {
    match claims.tokenType
    case None => AccessTokenType
    case Some(kind) => kind
  }

  /** `get_current_user`: the subject of a genuine, unexpired token whose
      type is anything but "refresh"; `None` stands for the single 401 it
      raises otherwise. */
  function GetCurrentUser(cfg: Config, sign: Signer, now: int, token: Token): (username: Option<string>)
    ensures username.Some? ==> Decode(sign, cfg.secretKey, now, token).Some?
    ensures username.Some? ==> token.claims.tokenType != Some(RefreshTokenType) && username == token.claims.sub
  {
    match Decode(sign, cfg.secretKey, now, token)
    case None => None
    case Some(payload) =>
      if TypeOf(payload) == RefreshTokenType then None
      else if payload.sub.None? then None
      else payload.sub
  }

  /** `get_current_user_from_refresh_token`: the subject of a genuine,
      unexpired token whose type is exactly "refresh"; `None` stands for the
      single 401 it raises otherwise. */
  function GetCurrentUserFromRefreshToken(cfg: Config, sign: Signer, now: int, token: Token): (username: Option<string>)
    ensures username.Some? ==> Decode(sign, cfg.secretKey, now, token).Some?
    ensures username.Some? ==> token.claims.tokenType == Some(RefreshTokenType) && username == token.claims.sub
  {
    match Decode(sign, cfg.secretKey, now, token)
    case None => None
    case Some(payload) =>
      if TypeOf(payload) != RefreshTokenType then None
      else if payload.sub.None? then None
      else payload.sub
  }

  /** The asymmetric type check on a genuine, unexpired token that names a
      subject: the access check accepts every type but "refresh", a missing
      type included; the refresh check accepts "refresh" and nothing else,
      a missing type included. */
  lemma TypeCheckAsymmetry(cfg: Config, sign: Signer, now: int, claims: Claims)
    requires now < claims.exp && claims.sub.Some?
    ensures GetCurrentUser(cfg, sign, now, Encode(sign, cfg.secretKey, claims))
         == (if claims.tokenType == Some(RefreshTokenType) then None else claims.sub)
    ensures GetCurrentUserFromRefreshToken(cfg, sign, now, Encode(sign, cfg.secretKey, claims))
         == (if claims.tokenType == Some(RefreshTokenType) then claims.sub else None)
  {
    DecodeEncode(sign, cfg.secretKey, now, claims);
  }

  /** No token whatsoever is accepted by both validators. */
  lemma NoTokenPassesBothChecks(cfg: Config, sign: Signer, now: int, token: Token)
    ensures GetCurrentUser(cfg, sign, now, token).None? || GetCurrentUserFromRefreshToken(cfg, sign, now, token).None?
  {
  }

  /** Both validators reject a token that does not decode (bad signature,
      malformed, or expired) and a token without `sub`. */
  lemma ValidatorsRejectUndecodableOrSubjectless(cfg: Config, sign: Signer, now: int, token: Token)
    requires Decode(sign, cfg.secretKey, now, token).None? || (token.Signed? && token.claims.sub.None?)
    ensures GetCurrentUser(cfg, sign, now, token) == None
    ensures GetCurrentUserFromRefreshToken(cfg, sign, now, token) == None
  {
  }

  /** A token is rejected by both validators from the moment it expires. */
  lemma ExpiredTokensRejected(cfg: Config, sign: Signer, now: int, token: Token)
    requires token.Signed? && token.claims.exp <= now
    ensures GetCurrentUser(cfg, sign, now, token) == None
    ensures GetCurrentUserFromRefreshToken(cfg, sign, now, token) == None
  {
  }

  /** A refresh token never authenticates a resource request. */
  lemma RefreshTokenNeverAccess(cfg: Config, sign: Signer, issued: int, now: int, data: Payload, delta: Option<int>)
    ensures GetCurrentUser(cfg, sign, now, CreateRefreshToken(cfg, sign, issued, data, delta)) == None
  {
  }

  /** An access token built from data without `type = "refresh"` (as every
      caller in the service does) is never accepted as a refresh token. */
  lemma AccessTokenNeverRefresh(cfg: Config, sign: Signer, issued: int, now: int, data: Payload, delta: Option<int>)
    requires data.tokenType != Some(RefreshTokenType)
    ensures GetCurrentUserFromRefreshToken(cfg, sign, now, CreateAccessToken(cfg, sign, issued, data, delta)) == None
  {
  }

  /** Round trip: an access token for `{"sub": u}` yields `u` back exactly
      until it expires. */
  lemma AccessRoundTrip(cfg: Config, sign: Signer, issued: int, now: int, username: string, delta: Option<int>)
    ensures GetCurrentUser(cfg, sign, now, CreateAccessToken(cfg, sign, issued, Payload(Some(username), None), delta))
         == (if now < issued + Lifetime(delta, DefaultAccessLifetime) then Some(username) else None)
  {
    var t := CreateAccessToken(cfg, sign, issued, Payload(Some(username), None), delta);
    DecodeEncode(sign, cfg.secretKey, now, t.claims);
  }

  /** Round trip: a refresh token for `{"sub": u}` yields `u` back exactly
      until it expires. */
  lemma RefreshRoundTrip(cfg: Config, sign: Signer, issued: int, now: int, username: string, delta: Option<int>)
    ensures GetCurrentUserFromRefreshToken(cfg, sign, now, CreateRefreshToken(cfg, sign, issued, Payload(Some(username), None), delta))
         == (if now < issued + Lifetime(delta, RefreshFallback(cfg)) then Some(username) else None)
  {
    var t := CreateRefreshToken(cfg, sign, issued, Payload(Some(username), None), delta);
    DecodeEncode(sign, cfg.secretKey, now, t.claims);
  }

  /** Under a key-separating signer, a token issued under one secret key is
      rejected by both validators once the key is rotated. */
  lemma RotatedKeyRejects(cfg: Config, newKey: string, sign: Signer, now: int, claims: Claims)
    requires KeySeparating(sign) && newKey != cfg.secretKey
    ensures GetCurrentUser(cfg.(secretKey := newKey), sign, now, Encode(sign, cfg.secretKey, claims)) == None
    ensures GetCurrentUserFromRefreshToken(cfg.(secretKey := newKey), sign, now, Encode(sign, cfg.secretKey, claims)) == None
  {
    KeyRotationInvalidates(sign, cfg.secretKey, newKey, now, claims);
  }
}
