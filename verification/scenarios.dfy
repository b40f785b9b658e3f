/** The request sequences of the repository's test suite (test_main.py),
    replayed on the model from an empty store with the default
    configuration; the postconditions, verified, are what the tests assert. */
module Scenarios {
  import opened Jwt
  import opened Passwords
  import opened Auth
  import opened Schemas
  import opened Crud
  import opened Api

  /** Registering a new user answers 201 with that username; registering
      the same username again answers 400 with the duplicate detail. */
  method DuplicateRegistration(hasher: Hasher, salt1: Salt, salt2: Salt, now: int)
    returns (first: Result<UserInDB>, second: Result<UserInDB>)
    requires Sound(hasher)
    ensures first.Ok? && first.status == HttpCreated && first.value.username == "duplicateuser"
    ensures second == Err(HttpBadRequest, DuplicateUsernameDetail)
  {
    var store := new UserStore(hasher);
    var request := UserCreate("duplicateuser", "securepassword123");
    first := Register(store, request, salt1, now);
    second := Register(store, request, salt2, now);
  }

  /** After registration: the right password logs in with a bearer pair,
      a wrong password and an unknown user get the same 401, the access
      token reads the user back, an invalid token is refused, and the
      refresh token yields a new pair. */
  method AuthenticationFlow(hasher: Hasher, sign: Signer, salt: Salt, now: int)
    returns (good: Result<Schemas.Token>, wrongPassword: Result<Schemas.Token>, unknownUser: Result<Schemas.Token>,
             me: Result<UserInDB>, invalid: Result<UserInDB>, refreshed: Result<Schemas.Token>)
    requires Sound(hasher)
    ensures good.Ok? && good.status == HttpOk && good.value.tokenType == "bearer"
    ensures wrongPassword == Err(HttpUnauthorized, InvalidCredentialsDetail) && wrongPassword == unknownUser
    ensures me.Ok? && me.status == HttpOk && me.value.username == "authuser"
    ensures invalid == Err(HttpUnauthorized, AccessCredentialsDetail)
    ensures refreshed.Ok? && refreshed.status == HttpOk
  {
    var cfg := DefaultConfig();
    var store := new UserStore(hasher);
    var registered := Register(store, UserCreate("authuser", "testpassword123"), salt, now);
    good := Login(store, cfg, sign, now, "authuser", "testpassword123");
    wrongPassword := Login(store, cfg, sign, now, "authuser", "wrongpassword");
    unknownUser := Login(store, cfg, sign, now, "nonexistent", "password123");
    IssuedPairKeepsTypes(cfg, sign, now, now, "authuser");
    me := ReadUsersMe(store, cfg, sign, now, good.value.accessToken);
    invalid := ReadUsersMe(store, cfg, sign, now, Malformed("invalid_token"));
    refreshed := Refresh(cfg, sign, now, good.value.refreshToken);
  }

  /** A password full of special characters registers and logs in. */
  method SpecialCharacterPassword(hasher: Hasher, sign: Signer, salt: Salt, now: int)
    returns (registered: Result<UserInDB>, login: Result<Schemas.Token>)
    requires Sound(hasher)
    ensures registered.Ok? && registered.status == HttpCreated
    ensures login.Ok? && login.status == HttpOk
  {
    var store := new UserStore(hasher);
    registered := Register(store, UserCreate("specialuser", "P@ssw0rd!#$%&*"), salt, now);
    login := Login(store, DefaultConfig(), sign, now, "specialuser", "P@ssw0rd!#$%&*");
  }
}
