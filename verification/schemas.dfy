/** Request and response shapes (schemas.py) and the field constraints the
    request schema enforces before an endpoint runs. */
module Schemas {
  import opened Optional
  import Jwt

  const MinUsernameLength := 3
  const MaxUsernameLength := 50
  const MinPasswordLength := 8
  const MaxPasswordLength := 72
  const BearerTokenType := "bearer"

  predicate ValidUsername(username: string) {
    MinUsernameLength <= |username| <= MaxUsernameLength
  }

  predicate ValidPassword(password: string) {
    MinPasswordLength <= |password| <= MaxPasswordLength
  }

  /** `UserCreate`: a username and a password, both present. */
  datatype UserCreate = UserCreate(username: string, password: string)

  predicate ValidUserCreate(user: UserCreate) {
    ValidUsername(user.username) && ValidPassword(user.password)
  }

  /** `Token`, the body `/token` and `/refresh` return. */
  datatype Token = Token(accessToken: Jwt.Token, refreshToken: Jwt.Token, tokenType: string, expiresIn: int)

  /** `UserInDB`, the public view of a stored user: no password hash. */
  datatype UserInDB = UserInDB(id: int, username: string, createdAt: Option<int>)

  /** One validation error as the request validator reports it; `field` is
      the last element of its location. */
  datatype FieldError = FieldError(field: string, msg: string)

  /** A register request body as received: either field may be missing. */
  datatype UserCreateRequest = UserCreateRequest(username: Option<string>, password: Option<string>)

  /** The validator's wording for the three kinds of field error. */
  const MissingMsg := "Field required"
  const LengthMsgLeadIn := "String should have "
  const UsernameTooShortMsg := LengthMsgLeadIn + "at least 3 characters"
  const UsernameTooLongMsg := LengthMsgLeadIn + "at most 50 characters"
  const PasswordTooShortMsg := LengthMsgLeadIn + "at least 8 characters"
  const PasswordTooLongMsg := LengthMsgLeadIn + "at most 72 characters"

  /** The errors the validator reports for one string field with length
      bounds, using its standard wording. */
  function LengthErrors(field: string, value: Option<string>, min: nat, max: nat, tooShort: string, tooLong: string): (errors: seq<FieldError>)
    ensures |errors| <= 1
    ensures errors == [] <==> value.Some? && min <= |value.value| <= max
    ensures forall e | e in errors :: e.field == field
  {
    match value
    case None => [FieldError(field, MissingMsg)]
    case Some(s) =>
      if |s| < min then [FieldError(field, tooShort)]
      else if |s| > max then [FieldError(field, tooLong)]
      else []
  }

  /** All validation errors of a register request, in field order. */
  function ValidationErrors(request: UserCreateRequest): seq<FieldError> {
    LengthErrors("username", request.username, MinUsernameLength, MaxUsernameLength, UsernameTooShortMsg, UsernameTooLongMsg)
    + LengthErrors("password", request.password, MinPasswordLength, MaxPasswordLength, PasswordTooShortMsg, PasswordTooLongMsg)
  }

  /** A request passes validation exactly when both fields are present and
      within their bounds; it is then a valid `UserCreate`. */
  lemma ValidationAcceptsExactlyValid(request: UserCreateRequest)
    ensures ValidationErrors(request) == [] <==>
            request.username.Some? && request.password.Some? &&
            ValidUserCreate(UserCreate(request.username.value, request.password.value))
  {
  }

  /** A request missing either field is rejected, and the error names it. */
  lemma MissingFieldRejected(request: UserCreateRequest)
    requires request.username.None? || request.password.None?
    ensures ValidationErrors(request) != []
    ensures request.username.None? ==> FieldError("username", MissingMsg) in ValidationErrors(request)
    ensures request.password.None? ==> FieldError("password", MissingMsg) in ValidationErrors(request)
  {
  }
}
