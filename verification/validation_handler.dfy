/** The handler main.py installs for request-validation errors: each error
    becomes one Spanish message, chosen by field and by substrings of the
    validator's text, and the messages are joined with " | ". */
module ValidationHandler {
  import opened Optional
  import opened Schemas

  const GenericDetail := "Error de validación"
  const Separator := " | "

  predicate StartsWith(s: string, prefix: string) {
    |prefix| <= |s| && s[..|prefix|] == prefix
  }

  /** Python's `sub in s` on strings. */
  predicate Contains(s: string, sub: string) {
    exists i | 0 <= i <= |s| - |sub| :: StartsWith(s[i..], sub)
  }

  /** The message for one error. */
  function ErrorMessage(error: FieldError): string {
    if error.field == "password" then
      if Contains(error.msg, "at least 8 characters") then "La contraseña debe tener al menos 8 caracteres"
      else if Contains(error.msg, "at most 72 characters") then "La contraseña no puede exceder 72 caracteres"
      else "Error en la contraseña: " + error.msg
    else if error.field == "username" then
      if Contains(error.msg, "at least 3 characters") then "El usuario debe tener al menos 3 caracteres"
      else if Contains(error.msg, "at most 50 characters") then "El usuario no puede exceder 50 caracteres"
      else "Error en el usuario: " + error.msg
    else
      "Error en " + error.field + ": " + error.msg
  }

  /** `sep.join(parts)`. */
  function Join(parts: seq<string>, sep: string): string
    decreases |parts|
  {
    if |parts| == 0 then ""
    else if |parts| == 1 then parts[0]
    else parts[0] + sep + Join(parts[1..], sep)
  }

  /** The messages of a list of errors: one per error, in order. */
  function Messages(errors: seq<FieldError>): seq<string> {
    seq(|errors|, i requires 0 <= i < |errors| => ErrorMessage(errors[i]))
  }

  /** The `detail` the handler responds with. */
  function Detail(errors: seq<FieldError>): string {
    if |errors| == 0 then GenericDetail else Join(Messages(errors), Separator)
  }

  /** `validation_exception_handler`: collects one message per error, then
      joins them, or answers with the generic detail when there are none. */
  method HandleValidationErrors(errors: seq<FieldError>) returns (detail: string)
    ensures detail == Detail(errors)
  {
    var errorMessages: seq<string> := [];
    var i := 0;
    while i < |errors|
      invariant 0 <= i <= |errors|
      invariant |errorMessages| == i
      invariant forall k | 0 <= k < i :: errorMessages[k] == ErrorMessage(errors[k])
    {
      errorMessages := errorMessages + [ErrorMessage(errors[i])];
      i := i + 1;
    }
    assert errorMessages == Messages(errors);
    if |errorMessages| > 0 {
      detail := Join(errorMessages, Separator);
    } else {
      detail := GenericDetail;
    }
  }

  lemma ContainsPrefix(s: string, t: string)
    ensures Contains(s + t, s)
  {
    assert (s + t)[0..][..|s|] == s;
  }

  lemma ContainsInSuffix(s: string, t: string, sub: string)
    requires Contains(t, sub)
    ensures Contains(s + t, sub)
  {
    var i :| 0 <= i <= |t| - |sub| && StartsWith(t[i..], sub);
    assert (s + t)[|s| + i..] == t[i..];
  }

  /** Every character of a contained string occurs in the containing one. */
  lemma ContainsOnlyOwnCharacters(s: string, sub: string, c: char)
    requires Contains(s, sub) && c in sub
    ensures c in s
  {
    var i :| 0 <= i <= |s| - |sub| && StartsWith(s[i..], sub);
    var k :| 0 <= k < |sub| && sub[k] == c;
    assert s[i + k] == s[i..][..|sub|][k];
  }

  /** Each part occurs in the joined string. */
  lemma {:induction false} JoinContainsEachPart(parts: seq<string>, sep: string, i: nat)
    requires i < |parts|
    ensures Contains(Join(parts, sep), parts[i])
    decreases |parts|
  {
    if |parts| == 1 {
      assert Join(parts, sep) == parts[0] + "";
      ContainsPrefix(parts[0], "");
    } else if i == 0 {
      ContainsPrefix(parts[0], sep + Join(parts[1..], sep));
      assert Join(parts, sep) == parts[0] + (sep + Join(parts[1..], sep));
    } else {
      JoinContainsEachPart(parts[1..], sep, i - 1);
      assert parts[1..][i - 1] == parts[i];
      ContainsInSuffix(parts[0] + sep, Join(parts[1..], sep), parts[i]);
    }
  }

  /** The detail reports every error: each error's message occurs in it. */
  lemma DetailReportsEveryError(errors: seq<FieldError>, i: nat)
    requires i < |errors|
    ensures Contains(Detail(errors), ErrorMessage(errors[i]))
  {
    JoinContainsEachPart(Messages(errors), Separator, i);
  }

  /** A single error is reported by its message alone, without separator. */
  lemma SingleErrorDetail(error: FieldError)
    ensures Detail([error]) == ErrorMessage(error)
  {
  }

  /** `sub in prefix + sub`. */
  lemma ContainsAtEnd(prefix: string, sub: string)
    ensures Contains(prefix + sub, sub)
  {
    assert (prefix + sub)[|prefix|..] == sub;
  }

  /** A string lacking one of the characters of `sub` does not contain it. */
  lemma NotContainsWithoutCharacter(s: string, sub: string, c: char)
    requires c in sub && c !in s
    ensures !Contains(s, sub)
  {
    if Contains(s, sub) {
      ContainsOnlyOwnCharacters(s, sub, c);
    }
  }

  // Which key phrases the validator's messages contain, one fact at a time.

  lemma UsernameTooShortHasKey()
    ensures Contains(UsernameTooShortMsg, "at least 3 characters")
  {
    ContainsAtEnd(LengthMsgLeadIn, "at least 3 characters");
  }

  lemma UsernameTooLongHasKey()
    ensures Contains(UsernameTooLongMsg, "at most 50 characters")
  {
    ContainsAtEnd(LengthMsgLeadIn, "at most 50 characters");
  }

  lemma UsernameTooLongLacksMinKey()
    ensures !Contains(UsernameTooLongMsg, "at least 3 characters")
  {
    NotContainsWithoutCharacter(UsernameTooLongMsg, "at least 3 characters", '3');
  }

  lemma PasswordTooShortHasKey()
    ensures Contains(PasswordTooShortMsg, "at least 8 characters")
  {
    ContainsAtEnd(LengthMsgLeadIn, "at least 8 characters");
  }

  lemma PasswordTooLongHasKey()
    ensures Contains(PasswordTooLongMsg, "at most 72 characters")
  {
    ContainsAtEnd(LengthMsgLeadIn, "at most 72 characters");
  }

  lemma PasswordTooLongLacksMinKey()
    ensures !Contains(PasswordTooLongMsg, "at least 8 characters")
  {
    NotContainsWithoutCharacter(PasswordTooLongMsg, "at least 8 characters", '8');
  }

  lemma MissingLacksUsernameKeys()
    ensures !Contains(MissingMsg, "at least 3 characters") && !Contains(MissingMsg, "at most 50 characters")
  {
    NotContainsWithoutCharacter(MissingMsg, "at least 3 characters", '3');
    NotContainsWithoutCharacter(MissingMsg, "at most 50 characters", '5');
  }

  lemma MissingLacksPasswordKeys()
    ensures !Contains(MissingMsg, "at least 8 characters") && !Contains(MissingMsg, "at most 72 characters")
  {
    NotContainsWithoutCharacter(MissingMsg, "at least 8 characters", '8');
    NotContainsWithoutCharacter(MissingMsg, "at most 72 characters", '7');
  }

  // How the handler renders a username or password error, by the phrases
  // its message contains; the branches are tried in this order.

  lemma UsernameTooShortMessage(msg: string)
    requires Contains(msg, "at least 3 characters")
    ensures ErrorMessage(FieldError("username", msg)) == "El usuario debe tener al menos 3 caracteres"
  {
  }

  lemma UsernameTooLongMessage(msg: string)
    requires !Contains(msg, "at least 3 characters") && Contains(msg, "at most 50 characters")
    ensures ErrorMessage(FieldError("username", msg)) == "El usuario no puede exceder 50 caracteres"
  {
  }

  lemma UsernameOtherMessage(msg: string)
    requires !Contains(msg, "at least 3 characters") && !Contains(msg, "at most 50 characters")
    ensures ErrorMessage(FieldError("username", msg)) == "Error en el usuario: " + msg
  {
  }

  lemma PasswordTooShortMessage(msg: string)
    requires Contains(msg, "at least 8 characters")
    ensures ErrorMessage(FieldError("password", msg)) == "La contraseña debe tener al menos 8 caracteres"
  {
  }

  lemma PasswordTooLongMessage(msg: string)
    requires !Contains(msg, "at least 8 characters") && Contains(msg, "at most 72 characters")
    ensures ErrorMessage(FieldError("password", msg)) == "La contraseña no puede exceder 72 caracteres"
  {
  }

  lemma PasswordOtherMessage(msg: string)
    requires !Contains(msg, "at least 8 characters") && !Contains(msg, "at most 72 characters")
    ensures ErrorMessage(FieldError("password", msg)) == "Error en la contraseña: " + msg
  {
  }

  /** Any other field is reported under its own name. */
  lemma OtherFieldMessage(field: string, msg: string)
    requires field != "username" && field != "password"
    ensures ErrorMessage(FieldError(field, msg)) == "Error en " + field + ": " + msg
  {
  }

  /** A too-short password with a good username. */
  lemma ShortPasswordDetail(username: string, password: string)
    requires ValidUsername(username) && |password| < MinPasswordLength
    ensures Detail(ValidationErrors(UserCreateRequest(Some(username), Some(password))))
            == "La contraseña debe tener al menos 8 caracteres"
  {
    PasswordTooShortHasKey();
    PasswordTooShortMessage(PasswordTooShortMsg);
    assert ValidationErrors(UserCreateRequest(Some(username), Some(password))) == [FieldError("password", PasswordTooShortMsg)];
  }

  /** A too-short username with a good password. */
  lemma ShortUsernameDetail(username: string, password: string)
    requires |username| < MinUsernameLength && ValidPassword(password)
    ensures Detail(ValidationErrors(UserCreateRequest(Some(username), Some(password))))
            == "El usuario debe tener al menos 3 caracteres"
  {
    UsernameTooShortHasKey();
    UsernameTooShortMessage(UsernameTooShortMsg);
    assert ValidationErrors(UserCreateRequest(Some(username), Some(password))) == [FieldError("username", UsernameTooShortMsg)];
  }

  /** A too-long username with a good password. */
  lemma LongUsernameDetail(username: string, password: string)
    requires |username| > MaxUsernameLength && ValidPassword(password)
    ensures Detail(ValidationErrors(UserCreateRequest(Some(username), Some(password))))
            == "El usuario no puede exceder 50 caracteres"
  {
    UsernameTooLongLacksMinKey();
    UsernameTooLongHasKey();
    UsernameTooLongMessage(UsernameTooLongMsg);
    assert ValidationErrors(UserCreateRequest(Some(username), Some(password))) == [FieldError("username", UsernameTooLongMsg)];
  }

  /** Two errors are reported as their two messages around one separator. */
  lemma TwoErrorsDetail(first: FieldError, second: FieldError)
    ensures Detail([first, second]) == ErrorMessage(first) + Separator + ErrorMessage(second)
  {
    var messages := Messages([first, second]);
    assert messages == [ErrorMessage(first), ErrorMessage(second)];
    assert messages[1..] == [ErrorMessage(second)];
    assert Join(messages, Separator) == messages[0] + Separator + Join(messages[1..], Separator);
  }

  /** An empty body: both fields are reported missing, username first. */
  lemma EmptyBodyDetail()
    ensures Detail(ValidationErrors(UserCreateRequest(None, None)))
            == "Error en el usuario: Field required" + Separator + "Error en la contraseña: Field required"
  {
    MissingLacksUsernameKeys();
    UsernameOtherMessage(MissingMsg);
    MissingLacksPasswordKeys();
    PasswordOtherMessage(MissingMsg);
    assert ValidationErrors(UserCreateRequest(None, None)) == [FieldError("username", MissingMsg), FieldError("password", MissingMsg)];
    TwoErrorsDetail(FieldError("username", MissingMsg), FieldError("password", MissingMsg));
  }
}
