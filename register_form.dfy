/** The registration form's error-message mapping and its confirm-password rule. */
module RegisterForm {
  import opened Wrappers
  import opened JsText

  /** The `error` property of a thrown object: a string, or any other value
      (including `undefined` when the property exists but is unset). */
  datatype ErrorField = StringError(text: string) | NonStringError

  /** What a failed request can throw: a string, a non-null object (with or
      without an `error` property), or anything else (`null`, a number, ...). */
  datatype Thrown = ThrownString(text: string) | ThrownObject(error: Option<ErrorField>) | ThrownOther

  const UsernameTaken := "This username is already taken."
  const EmailRegistered := "This email is already registered."
  const Generic := "Something went wrong while creating your account."
  const UsernameKey := "users_username_key"
  const EmailKey := "users_email_key"

  /** The thrown value is an object whose `error` is a string. */
  predicate HasErrorText(e: Thrown) {
    e.ThrownObject? && e.error.Some? && e.error.value.StringError?
  }

  /** `extractMessage` */
  function ExtractMessage(e: Thrown): (r: string)
    ensures e.ThrownString? ==> r == e.text
    ensures HasErrorText(e) && Includes(e.error.value.text, UsernameKey) ==> r == UsernameTaken
    ensures HasErrorText(e) && !Includes(e.error.value.text, UsernameKey) && Includes(e.error.value.text, EmailKey)
      ==> r == EmailRegistered
    ensures HasErrorText(e) && !Includes(e.error.value.text, UsernameKey) && !Includes(e.error.value.text, EmailKey)
      ==> r == e.error.value.text
    ensures !e.ThrownString? && !HasErrorText(e) ==> r == Generic
  {
    match e
    case ThrownString(text) => text
    case ThrownObject(Some(StringError(message))) =>
      if Includes(message, UsernameKey) then UsernameTaken
      else if Includes(message, EmailKey) then EmailRegistered
      else message
    case _ => Generic
  }

  /** The form shows either one of its own three messages or text the server or
      client library supplied. */
  lemma MessageOrigin(e: Thrown)
    ensures var r := ExtractMessage(e);
      r in {UsernameTaken, EmailRegistered, Generic}
      || (e.ThrownString? && r == e.text)
      || (HasErrorText(e) && r == e.error.value.text)
  {
  }

  /** A database error naming both unique keys is reported as the username clash. */
  lemma UsernameBeforeEmail(message: string)
    requires Includes(message, UsernameKey) && Includes(message, EmailKey)
    ensures ExtractMessage(ThrownObject(Some(StringError(message)))) == UsernameTaken
  {
  }

  /** An object without a usable `error` text never leaks through: it gets the generic message. */
  lemma ObjectsWithoutTextAreGeneric(field: Option<ErrorField>)
    requires field.None? || field.value.NonStringError?
    ensures ExtractMessage(ThrownObject(field)) == Generic
  {
  }

  /** The two possible outcomes of a react-hook-form `validate` rule. */
  datatype Validation = Pass | Fail(message: string)

  /** The `confirmPassword` validate rule. */
  function ValidateConfirm(value: string, password: string): (r: Validation)
    ensures r.Pass? <==> value == password
    ensures r.Fail? ==> r.message == "Passwords do not match"
  {
    if value == password then Pass else Fail("Passwords do not match")
  }

  /** Confirmation is symmetric: swapping the two fields gives the same verdict. */
  lemma ConfirmSymmetric(a: string, b: string)
    ensures ValidateConfirm(a, b) == ValidateConfirm(b, a)
  {
  }
}
