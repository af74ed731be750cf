/**
 The login form: the two validated fields, the request that posts them as
 typed, and what follows the reply (the session token is kept, or the
 refusal is shown under the email field).
 */
module Login {
  import opened Replies

  const EmailInvalid := "Invalid email address"
  const EmailRequired := "Email is required"
  const PasswordShort := "Password must be at least 6 characters"
  const PasswordRequired := "Password is required"
  const LoginFallback := "Login failed. Please try again."

  const MinPasswordLength := 6

  /** The form's values; they are also the request body, unchanged. */
  datatype Credentials = Credentials(email: string, password: string)

  /**
   The email field's messages. Formik hands an empty value to the schema as
   `undefined`, which every rule except `required` lets through; the address
   check itself is the input `emailWellFormed`.
   */
  function EmailErrors(email: string, emailWellFormed: bool): (r: seq<string>)
    ensures r == [] <==> email != "" && emailWellFormed
    ensures email == "" ==> r == [EmailRequired]
  {
    (if email != "" && !emailWellFormed then [EmailInvalid] else [])
    + (if email == "" then [EmailRequired] else [])
  }

  /** The password field's messages: `min(6)`, then `required`; an empty value draws only the latter. */
  function PasswordErrors(password: string): (r: seq<string>)
    ensures r == [] <==> |password| >= MinPasswordLength
    ensures password == "" ==> r == [PasswordRequired]
    ensures 0 < |password| < MinPasswordLength ==> r == [PasswordShort]
  {
    (if password != "" && |password| < MinPasswordLength then [PasswordShort] else [])
    + (if password == "" then [PasswordRequired] else [])
  }

  /** What pressing "Log in" leads to. */
  datatype LoginOutcome =
    | Blocked(emailErrors: seq<string>, passwordErrors: seq<string>)
    | SignedIn(sent: Credentials, token: string)
    | EmailFieldError(sent: Credentials, message: string)

  /**
   `handleSubmit` behind the schema: nothing is sent while a field draws a
   message; otherwise the values are posted as typed, and the reply's token
   is stored or the refusal is shown under the email field.
   */
  function Submit(c: Credentials, emailWellFormed: bool, reply: Reply<string>): (o: LoginOutcome)
    ensures o.Blocked? <==> c.email == "" || !emailWellFormed || |c.password| < MinPasswordLength
    ensures o.Blocked? ==> o.emailErrors == EmailErrors(c.email, emailWellFormed) && o.passwordErrors == PasswordErrors(c.password)
    ensures o.SignedIn? <==> !o.Blocked? && reply.Succeeded?
    ensures !o.Blocked? ==> o.sent == c
    ensures o.SignedIn? ==> o.token == reply.data
    ensures o.EmailFieldError? ==> o.message == FailureText(reply.message, LoginFallback) && o.message != ""
  {
    var emailErrors := EmailErrors(c.email, emailWellFormed);
    var passwordErrors := PasswordErrors(c.password);
    if emailErrors != [] || passwordErrors != [] then Blocked(emailErrors, passwordErrors)
    else match reply
      case Succeeded(token) => SignedIn(c, token)
      case Rejected(m) => EmailFieldError(c, FailureText(m, LoginFallback))
  }

  /** An empty email is refused with "Email is required", whatever the password. */
  lemma EmptyEmailRejected(password: string, emailWellFormed: bool, reply: Reply<string>)
    ensures Submit(Credentials("", password), emailWellFormed, reply).Blocked?
    ensures Submit(Credentials("", password), emailWellFormed, reply).emailErrors == [EmailRequired]
  {
  }

  /** An empty password is refused with "Password is required", whatever the email. */
  lemma EmptyPasswordRejected(email: string, emailWellFormed: bool, reply: Reply<string>)
    ensures Submit(Credentials(email, ""), emailWellFormed, reply).Blocked?
    ensures Submit(Credentials(email, ""), emailWellFormed, reply).passwordErrors == [PasswordRequired]
  {
  }

  /** A refusal without a message from the server shows the fallback text. */
  lemma SilentRefusalShowsFallback(c: Credentials)
    requires c.email != "" && |c.password| >= MinPasswordLength
    ensures Submit(c, true, Rejected(None)) == EmailFieldError(c, LoginFallback)
  {
  }
}
