/**
 The registration form: the validation rules each field must pass before
 the form is sent, the request body built from the accepted values, and
 the text shown under the email field when the server refuses.
 */
module Registration {
  import opened Text
  import opened Replies

  const FirstNameRequired := "First name is required"
  const FirstNameLetters := "First name must only contain letters"
  const LastNameRequired := "Last name is required"
  const LastNameLetters := "Last name must only contain letters"
  const EmailInvalid := "Invalid email address"
  const EmailRequired := "Email is required"
  const PhoneShape := "Phone number must be between 10 to 15 digits"
  const PhoneRequired := "Phone number is required"
  const PasswordShort := "Password must be at least 8 characters long"
  const PasswordRequired := "Password is required"
  const PasswordsDiffer := "Passwords must match"
  const RetypeRequired := "Please confirm your password"
  const RegistrationFallback := "Registration failed. Please try again."

  const MinPasswordLength := 8
  const MinPhoneDigits := 10
  const MaxPhoneDigits := 15

  /** The form's values, all strings, empty until typed into. */
  datatype RegisterForm = RegisterForm(firstName: string, lastName: string, email: string,
                                       phone: string, password: string, retypePassword: string)

  datatype RegisterField = FirstName | LastName | Email | Phone | Password | RetypePassword

  const AllFields := [FirstName, LastName, Email, Phone, Password, RetypePassword]

  /** `/^[a-zA-Z]+$/`. */
  predicate LettersOnly(s: string) {
    s != "" && forall i :: 0 <= i < |s| ==> IsAsciiLetter(s[i])
  }

  /** `/^\+?\d{10,15}$/`: an optional plus sign, then ten to fifteen digits and nothing else. */
  predicate PhonePattern(s: string) {
    var digits := if s != "" && s[0] == '+' then s[1..] else s;
    MinPhoneDigits <= |digits| <= MaxPhoneDigits && AllDigits(digits)
  }

  /**
   A name field's messages: `required`, then `matches`. Formik hands an empty
   value to the schema as `undefined`, which every rule except `required`
   lets through, so an empty field draws only the `required` message.
   */
  function NameErrors(s: string, required: string, letters: string): seq<string> {
    (if s == "" then [required] else []) + (if s != "" && !LettersOnly(s) then [letters] else [])
  }

  /**
   The messages each field draws, in the order its rules are declared. An
   empty value reaches the schema as `undefined` and draws only its
   `required` message. `emailWellFormed` stands for the library's own
   address check.
   */
  function FieldErrors(f: RegisterForm, emailWellFormed: bool, field: RegisterField): seq<string> {
    match field
    case FirstName => NameErrors(f.firstName, FirstNameRequired, FirstNameLetters)
    case LastName => NameErrors(f.lastName, LastNameRequired, LastNameLetters)
    case Email =>
      (if f.email != "" && !emailWellFormed then [EmailInvalid] else [])
      + (if f.email == "" then [EmailRequired] else [])
    case Phone =>
      (if f.phone != "" && !PhonePattern(f.phone) then [PhoneShape] else [])
      + (if f.phone == "" then [PhoneRequired] else [])
    case Password =>
      (if f.password != "" && |f.password| < MinPasswordLength then [PasswordShort] else [])
      + (if f.password == "" then [PasswordRequired] else [])
    case RetypePassword =>
      (if f.retypePassword != "" && f.retypePassword != f.password then [PasswordsDiffer] else [])
      + (if f.retypePassword == "" then [RetypeRequired] else [])
  }

  /** The form is sent only when no field draws a message. */
  predicate Accepted(f: RegisterForm, emailWellFormed: bool) {
    forall i :: 0 <= i < |AllFields| ==> FieldErrors(f, emailWellFormed, AllFields[i]) == []
  }

  /** A name is accepted exactly when it is non-empty and made only of ASCII letters. */
  lemma NameAcceptedIff(f: RegisterForm, emailWellFormed: bool)
    ensures FieldErrors(f, emailWellFormed, FirstName) == [] <==>
              f.firstName != "" && forall i :: 0 <= i < |f.firstName| ==> IsAsciiLetter(f.firstName[i])
    ensures FieldErrors(f, emailWellFormed, LastName) == [] <==>
              f.lastName != "" && forall i :: 0 <= i < |f.lastName| ==> IsAsciiLetter(f.lastName[i])
    ensures f.firstName == "" ==> FieldErrors(f, emailWellFormed, FirstName) == [FirstNameRequired]
    ensures f.lastName == "" ==> FieldErrors(f, emailWellFormed, LastName) == [LastNameRequired]
    ensures f.firstName != "" && !LettersOnly(f.firstName) ==> FieldErrors(f, emailWellFormed, FirstName) == [FirstNameLetters]
    ensures f.lastName != "" && !LettersOnly(f.lastName) ==> FieldErrors(f, emailWellFormed, LastName) == [LastNameLetters]
  {
  }

  /** The number of ASCII digits in `s`. */
  function DigitCount(s: string): (n: nat)
    ensures n <= |s|
  {
    if s == [] then 0 else (if IsAsciiDigit(s[0]) then 1 else 0) + DigitCount(s[1..])
  }

  lemma {:induction false} DigitCountAll(s: string)
    ensures DigitCount(s) == |s| <==> AllDigits(s)
  {
    if s != [] {
      DigitCountAll(s[1..]);
      assert forall i :: 1 <= i < |s| ==> s[i] == s[1..][i - 1];
    }
  }

  /**
   A phone number is accepted exactly when it holds ten to fifteen digits and
   its only other character, if any, is a plus sign in front.
   */
  lemma PhoneAcceptedIff(f: RegisterForm, emailWellFormed: bool)
    ensures FieldErrors(f, emailWellFormed, Phone) == [] <==>
              MinPhoneDigits <= DigitCount(f.phone) <= MaxPhoneDigits
              && forall i :: 0 <= i < |f.phone| && !IsAsciiDigit(f.phone[i]) ==> i == 0 && f.phone[i] == '+'
  {
    var s := f.phone;
    if s != "" && s[0] == '+' {
      DigitCountAll(s[1..]);
      assert forall i :: 1 <= i < |s| ==> s[i] == s[1..][i - 1];
    } else {
      DigitCountAll(s);
    }
  }

  /** A password is accepted exactly when it has at least eight characters. */
  lemma PasswordAcceptedIff(f: RegisterForm, emailWellFormed: bool)
    ensures FieldErrors(f, emailWellFormed, Password) == [] <==> |f.password| >= MinPasswordLength
    ensures f.password == "" ==> FieldErrors(f, emailWellFormed, Password) == [PasswordRequired]
    ensures 0 < |f.password| < MinPasswordLength ==> FieldErrors(f, emailWellFormed, Password) == [PasswordShort]
  {
  }

  /** The confirmation is accepted exactly when it is filled in and equal to the password. */
  lemma RetypeAcceptedIff(f: RegisterForm, emailWellFormed: bool)
    ensures FieldErrors(f, emailWellFormed, RetypePassword) == [] <==> f.retypePassword != "" && f.retypePassword == f.password
    ensures f.retypePassword == "" ==> FieldErrors(f, emailWellFormed, RetypePassword) == [RetypeRequired]
    ensures f.retypePassword != "" && f.retypePassword != f.password ==> FieldErrors(f, emailWellFormed, RetypePassword) == [PasswordsDiffer]
  {
  }

  /** An accepted form has letter-only names, a well-formed phone, a long enough password typed twice, and a non-empty email. */
  lemma AcceptedForm(f: RegisterForm, emailWellFormed: bool)
    requires Accepted(f, emailWellFormed)
    ensures LettersOnly(f.firstName) && LettersOnly(f.lastName)
    ensures f.email != "" && emailWellFormed
    ensures PhonePattern(f.phone)
    ensures |f.password| >= MinPasswordLength && f.retypePassword == f.password
  {
    assert FieldErrors(f, emailWellFormed, AllFields[0]) == [];
    assert FieldErrors(f, emailWellFormed, AllFields[1]) == [];
    assert FieldErrors(f, emailWellFormed, AllFields[2]) == [];
    assert FieldErrors(f, emailWellFormed, AllFields[3]) == [];
    assert FieldErrors(f, emailWellFormed, AllFields[4]) == [];
    assert FieldErrors(f, emailWellFormed, AllFields[5]) == [];
  }

  /** The JSON body posted to the register endpoint, with the server's field names. */
  datatype RegisterPayload = RegisterPayload(email: string, password: string, fname: string,
                                             lname: string, phonenumber: string)

  function Payload(f: RegisterForm): RegisterPayload {
    RegisterPayload(f.email, f.password, f.firstName, f.lastName, f.phone)
  }

  /** The form a payload came from, given the confirmation that was not sent. */
  function FormOf(p: RegisterPayload, retypePassword: string): RegisterForm {
    RegisterForm(p.fname, p.lname, p.email, p.phonenumber, p.password, retypePassword)
  }

  /** Every typed value except the confirmation reaches the server under its renamed key, so the form can be rebuilt from the body. */
  lemma PayloadRoundTrip(f: RegisterForm)
    ensures FormOf(Payload(f), f.retypePassword) == f
    ensures Payload(FormOf(Payload(f), "")) == Payload(f)
  {
  }

  /** The confirmation is never sent: forms that differ only in it post the same body. */
  lemma RetypeNeverSent(f: RegisterForm, other: string)
    ensures Payload(f.(retypePassword := other)) == Payload(f)
  {
  }

  /** Two forms post the same body exactly when they agree on everything but the confirmation. */
  lemma PayloadInjective(f: RegisterForm, g: RegisterForm)
    ensures Payload(f) == Payload(g) <==> f.(retypePassword := "") == g.(retypePassword := "")
  {
  }

  /** What pressing "Register" leads to. */
  datatype RegisterOutcome =
    | Blocked
    | Registered(sent: RegisterPayload)
    | EmailFieldError(sent: RegisterPayload, message: string)

  /**
   `handleSubmit` behind the schema: nothing is sent while a field draws a
   message; otherwise the payload is posted and a refusal is shown under the
   email field with the server's message or the fallback.
   */
  function Submit(f: RegisterForm, emailWellFormed: bool, reply: Reply<()>): (o: RegisterOutcome)
    ensures o.Blocked? <==> !Accepted(f, emailWellFormed)
    ensures o.Registered? <==> Accepted(f, emailWellFormed) && reply.Succeeded?
    ensures !o.Blocked? ==> o.sent == Payload(f)
    ensures o.EmailFieldError? ==> o.message == FailureText(reply.message, RegistrationFallback)
    ensures o.EmailFieldError? ==> o.message != ""
  {
    if !Accepted(f, emailWellFormed) then Blocked
    else match reply
      case Succeeded(_) => Registered(Payload(f))
      case Rejected(m) => EmailFieldError(Payload(f), FailureText(m, RegistrationFallback))
  }

  /** The untouched form draws exactly the required message on every field and is not sent. */
  lemma EmptyFormBlocked(emailWellFormed: bool, reply: Reply<()>)
    ensures Submit(RegisterForm("", "", "", "", "", ""), emailWellFormed, reply) == Blocked
    ensures FieldErrors(RegisterForm("", "", "", "", "", ""), emailWellFormed, FirstName) == [FirstNameRequired]
    ensures FieldErrors(RegisterForm("", "", "", "", "", ""), emailWellFormed, LastName) == [LastNameRequired]
    ensures FieldErrors(RegisterForm("", "", "", "", "", ""), emailWellFormed, Email) == [EmailRequired]
    ensures FieldErrors(RegisterForm("", "", "", "", "", ""), emailWellFormed, Phone) == [PhoneRequired]
    ensures FieldErrors(RegisterForm("", "", "", "", "", ""), emailWellFormed, Password) == [PasswordRequired]
    ensures FieldErrors(RegisterForm("", "", "", "", "", ""), emailWellFormed, RetypePassword) == [RetypeRequired]
  {
    var empty := RegisterForm("", "", "", "", "", "");
    assert FieldErrors(empty, emailWellFormed, AllFields[0]) != [];
  }
}
