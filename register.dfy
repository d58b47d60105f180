/**
 * The registration form's submit handler: an ordered chain of checks over
 * the trimmed e-mail, password and confirmation, the first failing check
 * deciding the outcome. The username is only echoed in the success message.
 */
module Register {
  import opened Wrappers
  import opened JsString

  const ExistingEmail: string := "alice@test.com"

  /** `password.length` must reach this, counted in UTF-16 code units. */
  const MinPasswordLength: nat := 6

  /** The outcome of a submission; a success carries the raw username the message shows. */
  datatype Verdict = PasswordMismatch | PasswordTooShort | EmailTaken | Registered(username: string)

  /** The first check that fails, in the order the handler runs them, or success. */
  function Validate(email: string, username: string, password: string, confirmPassword: string): (r: Verdict)
    ensures r == PasswordMismatch <==> Trim(password) != Trim(confirmPassword)
    ensures r == PasswordTooShort <==>
              Trim(password) == Trim(confirmPassword) && Utf16Length(Trim(password)) < MinPasswordLength
    ensures r == EmailTaken <==>
              && Trim(password) == Trim(confirmPassword)
              && Utf16Length(Trim(password)) >= MinPasswordLength
              && Trim(email) == ExistingEmail
    ensures r.Registered? <==>
              && Trim(password) == Trim(confirmPassword)
              && Utf16Length(Trim(password)) >= MinPasswordLength
              && Trim(email) != ExistingEmail
    ensures r.Registered? ==> r.username == username
  {
    var e := Trim(email);
    var p := Trim(password);
    var c := Trim(confirmPassword);
    if p != c then PasswordMismatch
    else if Utf16Length(p) < MinPasswordLength then PasswordTooShort
    else if e == ExistingEmail then EmailTaken
    else Registered(username)
  }

  /** The page the handler sends the browser to after its delay: the login page, on success only. */
  function Redirect(v: Verdict): (r: Option<string>)
    ensures r.Some? <==> v.Registered?
    ensures r.Some? ==> r.value == "login.html"
  {
    if v.Registered? then Some("login.html") else None
  }

  /** A mismatch is reported even when the password is also too short and the e-mail taken. */
  lemma MismatchReportedFirst(password: string, confirmPassword: string)
    requires Trim(password) != Trim(confirmPassword)
    requires Utf16Length(Trim(password)) < MinPasswordLength
    ensures Validate(ExistingEmail, "", password, confirmPassword) == PasswordMismatch
  {
  }

  /** Exactly six code units pass the length check: a fresh e-mail then registers. */
  lemma SixCharactersSuffice(email: string, username: string, password: string)
    requires Utf16Length(Trim(password)) == MinPasswordLength
    requires Trim(email) != ExistingEmail
    ensures Validate(email, username, password, password) == Registered(username)
  {
  }

  /** The username takes no part in the decision. */
  lemma UsernameNotValidated(email: string, u1: string, u2: string, password: string, confirmPassword: string)
    ensures Validate(email, u1, password, confirmPassword).Registered? <==>
            Validate(email, u2, password, confirmPassword).Registered?
  {
  }

  /** An e-mail padded with whitespace around the taken one is still taken. */
  lemma TakenEmailDetectedAfterTrim(email: string, password: string)
    requires Trim(email) == ExistingEmail
    requires Utf16Length(Trim(password)) >= MinPasswordLength
    ensures Validate(email, "", password, password) == EmailTaken
  {
  }
}
