/**
 * The login form's submit handler: the entered e-mail and password are
 * trimmed and compared with the one simulated account.
 */
module Login {
  import opened Wrappers
  import opened JsString

  const TestEmail: string := "utilisateur@test.com"
  const TestPassword: string := "password123"

  /** The three outcomes of a submission. */
  datatype Verdict = LoggedIn | WrongPassword | UnknownUser

  /**
   * The `if / else if / else` of the handler, over the trimmed inputs:
   * success iff both match; a known e-mail with another password is a wrong
   * password; every other e-mail, whatever the password, is an unknown user.
   */
  function Classify(enteredUsername: string, enteredPassword: string): (r: Verdict)
    ensures r == LoggedIn <==> Trim(enteredUsername) == TestEmail && Trim(enteredPassword) == TestPassword
    ensures r == WrongPassword <==> Trim(enteredUsername) == TestEmail && Trim(enteredPassword) != TestPassword
    ensures r == UnknownUser <==> Trim(enteredUsername) != TestEmail
  {
    var username := Trim(enteredUsername);
    var password := Trim(enteredPassword);
    if username == TestEmail && password == TestPassword then LoggedIn
    else if username == TestEmail && password != TestPassword then WrongPassword
    else UnknownUser
  }

  /** The page the handler sends the browser to after its delay: the home page, on success only. */
  function Redirect(v: Verdict): (r: Option<string>)
    ensures r.Some? <==> v == LoggedIn
    ensures r.Some? ==> r.value == "index.html"
  {
    if v == LoggedIn then Some("index.html") else None
  }

  /** Inputs that are already trimmed classify as the raw inputs do. */
  lemma ClassifyOfTrimmed(enteredUsername: string, enteredPassword: string)
    ensures Classify(Trim(enteredUsername), Trim(enteredPassword)) == Classify(enteredUsername, enteredPassword)
  {
    TrimIdempotent(enteredUsername);
    TrimIdempotent(enteredPassword);
  }

  /** The right password under any other e-mail is still an unknown user. */
  lemma RightPasswordWrongEmail(enteredUsername: string, enteredPassword: string)
    requires Trim(enteredUsername) != TestEmail
    requires Trim(enteredPassword) == TestPassword
    ensures Classify(enteredUsername, enteredPassword) == UnknownUser
    ensures Redirect(Classify(enteredUsername, enteredPassword)).None?
  {
  }
}
