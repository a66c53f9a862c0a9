/** The sign-up form (src/components/Signup.jsx): the live password-match
    indicators and the submit handler's validation and message state. The
    registration request's answer is a parameter. */
module SignupForm {
  import opened ChatTypes

  datatype Form = Form(
    username: string,
    email: string,
    password: string,
    password2: string,
    error: string,
    success: string,
    isLoading: bool)

  /** The body of POST /register. */
  datatype Registration = Registration(username: string, email: string, password: string, password2: string)

  /** How the registration request ended: accepted, or refused with the
      `message` field of the error body when there was one. */
  datatype RegisterOutcome = Registered | Refused(serverMessage: Option<string>)

  /** The form after a submit, and the request it sent, if any. */
  datatype Submitted = Submitted(form: Form, request: Option<Registration>)

  const Mismatch := "Passwords do not match!"
  const Created := "Account created successfully! Redirecting to login..."
  const UnknownError := "An unknown error occurred. Please try again."

  /** The green "Passwords match!" hint: both fields filled in and equal. */
  predicate PasswordsDoMatch(f: Form) {
    f.password != "" && f.password2 != "" && f.password == f.password2
  }

  /** The red "Passwords do not match." hint: both fields filled in and different. */
  predicate PasswordsDontMatch(f: Form) {
    f.password != "" && f.password2 != "" && f.password != f.password2
  }

  /** The error text for a refused registration: the server's message when it
      sent a non-empty one, the fixed fallback otherwise. */
  function RefusalText(serverMessage: Option<string>): (r: string)
    ensures r != ""
    ensures r == UnknownError || serverMessage == Some(r)
    ensures serverMessage.Some? && serverMessage.value != "" ==> r == serverMessage.value
  {
    if serverMessage.Some? && serverMessage.value != "" then serverMessage.value else UnknownError
  }

  /** `handleSignup`. Both messages are cleared first. Different passwords
      stop the submit with the mismatch error, no request, and the loading
      flag untouched. Otherwise the registration is sent; on success the
      success message is shown, on refusal the server's or the fallback
      error, and loading ends in both cases. The typed fields never change. */
  function HandleSignup(f: Form, outcome: RegisterOutcome): (out: Submitted)
    ensures out.form.username == f.username && out.form.email == f.email
    ensures out.form.password == f.password && out.form.password2 == f.password2
    ensures out.request.None? <==> f.password != f.password2
    ensures f.password != f.password2 ==>
      out.form.error == Mismatch && out.form.success == "" && out.form.isLoading == f.isLoading
    ensures f.password == f.password2 ==>
      && out.request == Some(Registration(f.username, f.email, f.password, f.password2))
      && !out.form.isLoading
    ensures f.password == f.password2 && outcome.Registered? ==>
      out.form.success == Created && out.form.error == ""
    ensures f.password == f.password2 && outcome.Refused? ==>
      out.form.success == "" && out.form.error == RefusalText(outcome.serverMessage)
  {
    var cleared := f.(error := "", success := "");
    if f.password != f.password2 then
      Submitted(cleared.(error := Mismatch), None)
    else
      var sent := Registration(f.username, f.email, f.password, f.password2);
      match outcome
      case Registered => Submitted(cleared.(success := Created, isLoading := false), Some(sent))
      case Refused(message) => Submitted(cleared.(error := RefusalText(message), isLoading := false), Some(sent))
  }

  /** The two hints are never shown together, neither is shown while a field
      is empty, and with both fields filled in exactly one is shown. */
  lemma HintsExclusive(f: Form)
    ensures !(PasswordsDoMatch(f) && PasswordsDontMatch(f))
    ensures f.password == "" || f.password2 == "" ==> !PasswordsDoMatch(f) && !PasswordsDontMatch(f)
    ensures f.password != "" && f.password2 != "" ==> PasswordsDoMatch(f) != PasswordsDontMatch(f)
  {
  }

  /** The red hint predicts the submit check: while it is shown, a submit
      sends nothing and reports the mismatch; while the green one is shown, a
      submit sends the registration. */
  lemma HintsPredictSubmit(f: Form, outcome: RegisterOutcome)
    ensures PasswordsDontMatch(f) ==>
      HandleSignup(f, outcome).request.None? && HandleSignup(f, outcome).form.error == Mismatch
    ensures PasswordsDoMatch(f) ==> HandleSignup(f, outcome).request.Some?
  {
  }

  /** Messages left over from an earlier submit never survive the next one:
      the outcome depends on the typed fields and the server's answer only. */
  lemma SubmitForgetsEarlierMessages(f: Form, error: string, success: string, outcome: RegisterOutcome)
    ensures HandleSignup(f.(error := error, success := success), outcome) == HandleSignup(f, outcome)
  {
  }
}
