/** The login form's submit handler. */
module LoginPage {
  import opened Wrappers
  import Text

  /** What the provider's `login` did: resolved with a boolean, or threw
      (with the message when the thrown value is an `Error`). */
  datatype LoginCall = Returned(success: bool) | Threw(message: Option<string>)

  /** The form's error text, where it navigated, and whether `login` was called. */
  datatype Outcome = Outcome(error: string, navigateTo: Option<string>, loginCalled: bool)

  const BothRequired := "Please enter both email and password"
  const InvalidCredentials := "Invalid credentials. Please try again."
  const LoginFailed := "An error occurred during login. Please try again."

  /** `location.state?.from || "/"`. */
  function Destination(from: Option<string>): (path: string)
    ensures path != ""
    ensures from.Some? && from.value != "" ==> path == from.value
  {
    if from.Some? && from.value != "" then from.value else "/"
  }

  /** `handleSubmit`: the error starts empty; blank fields stop before `login`. */
  function HandleSubmit(email: string, password: string, from: Option<string>, call: LoginCall): (r: Outcome)
    ensures r.loginCalled <==> !Text.IsBlank(email) && !Text.IsBlank(password)
    ensures !r.loginCalled ==> r == Outcome(BothRequired, None, false)
    ensures r.navigateTo.Some? <==> r.loginCalled && call == Returned(true)
    ensures r.navigateTo.Some? ==> r.navigateTo.value == Destination(from) && r.error == ""
    ensures r.loginCalled && call == Returned(false) ==> r.error == InvalidCredentials
    ensures r.loginCalled && call.Threw? ==> r.error == call.message.GetOr(LoginFailed)
  {
    if Text.IsBlank(email) || Text.IsBlank(password) then Outcome(BothRequired, None, false)
    else match call
      case Returned(true) => Outcome("", Some(Destination(from)), true)
      case Returned(false) => Outcome(InvalidCredentials, None, true)
      case Threw(Some(m)) => Outcome(m, None, true)
      case Threw(None) => Outcome(LoginFailed, None, true)
  }

  /** Without a `from`, a successful login lands on the home page. */
  lemma DefaultDestinationIsHome(email: string, password: string)
    requires !Text.IsBlank(email) && !Text.IsBlank(password)
    ensures HandleSubmit(email, password, None, Returned(true)).navigateTo == Some("/")
    ensures HandleSubmit(email, password, Some(""), Returned(true)).navigateTo == Some("/")
  {
  }

  /** A whitespace-only field is reported as missing and no login is attempted. */
  lemma WhitespaceFieldBlocks(email: string, password: string, from: Option<string>, call: LoginCall)
    requires Text.AllWhitespace(email) || Text.AllWhitespace(password)
    ensures HandleSubmit(email, password, from, call) == Outcome(BothRequired, None, false)
  {
    Text.BlankIffAllWhitespace(email);
    Text.BlankIffAllWhitespace(password);
  }
}
