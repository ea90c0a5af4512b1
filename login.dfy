/** `handleSubmit` of Frontend/TaskCalender/src/pages/auth/Login.jsx: the two input
    checks, the login request, and the choice of the message shown on failure. */
module LoginForm {
  import opened Wrappers
  import opened JsText
  import opened AuthNotice

  const BothRequired := "Please enter both email and password."
  const InvalidEmail := "Please enter a valid email address."
  const LoginSucceeded := "Login successful! Redirecting..."
  const LoginFailedDefault := "Login failed. Please try again."
  const BadCredentials := "Invalid email or password."
  const NotVerified := "Your account is not verified yet. Please contact the administrator."
  const NoAccount := "Account not found. Please check your email."

  /** The checks before any request: both fields filled, then the email pattern. */
  function ValidateLogin(email: string, password: string): (r: Option<Notification>)
    ensures r.None? <==> email != "" && password != "" && MatchesEmailPattern(email)
    ensures email == "" || password == "" ==> r == Some(Notification(BothRequired, ErrorNotice))
    ensures email != "" && password != "" && !MatchesEmailPattern(email) ==>
      r == Some(Notification(InvalidEmail, ErrorNotice))
  {
    if email == "" || password == "" then Some(Notification(BothRequired, ErrorNotice))
    else if !IsValidEmail(email) then Some(Notification(InvalidEmail, ErrorNotice))
    else None
  }

  /** The message shown when the login request fails. */
  function LoginErrorMessage(f: Failure): (msg: string)
    ensures f.HttpError? && Truthy(f.bodyMessage) && f.bodyMessage.value != "Unauthorized" ==>
      msg == f.bodyMessage.value
    ensures f.HttpError? && !(Truthy(f.bodyMessage) && f.bodyMessage.value != "Unauthorized") ==>
      msg == (if f.status == 401 then BadCredentials
              else if f.status == 403 then NotVerified
              else if f.status == 404 then NoAccount
              else LoginFailedDefault)
    ensures f.NoResponse? ==> msg == if Truthy(f.message) then f.message.value else LoginFailedDefault
  {
    match f
    case HttpError(status, body) =>
      if Truthy(body) && body.value != "Unauthorized" then body.value
      else if status == 401 then BadCredentials
      else if status == 403 then NotVerified
      else if status == 404 then NoAccount
      else LoginFailedDefault
    case NoResponse(m) =>
      if Truthy(m) then m.value else LoginFailedDefault
  }

  /** The failure message is never blank, and a server reply never shows the generic
      "Unauthorized" text. */
  lemma LoginErrorMessageShown(f: Failure)
    ensures LoginErrorMessage(f) != ""
    ensures f.HttpError? ==> LoginErrorMessage(f) != "Unauthorized"
  {
    assert |"Unauthorized"| == 12;
    assert |BadCredentials| != 12 && |NotVerified| != 12 && |NoAccount| != 12 && |LoginFailedDefault| != 12;
  }

  /** The effect of one submission: the notification, whether the login request was
      made, and the submitting flag afterwards. */
  datatype LoginEffect = LoginEffect(notice: Notification, requested: bool, submitting: bool)

  /** `handleSubmit`: `result` is the outcome of the login request, used only when the
      checks pass. */
  function LoginSubmit(email: string, password: string, submitting: bool, result: Option<Failure>): (e: LoginEffect)
    ensures e.requested <==> ValidateLogin(email, password).None?
    ensures !e.requested ==> e.notice == ValidateLogin(email, password).value && e.submitting == submitting
    ensures e.requested ==> !e.submitting
    ensures e.requested && result.None? ==> e.notice == Notification(LoginSucceeded, SuccessNotice)
    ensures e.requested && result.Some? ==> e.notice == Notification(LoginErrorMessage(result.value), ErrorNotice)
  {
    match ValidateLogin(email, password)
    case Some(n) => LoginEffect(n, false, submitting)
    case None =>
      match result
      case None => LoginEffect(Notification(LoginSucceeded, SuccessNotice), true, false)
      case Some(f) => LoginEffect(Notification(LoginErrorMessage(f), ErrorNotice), true, false)
  }

  /** Every submission shows a non-blank message. */
  lemma LoginNoticeNeverBlank(email: string, password: string, submitting: bool, result: Option<Failure>)
    ensures LoginSubmit(email, password, submitting, result).notice.message != ""
  {
    if result.Some? {
      LoginErrorMessageShown(result.value);
    }
  }

  /** A request is only ever made with an email of the form local@domain.tld. */
  lemma RequestedEmailsMatch(email: string, password: string, submitting: bool, result: Option<Failure>)
    requires LoginSubmit(email, password, submitting, result).requested
    ensures exists i :: 0 < i < |email| && email[i] == '@' && '@' !in email[..i] && '@' !in email[i + 1..]
  {
    var i := IndexOf(email, '@').value;
    EmailPatternAt(email, i);
    assert AllPart(email[i + 1..]);
  }
}
