/** `handleSubmit` of Frontend/TaskCalender/src/pages/auth/Signup.jsx: the ordered input
    checks, the signup request, and the messages shown on success and failure. */
module SignupForm {
  import opened Wrappers
  import opened JsText
  import opened AuthNotice
  import LoginForm

  const FieldsRequired := "All required fields must be filled."
  const InvalidEmail := "Please enter a valid email address."
  const PasswordTooShort := "Password must be at least 6 characters."
  const SignupSucceededDefault := "Signup successful! Please contact admin for verification."
  const SignupFailedDefault := "Signup failed. Please try again."
  const EmailTaken := "Email already exists. Please use a different email."
  const InvalidData := "Invalid data provided. Please check your inputs."

  const MinPasswordLength: nat := 6

  /** The checks in order (required fields, email pattern, password length); only the
      first failing one is reported. The goals are optional and not checked. */
  function ValidateSignup(name: string, email: string, password: string): (r: Option<Notification>)
    ensures r.None? <==>
      name != "" && email != "" && password != "" && MatchesEmailPattern(email) &&
      Utf16Length(password) >= MinPasswordLength
    ensures name == "" || email == "" || password == "" ==> r == Some(Notification(FieldsRequired, ErrorNotice))
    ensures name != "" && email != "" && password != "" && !MatchesEmailPattern(email) ==>
      r == Some(Notification(InvalidEmail, ErrorNotice))
    ensures (name != "" && email != "" && password != "" && MatchesEmailPattern(email) &&
             Utf16Length(password) < MinPasswordLength) ==>
      r == Some(Notification(PasswordTooShort, ErrorNotice))
  {
    if name == "" || email == "" || password == "" then Some(Notification(FieldsRequired, ErrorNotice))
    else if !IsValidEmail(email) then Some(Notification(InvalidEmail, ErrorNotice))
    else if Utf16Length(password) < MinPasswordLength then Some(Notification(PasswordTooShort, ErrorNotice))
    else None
  }

  /** The message shown when the signup request fails: the server's own message when
      it sent one, else a text for 409 and 400, else the default; without a response,
      the error's message when it has one. */
  function SignupErrorMessage(f: Failure): (msg: string)
    ensures f.HttpError? && Truthy(f.bodyMessage) ==> msg == f.bodyMessage.value
    ensures f.HttpError? && !Truthy(f.bodyMessage) ==>
      msg == (if f.status == 409 then EmailTaken else if f.status == 400 then InvalidData else SignupFailedDefault)
    ensures f.NoResponse? ==> msg == if Truthy(f.message) then f.message.value else SignupFailedDefault
  {
    match f
    case HttpError(status, body) =>
      if Truthy(body) then body.value
      else if status == 409 then EmailTaken
      else if status == 400 then InvalidData
      else SignupFailedDefault
    case NoResponse(m) =>
      if Truthy(m) then m.value else SignupFailedDefault
  }

  /** The reply of a successful signup. */
  datatype SignupReply = SignupReply(message: Option<string>)

  /** The effect of one submission: the notification, whether the request was made, and
      the submitting flag afterwards (left set on success while the page navigates away). */
  datatype SignupEffect = SignupEffect(notice: Notification, requested: bool, submitting: bool)

  function SignupSubmit(name: string, email: string, password: string, submitting: bool,
                        result: Result<SignupReply, Failure>): (e: SignupEffect)
    ensures e.requested <==> ValidateSignup(name, email, password).None?
    ensures !e.requested ==> e.notice == ValidateSignup(name, email, password).value && e.submitting == submitting
    ensures e.requested && result.Ok? ==>
      e.submitting && e.notice.kind == SuccessNotice &&
      e.notice.message == (if Truthy(result.value.message) then result.value.message.value else SignupSucceededDefault)
    ensures e.requested && result.Err? ==>
      !e.submitting && e.notice == Notification(SignupErrorMessage(result.error), ErrorNotice)
  {
    match ValidateSignup(name, email, password)
    case Some(n) => SignupEffect(n, false, submitting)
    case None =>
      match result
      case Ok(reply) =>
        SignupEffect(Notification(if Truthy(reply.message) then reply.message.value else SignupSucceededDefault, SuccessNotice),
          true, true)
      case Err(f) => SignupEffect(Notification(SignupErrorMessage(f), ErrorNotice), true, false)
  }

  /** Every submission shows a non-blank message: no branch of the handler can put up
      an empty notification. */
  lemma SignupNoticeNeverBlank(name: string, email: string, password: string, submitting: bool,
                               result: Result<SignupReply, Failure>)
    ensures SignupSubmit(name, email, password, submitting, result).notice.message != ""
  {
  }

  /** Whatever passes the signup checks passes the login checks: an account created
      through the form can be logged into through the form. */
  lemma SignupAcceptedLoginAccepted(name: string, email: string, password: string)
    requires ValidateSignup(name, email, password).None?
    ensures LoginForm.ValidateLogin(email, password).None?
  {
  }

  /** The length check is the only one that depends on the password's content: with the
      other fields fine, a password of at least six UTF-16 units is accepted. */
  lemma PasswordBoundary(name: string, email: string, password: string)
    requires name != "" && email != "" && MatchesEmailPattern(email)
    ensures ValidateSignup(name, email, password).None? <==> Utf16Length(password) >= MinPasswordLength
  {
    if Utf16Length(password) >= MinPasswordLength {
      assert password != "";
    }
  }
}
