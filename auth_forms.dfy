/**
 * The login and signup forms: required-field validation, the values handed to
 * `onSubmit`, and the loading flag around the submission.
 */
module AuthForms {
  import opened Wrappers
  import opened Text

  const NameRequired := "Vui lòng nhập tên hiển thị"
  const EmailRequired := "Vui lòng nhập email"
  const PasswordRequired := "Vui lòng nhập mật khẩu"
  const LoginFailed := "Đăng nhập thất bại, vui lòng kiểm tra lại thông tin."

  /** What the login form hands to `onSubmit`. */
  datatype LoginValues = LoginValues(email: string, password: string)

  /** What the signup form hands to `onSubmit`. */
  datatype SignupValues = SignupValues(name: string, email: string, password: string)

  /** The error of a required field: `message` when the trimmed value is empty. */
  function RequiredError(value: string, message: string): Option<string> {
    if Trim(value) == "" then Some(message) else None
  }

  /** A required field shows no error exactly when it holds a character other than white space, and otherwise shows its message. */
  lemma RequiredErrorSpec(value: string, message: string)
    ensures RequiredError(value, message).None? <==> !IsBlank(value)
    ensures RequiredError(value, message).Some? ==> RequiredError(value, message).value == message
  {
    TrimEmptyIffBlank(value);
  }

  /** The state of the login form. */
  class LoginFormState {
    var email: string
    var password: string
    var emailError: Option<string>
    var passwordError: Option<string>
    var formError: Option<string>
    var loading: bool

    constructor ()
      ensures email == "" && password == "" && !loading
      ensures emailError.None? && passwordError.None? && formError.None?
    {
      email := "";
      password := "";
      emailError := None;
      passwordError := None;
      formError := None;
      loading := false;
    }

    /**
     * `handleLoginPress` up to the call of `onSubmit`. While a submission is
     * pending a press does nothing. Otherwise the errors are cleared, each
     * field is checked independently, and only when both are filled and there
     * is an `onSubmit` does the form start loading and hand over the trimmed
     * email and the password as typed.
     */
    method HandleLoginPress(hasOnSubmit: bool) returns (submitted: Option<LoginValues>)
      modifies this`emailError, this`passwordError, this`formError, this`loading
      ensures old(loading) ==> submitted.None? && unchanged(this)
      ensures !old(loading) ==>
        emailError == RequiredError(email, EmailRequired) &&
        passwordError == RequiredError(password, PasswordRequired) &&
        formError.None?
      ensures submitted.Some? <==> !old(loading) && !IsBlank(email) && !IsBlank(password) && hasOnSubmit
      ensures submitted.Some? ==> submitted.value == LoginValues(Trim(email), password)
      ensures loading == (old(loading) || submitted.Some?)
    {
      if loading {
        return None;
      }
      var em, pw := email, password;
      var e := RequiredError(em, EmailRequired);
      var p := RequiredError(pw, PasswordRequired);
      RequiredErrorSpec(em, EmailRequired);
      RequiredErrorSpec(pw, PasswordRequired);
      var ok := e.None? && p.None?;
      assert ok <==> !IsBlank(em) && !IsBlank(pw);
      emailError, passwordError, formError := e, p, None;
      assert email == em && password == pw;
      if !ok || !hasOnSubmit {
        return None;
      }
      loading := true;
      submitted := Some(LoginValues(Trim(em), pw));
    }

    /**
     * The submission settles: `rejection` is None when `onSubmit` resolved and
     * otherwise the `message` of what it threw ("" when there is none). A
     * rejection shows its message or, failing that, the generic login error;
     * loading ends either way.
     */
    method SubmitSettled(rejection: Option<string>)
      modifies this`formError, this`loading
      ensures !loading
      ensures formError == match rejection
        case None => old(formError)
        case Some(message) => Some(if message != "" then message else LoginFailed)
      ensures rejection.Some? ==> formError.Some? && formError.value != ""
    {
      if rejection.Some? {
        formError := Some(if rejection.value != "" then rejection.value else LoginFailed);
      }
      loading := false;
    }
  }

  /** The state of the signup form. */
  class SignupFormState {
    var name: string
    var email: string
    var password: string
    var nameError: Option<string>
    var emailError: Option<string>
    var passwordError: Option<string>
    var formError: Option<string>
    var loading: bool

    constructor ()
      ensures name == "" && email == "" && password == "" && !loading
      ensures nameError.None? && emailError.None? && passwordError.None? && formError.None?
    {
      name := "";
      email := "";
      password := "";
      nameError := None;
      emailError := None;
      passwordError := None;
      formError := None;
      loading := false;
    }

    /**
     * `handleSignupPress` up to the timer: the errors are cleared and each
     * field is checked independently. When all three are filled the form
     * starts loading, and the values the timer will hand over (trimmed name
     * and email, the password as typed) are fixed now. There is no loading
     * guard.
     */
    method HandleSignupPress() returns (pending: Option<SignupValues>)
      modifies this`nameError, this`emailError, this`passwordError, this`formError, this`loading
      ensures nameError == RequiredError(name, NameRequired)
      ensures emailError == RequiredError(email, EmailRequired)
      ensures passwordError == RequiredError(password, PasswordRequired)
      ensures formError.None?
      ensures pending.Some? <==> !IsBlank(name) && !IsBlank(email) && !IsBlank(password)
      ensures pending.Some? ==> pending.value == SignupValues(Trim(name), Trim(email), password)
      ensures loading == (old(loading) || pending.Some?)
    {
      RequiredErrorSpec(name, NameRequired);
      RequiredErrorSpec(email, EmailRequired);
      RequiredErrorSpec(password, PasswordRequired);
      var n := RequiredError(name, NameRequired);
      var e := RequiredError(email, EmailRequired);
      var p := RequiredError(password, PasswordRequired);
      nameError, emailError, passwordError, formError := n, e, p, None;
      if !(n.None? && e.None? && p.None?) {
        return None;
      }
      loading := true;
      pending := Some(SignupValues(Trim(name), Trim(email), password));
    }

    /** The 700 ms timer: loading ends, and the values fixed at the press go to `onSubmit` when there is one. */
    method TimerFired(pending: SignupValues, hasOnSubmit: bool) returns (submitted: Option<SignupValues>)
      modifies this`loading
      ensures !loading
      ensures submitted == if hasOnSubmit then Some(pending) else None
    {
      loading := false;
      submitted := if hasOnSubmit then Some(pending) else None;
    }
  }
}
