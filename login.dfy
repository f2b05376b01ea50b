/** The login form: email, password, a visibility toggle and the remember-me
    choice, and a validation chain that either reports its first failing check
    or starts a login with the trimmed email. */
module Login {
  import opened Wrappers
  import opened Text
  import SignUp

  /** The checks of the chain, in the order they run. */
  datatype LoginFailure = NoEmail | NoPassword | BadEmail

  /** The message the form shows for a failed check. */
  function Message(f: LoginFailure): string {
    match f
    case NoEmail => "Please enter your email"
    case NoPassword => "Please enter your password"
    case BadEmail => "Please enter a valid email"
  }

  /** The first failing check of the chain, or none when all pass. */
  function LoginError(email: string, password: string): Option<LoginFailure> {
    if email == [] then Some(NoEmail)
    else if password == [] then Some(NoPassword)
    else if '@' !in email then Some(BadEmail)
    else None
  }

  /** The checks run in the order email empty, password empty, email without
      '@': each failure is reported exactly when its check is the first to
      fail, and none exactly when every check passes. */
  lemma LoginErrorCases(email: string, password: string)
    ensures var r := LoginError(email, password);
      && (r.None? <==> email != [] && password != [] && '@' in email)
      && (r == Some(NoEmail) <==> email == [])
      && (r == Some(NoPassword) <==> email != [] && password == [])
      && (r == Some(BadEmail) <==> email != [] && password != [] && '@' !in email)
  {
  }

  /** Login checks the password before the '@', sign-up the other way round:
      an email without '@' and an empty password get different checks, and
      so different messages. */
  lemma CheckOrderDiffersFromSignUp(email: string)
    requires email != [] && '@' !in email
    ensures LoginError(email, "") == Some(NoPassword)
    ensures SignUp.SignUpError(email, "user", "", "") == Some(SignUp.BadEmail)
    ensures Message(NoPassword) != SignUp.Message(SignUp.BadEmail)
  {
    assert Message(NoPassword)[13] == 'y' && SignUp.Message(SignUp.BadEmail)[13] == 'a';
  }

  /** The login call the form starts once validation passes. */
  datatype LoginRequest = LoginRequest(email: string, password: string, rememberMe: bool)

  class LoginViewModel {
    var email: string
    var password: string
    var passwordVisible: bool
    var errorMessage: string
    var loginSuccess: bool
    var isLoading: bool
    var rememberMe: bool

    /** `remembered` is the stored remember-me choice the form starts from. */
    constructor (remembered: bool)
      ensures email == "" && password == "" && !passwordVisible
      ensures errorMessage == "" && !loginSuccess && !isLoading
      ensures rememberMe == remembered
    {
      email := "";
      password := "";
      passwordVisible := false;
      errorMessage := "";
      loginSuccess := false;
      isLoading := false;
      rememberMe := remembered;
    }

    method SetEmail(value: string)
      modifies this`email, this`errorMessage
      ensures email == value && errorMessage == ""
    {
      email := value;
      errorMessage := "";
    }

    method SetPassword(value: string)
      modifies this`password, this`errorMessage
      ensures password == value && errorMessage == ""
    {
      password := value;
      errorMessage := "";
    }

    method TogglePasswordVisibility()
      modifies this`passwordVisible
      ensures passwordVisible == !old(passwordVisible)
    {
      passwordVisible := !passwordVisible;
    }

    method SetRememberMe(value: bool)
      modifies this`rememberMe
      ensures rememberMe == value
    {
      rememberMe := value;
    }

    /** `login`: validates the trimmed email and the raw password. A failure
        sets its message and starts nothing; a pass sets the loading flag and
        returns the login to start, carrying the remember-me choice as is. */
    method Login() returns (request: Option<LoginRequest>)
      modifies this`errorMessage, this`isLoading
      ensures var err := LoginError(Trim(email), password);
        && (err.Some? ==> request == None && errorMessage == Message(err.value) && isLoading == old(isLoading))
        && (err.None? ==> request == Some(LoginRequest(Trim(email), password, rememberMe))
                          && isLoading && errorMessage == old(errorMessage))
    {
      var emailValue := Trim(email);
      var err := LoginError(emailValue, password);
      if err.Some? {
        errorMessage := Message(err.value);
        return None;
      }
      isLoading := true;
      request := Some(LoginRequest(emailValue, password, rememberMe));
    }

    /** The login's success callback. */
    method OnLoginSuccess()
      modifies this`isLoading, this`loginSuccess, this`errorMessage
      ensures !isLoading && loginSuccess && errorMessage == ""
    {
      isLoading := false;
      loginSuccess := true;
      errorMessage := "";
    }

    /** The login's failure callback. */
    method OnLoginFailure(error: string)
      modifies this`isLoading, this`errorMessage
      ensures !isLoading && errorMessage == error
    {
      isLoading := false;
      errorMessage := error;
    }
  }
}
