/** The sign-up form: four text fields, two visibility toggles, and a
    validation chain that either reports its first failing check or starts a
    registration with the trimmed email and username. */
module SignUp {
  import opened Wrappers
  import opened Text

  /** The checks of the chain, in the order they run. */
  datatype SignUpFailure = NoEmail | BadEmail | NoUsername | NoPassword | ShortPassword | Mismatch

  /** The message the form shows for a failed check. */
  function Message(f: SignUpFailure): string {
    match f
    case NoEmail => "Please enter your email"
    case BadEmail => "Please enter a valid email"
    case NoUsername => "Please enter a username"
    case NoPassword => "Please enter a password"
    case ShortPassword => "Password must be at least 6 characters"
    case Mismatch => "Passwords do not match"
  }

  /** What every check of the chain demands, taken together. */
  predicate SignUpAcceptable(email: string, username: string, password: string, confirm: string) {
    email != [] && '@' in email && username != [] && Utf16Length(password) >= 6 && password == confirm
  }

  /** The first failing check of the chain, or none when all pass. The
      password's length is Kotlin's, in UTF-16 code units. */
  function SignUpError(email: string, username: string, password: string, confirm: string): Option<SignUpFailure> {
    if email == [] then Some(NoEmail)
    else if '@' !in email then Some(BadEmail)
    else if username == [] then Some(NoUsername)
    else if password == [] then Some(NoPassword)
    else if Utf16Length(password) < 6 then Some(ShortPassword)
    else if password != confirm then Some(Mismatch)
    else None
  }

  /** The checks run in the order email empty, email without '@', username
      empty, password empty, password shorter than 6, confirmation
      different: each failure is reported exactly when its check is the first
      to fail, and none exactly when every check passes. */
  lemma SignUpErrorCases(email: string, username: string, password: string, confirm: string)
    ensures var r := SignUpError(email, username, password, confirm);
      && (r.None? <==> SignUpAcceptable(email, username, password, confirm))
      && (r == Some(NoEmail) <==> email == [])
      && (r == Some(BadEmail) <==> email != [] && '@' !in email)
      && (r == Some(NoUsername) <==> email != [] && '@' in email && username == [])
      && (r == Some(NoPassword) <==> email != [] && '@' in email && username != [] && password == [])
      && (r == Some(ShortPassword) <==> email != [] && '@' in email && username != [] && 0 < Utf16Length(password) < 6)
      && (r == Some(Mismatch) <==> email != [] && '@' in email && username != [] && Utf16Length(password) >= 6 && password != confirm)
  {
  }

  /** A password of three emoji outside the Basic Multilingual Plane is six
      code units long, so it passes the length check. */
  lemma AstralPasswordAccepted()
    ensures SignUpError("a@b", "user", "\U{1F600}\U{1F600}\U{1F600}", "\U{1F600}\U{1F600}\U{1F600}") == None
  {
    Utf16LengthOfAstral();
  }

  /** The registration call the form starts once validation passes. */
  datatype RegisterRequest = RegisterRequest(email: string, username: string, password: string)

  class SignUpViewModel {
    var email: string
    var username: string
    var password: string
    var confirmPassword: string
    var passwordVisible: bool
    var confirmVisible: bool
    var errorMessage: string
    var signUpSuccess: bool
    var isLoading: bool

    constructor ()
      ensures email == "" && username == "" && password == "" && confirmPassword == ""
      ensures !passwordVisible && !confirmVisible
      ensures errorMessage == "" && !signUpSuccess && !isLoading
    {
      email := "";
      username := "";
      password := "";
      confirmPassword := "";
      passwordVisible := false;
      confirmVisible := false;
      errorMessage := "";
      signUpSuccess := false;
      isLoading := false;
    }

    method SetEmail(value: string)
      modifies this`email, this`errorMessage
      ensures email == value && errorMessage == ""
    {
      email := value;
      errorMessage := "";
    }

    method SetUsername(value: string)
      modifies this`username, this`errorMessage
      ensures username == value && errorMessage == ""
    {
      username := value;
      errorMessage := "";
    }

    method SetPassword(value: string)
      modifies this`password, this`errorMessage
      ensures password == value && errorMessage == ""
    {
      password := value;
      errorMessage := "";
    }

    method SetConfirmPassword(value: string)
      modifies this`confirmPassword, this`errorMessage
      ensures confirmPassword == value && errorMessage == ""
    {
      confirmPassword := value;
      errorMessage := "";
    }

    method TogglePasswordVisibility()
      modifies this`passwordVisible
      ensures passwordVisible == !old(passwordVisible)
    {
      passwordVisible := !passwordVisible;
    }

    method ToggleConfirmVisibility()
      modifies this`confirmVisible
      ensures confirmVisible == !old(confirmVisible)
    {
      confirmVisible := !confirmVisible;
    }

    /** `signUp`: validates the trimmed email and username and the raw
        passwords. A failure sets its message and starts nothing; a pass sets
        the loading flag and returns the registration to start. */
    method SignUp() returns (request: Option<RegisterRequest>)
      modifies this`errorMessage, this`isLoading
      ensures email == old(email) && username == old(username)
      ensures password == old(password) && confirmPassword == old(confirmPassword)
      ensures var err := SignUpError(Trim(email), Trim(username), password, confirmPassword);
        && (err.Some? ==> request == None && errorMessage == Message(err.value) && isLoading == old(isLoading))
        && (err.None? ==> request == Some(RegisterRequest(Trim(email), Trim(username), password))
                          && isLoading && errorMessage == old(errorMessage))
    {
      var emailValue := Trim(email);
      var usernameValue := Trim(username);
      var err := SignUpError(emailValue, usernameValue, password, confirmPassword);
      if err.Some? {
        errorMessage := Message(err.value);
        return None;
      }
      isLoading := true;
      request := Some(RegisterRequest(emailValue, usernameValue, password));
    }

    /** The registration's success callback. */
    method OnRegisterSuccess()
      modifies this`isLoading, this`signUpSuccess, this`errorMessage
      ensures !isLoading && signUpSuccess && errorMessage == ""
    {
      isLoading := false;
      signUpSuccess := true;
      errorMessage := "";
    }

    /** The registration's failure callback. */
    method OnRegisterFailure(error: string)
      modifies this`isLoading, this`errorMessage
      ensures !isLoading && errorMessage == error
    {
      isLoading := false;
      errorMessage := error;
    }
  }
}
