/** The registration page's submit handler (frontend/src/app/auth/register/page.tsx): the two ordered
    password checks, then the register call and its outcome. */
module Register {
  import opened Types

  const MismatchMessage: string := "Passwords do not match"
  const TooShortMessage: string := "Password must be at least 6 characters"
  const FallbackMessage: string := "Registration failed"
  const MinPasswordLength: nat := 6

  /** The outcome of `register`: success, or a rejection carrying `error.response?.data?.message`. */
  datatype RegisterResult = Registered | RegisterFailed(message: Option<string>)

  /** The guard checks in their order: the mismatch check first, then the length check. */
  function ValidationError(password: string, confirmPassword: string): (r: Option<string>)
    ensures r.None? <==> password == confirmPassword && |password| >= MinPasswordLength
    ensures password != confirmPassword ==> r == Some(MismatchMessage)
    ensures password == confirmPassword && |password| < MinPasswordLength ==> r == Some(TooShortMessage)
  {
    if password != confirmPassword then Some(MismatchMessage)
    else if |password| < MinPasswordLength then Some(TooShortMessage)
    else None
  }

  /** `error.response?.data?.message || 'Registration failed'`: the shown message is never empty. */
  function FailureMessage(message: Option<string>): (r: string)
    ensures r != ""
    ensures message.Some? && message.value != "" ==> r == message.value
    ensures !(message.Some? && message.value != "") ==> r == FallbackMessage
  {
    if message.Some? && message.value != "" then message.value else FallbackMessage
  }

  class RegisterPage {
    var email: string
    var password: string
    var nickname: string
    var confirmPassword: string
    var loading: bool
    var error: string
    /** The route `router.push` navigated to, if any. */
    var route: Option<string>

    constructor ()
      ensures email == "" && password == "" && nickname == "" && confirmPassword == ""
      ensures !loading && error == "" && route == None
    {
      email, password, nickname, confirmPassword := "", "", "", "";
      loading, error, route := false, "", None;
    }

    /** `handleSubmit`: clears the error; a failed check shows its message and sends nothing; otherwise
        `register(email, password, nickname)` is called, and its success navigates to the dashboard while
        its failure shows the server's message or the fallback. Loading is off afterwards in every case. */
    method HandleSubmit(outcome: RegisterResult) returns (called: Option<(string, string, string)>)
      modifies this
      ensures ValidationError(password, confirmPassword).Some? ==>
        called == None && error == ValidationError(password, confirmPassword).value && route == old(route)
      ensures ValidationError(password, confirmPassword).None? ==> called == Some((email, password, nickname))
      ensures ValidationError(password, confirmPassword).None? && outcome.Registered? ==>
        route == Some("/dashboard") && error == ""
      ensures ValidationError(password, confirmPassword).None? && outcome.RegisterFailed? ==>
        route == old(route) && error == FailureMessage(outcome.message)
      ensures !loading
      ensures email == old(email) && password == old(password) && nickname == old(nickname)
      ensures confirmPassword == old(confirmPassword)
    {
      loading := true;
      error := "";
      if password != confirmPassword {
        error := MismatchMessage;
        loading := false;
        return None;
      }
      if |password| < MinPasswordLength {
        error := TooShortMessage;
        loading := false;
        return None;
      }
      called := Some((email, password, nickname));
      match outcome {
        case Registered =>
          route := Some("/dashboard");
        case RegisterFailed(message) =>
          error := FailureMessage(message);
      }
      loading := false;
    }
  }
}
