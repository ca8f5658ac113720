/**
  The sign-in / sign-up page of the Next.js variant: plain presence, equality and
  length checks in a fixed order before the provider is called.
 */
module AuthPage {
  import opened Common
  import opened Session

  const FillAllFields := "Please fill in all fields"
  const PasswordsDiffer := "Passwords do not match"
  const PasswordTooShort := "Password must be at least 6 characters"
  const MinPasswordLength := 6

  /** The sign-in check: both fields present. */
  function SignInProblem(email: string, password: string): (r: Option<string>)
    ensures r.None? <==> email != "" && password != ""
    ensures r.Some? ==> r.value == FillAllFields
  {
    if email == "" || password == "" then Some(FillAllFields) else None
  }

  /** The sign-up checks, the first failing one reported: presence, then equality, then length. */
  function SignUpProblem(email: string, password: string, confirm: string): (r: Option<string>)
    ensures r.None? <==> email != "" && password != "" && confirm != "" && password == confirm
                         && |password| >= MinPasswordLength
    ensures r == Some(FillAllFields) <==> email == "" || password == "" || confirm == ""
    ensures r == Some(PasswordsDiffer) <==> email != "" && password != "" && confirm != "" && password != confirm
    ensures r == Some(PasswordTooShort) <==>
      email != "" && password != "" && confirm != "" && password == confirm && |password| < MinPasswordLength
  {
    if email == "" || password == "" || confirm == "" then Some(FillAllFields)
    else if password != confirm then Some(PasswordsDiffer)
    else if |password| < MinPasswordLength then Some(PasswordTooShort)
    else None
  }

  /** `error.message || fallback`. */
  function MessageOr(message: string, fallback: string): (m: string)
    ensures message != "" ==> m == message
    ensures message == "" ==> m == fallback
  {
    if message != "" then message else fallback
  }

  /** What `handleSignIn` shows and sends for these fields, given the provider's answer if it is asked. */
  function SignInOutcome(email: string, password: string, reply: AuthReply): (o: (Toast, Option<AuthCall>))
    ensures SignInProblem(email, password).Some? ==> o == (ErrorToast(FillAllFields), None)
    ensures SignInProblem(email, password).None? ==> o.1 == Some(SignInCall(email, password))
    ensures SignInProblem(email, password).None? && reply.Accepted? ==> o.0 == NoToast
    ensures SignInProblem(email, password).None? && reply.Refused? ==>
      o.0 == ErrorToast(MessageOr(reply.message, "Failed to sign in"))
    ensures SignInProblem(email, password).None? && reply.Threw? ==> o.0 == ErrorToast("An error occurred")
  {
    if SignInProblem(email, password).Some? then (ErrorToast(FillAllFields), None)
    else
      var toast := match reply {
        case Accepted => NoToast
        case Refused(m) => ErrorToast(MessageOr(m, "Failed to sign in"))
        case Threw => ErrorToast("An error occurred")
      };
      (toast, Some(SignInCall(email, password)))
  }

  /** What `handleSignUp` shows and sends for these fields, given the provider's answer if it is asked. */
  function SignUpOutcome(email: string, password: string, confirm: string, reply: AuthReply): (o: (Toast, Option<AuthCall>))
    ensures SignUpProblem(email, password, confirm).Some? ==>
      o == (ErrorToast(SignUpProblem(email, password, confirm).value), None)
    ensures SignUpProblem(email, password, confirm).None? ==> o.1 == Some(SignUpCall(email, password))
    ensures SignUpProblem(email, password, confirm).None? && reply.Accepted? ==>
      o.0 == SuccessToast("Check your email to confirm your account")
    ensures SignUpProblem(email, password, confirm).None? && reply.Refused? ==>
      o.0 == ErrorToast(MessageOr(reply.message, "Failed to sign up"))
    ensures SignUpProblem(email, password, confirm).None? && reply.Threw? ==> o.0 == ErrorToast("An error occurred")
  {
    var problem := SignUpProblem(email, password, confirm);
    if problem.Some? then (ErrorToast(problem.value), None)
    else
      var toast := match reply {
        case Accepted => SuccessToast("Check your email to confirm your account")
        case Refused(m) => ErrorToast(MessageOr(m, "Failed to sign up"))
        case Threw => ErrorToast("An error occurred")
      };
      (toast, Some(SignUpCall(email, password)))
  }

  class Page {
    var isSignUp: bool
    var email: string
    var password: string
    var confirmPassword: string
    var isLoading: bool

    constructor ()
      ensures !isSignUp && email == "" && password == "" && confirmPassword == "" && !isLoading
    {
      isSignUp := false;
      email, password, confirmPassword := "", "", "";
      isLoading := false;
    }

    /** `handleSignIn`; `reply` is the provider's answer if it is called. */
    method HandleSignIn(reply: AuthReply) returns (toast: Toast, call: Option<AuthCall>)
      modifies this
      ensures !isLoading
      ensures isSignUp == old(isSignUp) && email == old(email) && password == old(password)
      ensures confirmPassword == old(confirmPassword)
      ensures (toast, call) == SignInOutcome(email, password, reply)
    {
      isLoading := true;
      var problem := SignInProblem(email, password);
      if problem.Some? {
        toast, call := ErrorToast(problem.value), None;
        isLoading := false;
        return;
      }
      call := Some(SignInCall(email, password));
      match reply {
        case Accepted => toast := NoToast;
        case Refused(m) => toast := ErrorToast(MessageOr(m, "Failed to sign in"));
        case Threw => toast := ErrorToast("An error occurred");
      }
      isLoading := false;
    }

    /** `handleSignUp`: the provider is called only when all three checks pass. */
    method HandleSignUp(reply: AuthReply) returns (toast: Toast, call: Option<AuthCall>)
      modifies this
      ensures !isLoading
      ensures isSignUp == old(isSignUp) && email == old(email) && password == old(password)
      ensures confirmPassword == old(confirmPassword)
      ensures (toast, call) == SignUpOutcome(email, password, confirmPassword, reply)
    {
      isLoading := true;
      var problem := SignUpProblem(email, password, confirmPassword);
      if problem.Some? {
        toast, call := ErrorToast(problem.value), None;
        isLoading := false;
        return;
      }
      call := Some(SignUpCall(email, password));
      match reply {
        case Accepted => toast := SuccessToast("Check your email to confirm your account");
        case Refused(m) => toast := ErrorToast(MessageOr(m, "Failed to sign up"));
        case Threw => toast := ErrorToast("An error occurred");
      }
      isLoading := false;
    }

    /** The form's submit: the sign-up handler in sign-up mode, else the sign-in handler. */
    method Submit(reply: AuthReply) returns (toast: Toast, call: Option<AuthCall>)
      modifies this
      ensures !isLoading
      ensures isSignUp == old(isSignUp) && email == old(email) && password == old(password)
      ensures confirmPassword == old(confirmPassword)
      ensures (toast, call) ==
        if isSignUp then SignUpOutcome(email, password, confirmPassword, reply) else SignInOutcome(email, password, reply)
      ensures call.Some? ==> (call.value.SignUpCall? <==> isSignUp)
      ensures isSignUp && call.Some? ==> SignUpProblem(email, password, confirmPassword).None?
      ensures !isSignUp && call.Some? ==> SignInProblem(email, password).None?
    {
      if isSignUp {
        toast, call := HandleSignUp(reply);
      } else {
        toast, call := HandleSignIn(reply);
      }
    }

    /** The mode link: flips the mode and clears all three fields. */
    method ToggleMode()
      modifies this
      ensures isSignUp == !old(isSignUp)
      ensures email == "" && password == "" && confirmPassword == ""
      ensures isLoading == old(isLoading)
    {
      isSignUp := !isSignUp;
      email, password, confirmPassword := "", "", "";
    }
  }
}
