/**
  The auth page of the single-page variant: a zod schema on the trimmed email and the
  password, a sign-up-only confirmation check, and a mapping of provider errors to
  friendlier texts.
 */
module SpaAuth {
  import opened Common
  import opened Text
  import opened Session

  const MaxEmailLength := 255
  const MinPasswordLength := 6
  const MaxPasswordLength := 100

  /**
    The first issue of `authSchema` (zod reports the email's issues before the
    password's, each in check order), or `None` when the credentials pass. The address
    format check is the parameter `isEmail`.
   */
  function SchemaProblem(email: string, password: string, isEmail: string -> bool): (r: Option<string>)
    ensures r.None? <==> isEmail(email) && |email| <= MaxEmailLength
                         && MinPasswordLength <= |password| <= MaxPasswordLength
    ensures !isEmail(email) ==> r == Some("Invalid email address")
    ensures isEmail(email) && |email| > MaxEmailLength ==> r == Some("String must contain at most 255 character(s)")
    ensures isEmail(email) && |email| <= MaxEmailLength && |password| < MinPasswordLength ==>
      r == Some("Password must be at least 6 characters")
    ensures isEmail(email) && |email| <= MaxEmailLength && |password| > MaxPasswordLength ==>
      r == Some("String must contain at most 100 character(s)")
  {
    if !isEmail(email) then Some("Invalid email address")
    else if |email| > MaxEmailLength then Some("String must contain at most 255 character(s)")
    else if |password| < MinPasswordLength then Some("Password must be at least 6 characters")
    else if |password| > MaxPasswordLength then Some("String must contain at most 100 character(s)")
    else None
  }

  const EmailNotConfirmed := "Email not confirmed"
  const InvalidCredentials := "Invalid login credentials"
  const AlreadyRegistered := "User already registered"

  /** The provider's error message as shown: the first known cause it contains, else itself. */
  function AuthErrorMessage(message: string): (m: string)
    ensures m != ""
  {
    if Contains(message, EmailNotConfirmed) then "Please check your email to confirm your account"
    else if Contains(message, InvalidCredentials) then "Invalid email or password"
    else if Contains(message, AlreadyRegistered) then "An account with this email already exists"
    else if message != "" then message
    else "Authentication failed"
  }

  /**
    The mapping in terms of where the causes occur: a message containing "Email not
    confirmed" anywhere gets the confirmation text whatever else it contains; the other
    causes are tried next in turn; a message with none of them is shown as it is, or
    "Authentication failed" when it is empty.
   */
  lemma AuthErrorMapping(message: string)
    ensures Mentions(message, EmailNotConfirmed) ==>
      AuthErrorMessage(message) == "Please check your email to confirm your account"
    ensures !Mentions(message, EmailNotConfirmed) && Mentions(message, InvalidCredentials) ==>
      AuthErrorMessage(message) == "Invalid email or password"
    ensures !Mentions(message, EmailNotConfirmed) && !Mentions(message, InvalidCredentials)
            && Mentions(message, AlreadyRegistered) ==>
      AuthErrorMessage(message) == "An account with this email already exists"
    ensures !Mentions(message, EmailNotConfirmed) && !Mentions(message, InvalidCredentials)
            && !Mentions(message, AlreadyRegistered) ==>
      AuthErrorMessage(message) == (if message == "" then "Authentication failed" else message)
  {
  }

  /** `cause` occurs somewhere in `message`. */
  ghost predicate Mentions(message: string, cause: string) {
    exists k :: OccursAt(message, cause, k)
  }

  /** The toast after the provider answered. */
  function ReplyToast(reply: AuthReply, isLogin: bool): (t: Toast)
    ensures reply.Accepted? ==> t == SuccessToast(if isLogin then "Welcome back!" else "Account created successfully!")
    ensures reply.Refused? ==> t == ErrorToast(AuthErrorMessage(reply.message))
    ensures reply.Threw? ==> t == ErrorToast("An unexpected error occurred")
  {
    match reply
    case Accepted => SuccessToast(if isLogin then "Welcome back!" else "Account created successfully!")
    case Refused(m) => ErrorToast(AuthErrorMessage(m))
    case Threw => ErrorToast("An unexpected error occurred")
  }

  class Page {
    var isLogin: bool
    var email: string
    var password: string
    var confirmPassword: string
    var loading: bool

    constructor ()
      ensures isLogin && email == "" && password == "" && confirmPassword == "" && !loading
    {
      isLogin := true;
      email, password, confirmPassword := "", "", "";
      loading := false;
    }

    /**
      `handleSubmit`: schema first, then (sign-up only) the confirmation check, then the
      provider with the trimmed email and the untrimmed password.
     */
    method HandleSubmit(isEmail: string -> bool, reply: AuthReply) returns (toast: Toast, call: Option<AuthCall>)
      modifies this
      ensures !loading
      ensures isLogin == old(isLogin) && email == old(email) && password == old(password)
      ensures confirmPassword == old(confirmPassword)
      ensures SchemaProblem(Trim(email), password, isEmail).Some? ==>
        toast == ErrorToast(SchemaProblem(Trim(email), password, isEmail).value) && call.None?
      ensures SchemaProblem(Trim(email), password, isEmail).None? && !isLogin && password != confirmPassword ==>
        toast == ErrorToast("Passwords do not match") && call.None?
      ensures SchemaProblem(Trim(email), password, isEmail).None? && (isLogin || password == confirmPassword) ==>
        && call == Some(if isLogin then SignInCall(Trim(email), password) else SignUpCall(Trim(email), password))
        && toast == ReplyToast(reply, isLogin)
    {
      loading := true;
      var e := Trim(email);
      var problem := SchemaProblem(e, password, isEmail);
      if problem.Some? {
        toast, call := ErrorToast(problem.value), None;
        loading := false;
        return;
      }
      if !isLogin && password != confirmPassword {
        toast, call := ErrorToast("Passwords do not match"), None;
        loading := false;
        return;
      }
      call := Some(if isLogin then SignInCall(e, password) else SignUpCall(e, password));
      toast := ReplyToast(reply, isLogin);
      loading := false;
    }

    /** The mode link: flips the mode and keeps every field. */
    method ToggleMode()
      modifies this
      ensures isLogin == !old(isLogin)
      ensures email == old(email) && password == old(password) && confirmPassword == old(confirmPassword)
      ensures loading == old(loading)
    {
      isLogin := !isLogin;
    }
  }
}
