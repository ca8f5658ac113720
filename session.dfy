/** The session provider's sign-in and sign-up calls, as both auth pages use them. */
module Session {

  /** A call made to the provider, with the credentials passed. */
  datatype AuthCall = SignInCall(email: string, password: string) | SignUpCall(email: string, password: string)

  /** The provider's answer: no error, an error with its message, or a thrown exception. */
  datatype AuthReply = Accepted | Refused(message: string) | Threw
}
