/**
 * The JSON replies of the controllers, one constructor per distinct
 * `message`, each with the HTTP status it is sent with.
 */
module Responses {

  datatype Msg =
    // 400
    | MissingFields          // "Please provide ..."
    | EmailTaken             // "... with this email already exists"
    | AlreadyVerified        // "Email already verified. Please login."
    | NoOtpFound             // "No OTP found. Please request a new one."
    | NoOtpRequest           // "No OTP request found. Please request a new OTP."
    | OtpExpired             // "OTP has expired. Please request a new one."
    | InvalidOtp             // "Invalid OTP. Please try again."
    | WeakPassword           // "Password must be at least 6 characters"
    | WrongCurrentPassword   // "Current password is incorrect"
    // 401
    | InvalidPassword        // "Invalid password"
    // 403, with `requiresVerification: true` and the account's email
    | VerificationRequired(email: string)
    // 404
    | NotFound
    // 500
    | MailFailed
    // 201; `requiresVerification` is sent by the recruiter flow only
    | Registered(requiresVerification: bool)
    // 200
    | EmailVerified
    | VerificationOtpSent
    | OtpSent
    | OtpVerified
    | PasswordWasReset
    | PasswordChanged
    | AccountDeleted
    | LoggedIn(principal: string)
  {
    function Status(): int {
      match this
      case InvalidPassword => 401
      case VerificationRequired(_) => 403
      case NotFound => 404
      case MailFailed => 500
      case Registered(_) => 201
      case EmailVerified | VerificationOtpSent | OtpSent | OtpVerified
        | PasswordWasReset | PasswordChanged | AccountDeleted | LoggedIn(_) => 200
      case _ => 400
    }
  }

  /** A handler's reply together with the account store it leaves behind. */
  datatype Reply<S> = Reply(msg: Msg, store: S)
}
