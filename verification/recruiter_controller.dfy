/**
 * The recruiter account handlers of `recruiterController.js` as pure
 * transitions of the recruiter store: registration with a mandatory
 * email-verification code, verification and its resend, a login gated on
 * verification, password change, and the three-step password reset.
 *
 * Each handler takes what the source reads from the world as parameters:
 * the clock (`now`, milliseconds), the freshly generated code (`code`) and
 * what the send call did (`mail`). The store is keyed by email; the
 * record's `_id` is identified with that key.
 */
module RecruiterController {
  import opened Wrappers
  import opened Otp
  import opened Responses
  import opened EmailService
  import opened Strings

  /** A recruiter record; `password` stands for the stored password hash. */
  datatype Recruiter = Recruiter(
    name: string,
    email: string,
    password: string,
    contactno: string,
    address: string,
    isEmailVerified: bool,
    verification: OtpFields,
    reset: OtpFields)

  type Store = map<string, Recruiter>

  /** Every record sits under its own email, and each OTP slot is paired. */
  predicate WellFormed(store: Store) {
    forall e :: e in store ==>
      && store[e].email == e
      && Paired(store[e].verification)
      && Paired(store[e].reset)
  }

  /** The body of a registration request; `address` is optional. */
  datatype Registration = Registration(name: string, email: string, password: string, contactno: string, address: string)

  predicate Incomplete(req: Registration) {
    req.name == "" || req.email == "" || req.password == "" || req.contactno == ""
  }

  // -------------------------------------------------------------------------
  // registerRecruiter

  /**
   * Creates an unverified recruiter holding a fresh verification code; if
   * the verification mail throws, the record is deleted again.
   */
  function RegisterRecruiter(store: Store, req: Registration, now: int, code: string, mail: SendResult): (r: Reply<Store>)
    ensures Incomplete(req) ==> r == Reply(MissingFields, store)
    ensures !Incomplete(req) && req.email in store ==> r == Reply(EmailTaken, store)
    ensures r.msg.Status() == 500 <==> !Incomplete(req) && req.email !in store && mail.Raised?
    ensures r.msg.Status() != 201 ==> r.store == store
    ensures r.msg.Status() == 201 <==> !Incomplete(req) && req.email !in store && !mail.Raised?
    ensures r.msg.Status() == 201 ==>
      && r.msg == Registered(true)
      && r.store.Keys == store.Keys + {req.email}
      && (forall e :: e in store ==> r.store[e] == store[e])
      && var a := r.store[req.email];
      && a.email == req.email && a.name == req.name && a.password == req.password
      && a.contactno == req.contactno && a.address == req.address
      && !a.isEmailVerified
      && a.verification.expires == Some(now + LifetimeMs)
      && (forall c :: CheckVerification(a.verification, c, now) == Match <==> c == code)
      && a.reset == Cleared
  {
    if Incomplete(req) then Reply(MissingFields, store)
    else if req.email in store then Reply(EmailTaken, store)
    else
      var created := store[req.email := Recruiter(req.name, req.email, req.password, req.contactno, req.address,
                                                  false, Issue(code, now), Cleared)];
      if mail.Raised? then
        assert created - {req.email} == store;
        Reply(MailFailed, created - {req.email})
      else Reply(Registered(true), created)
  }

  // -------------------------------------------------------------------------
  // verifyEmail

  /**
   * Checks, in order: both fields given, account exists, not yet verified,
   * a code is stored, it has not expired, it matches. Only success mutates:
   * the flag is set and the slot cleared. An expired code is left in place.
   */
  function VerifyEmail(store: Store, email: string, otp: string, now: int): (r: Reply<Store>)
    ensures r.msg == MissingFields <==> email == "" || otp == ""
    ensures r.msg == NotFound <==> email != "" && otp != "" && email !in store
    ensures r.msg == AlreadyVerified <==> email != "" && otp != "" && email in store && store[email].isEmailVerified
    ensures r.msg == NoOtpFound <==>
      email != "" && otp != "" && email in store && !store[email].isEmailVerified && store[email].verification.hash.None?
    ensures r.msg == OtpExpired <==>
      email != "" && otp != "" && email in store && !store[email].isEmailVerified
      && CheckVerification(store[email].verification, otp, now) == Expired
    ensures r.msg == InvalidOtp <==>
      email != "" && otp != "" && email in store && !store[email].isEmailVerified
      && CheckVerification(store[email].verification, otp, now) == Mismatch
    ensures r.msg == EmailVerified <==>
      email != "" && otp != "" && email in store && !store[email].isEmailVerified
      && CheckVerification(store[email].verification, otp, now) == Match
    ensures r.msg != EmailVerified ==> r.store == store
    ensures r.msg == EmailVerified ==>
      r.store == store[email := store[email].(isEmailVerified := true, verification := Cleared)]
  {
    if email == "" || otp == "" then Reply(MissingFields, store)
    else if email !in store then Reply(NotFound, store)
    else
      var a := store[email];
      if a.isEmailVerified then Reply(AlreadyVerified, store)
      else match CheckVerification(a.verification, otp, now)
        case Absent => Reply(NoOtpFound, store)
        case Expired => Reply(OtpExpired, store)
        case Mismatch => Reply(InvalidOtp, store)
        case Match => Reply(EmailVerified, store[email := a.(isEmailVerified := true, verification := Cleared)])
  }

  // -------------------------------------------------------------------------
  // resendEmailVerificationOTP

  /**
   * Overwrites the verification slot of an unverified account with a fresh
   * code. The new code is kept even when the mail throws (500).
   */
  function ResendEmailVerificationOtp(store: Store, email: string, now: int, code: string, mail: SendResult): (r: Reply<Store>)
    ensures r.msg == MissingFields <==> email == ""
    ensures r.msg == NotFound <==> email != "" && email !in store
    ensures r.msg == AlreadyVerified <==> email != "" && email in store && store[email].isEmailVerified
    ensures r.msg in {VerificationOtpSent, MailFailed} <==> email != "" && email in store && !store[email].isEmailVerified
    ensures r.msg == MailFailed <==> email != "" && email in store && !store[email].isEmailVerified && mail.Raised?
    ensures r.msg in {VerificationOtpSent, MailFailed} ==>
      r.store == store[email := store[email].(verification := Issue(code, now))]
    ensures r.msg !in {VerificationOtpSent, MailFailed} ==> r.store == store
  {
    if email == "" then Reply(MissingFields, store)
    else if email !in store then Reply(NotFound, store)
    else
      var a := store[email];
      if a.isEmailVerified then Reply(AlreadyVerified, store)
      else
        var updated := store[email := a.(verification := Issue(code, now))];
        if mail.Raised? then Reply(MailFailed, updated)
        else Reply(VerificationOtpSent, updated)
  }

  // -------------------------------------------------------------------------
  // loginRecruiter

  /**
   * Unknown email: 404. Unverified: 403, whatever the password. Wrong
   * password: 401. A token for the account is issued only when the account
   * is verified and the password matches.
   */
  function LoginRecruiter(store: Store, email: string, password: string): (m: Msg)
    ensures m == MissingFields <==> email == "" || password == ""
    ensures m == NotFound <==> email != "" && password != "" && email !in store
    ensures m.VerificationRequired? <==> email != "" && password != "" && email in store && !store[email].isEmailVerified
    ensures m.VerificationRequired? ==> m.email == store[email].email
    ensures m == InvalidPassword <==>
      email != "" && password != "" && email in store && store[email].isEmailVerified && store[email].password != password
    ensures m.LoggedIn? <==>
      email != "" && password != "" && email in store && store[email].isEmailVerified && store[email].password == password
    ensures m.LoggedIn? ==> m.principal == email
  {
    if email == "" || password == "" then MissingFields
    else if email !in store then NotFound
    else
      var a := store[email];
      if !a.isEmailVerified then VerificationRequired(a.email)
      else if a.password != password then InvalidPassword
      else LoggedIn(email)
  }

  // -------------------------------------------------------------------------
  // changePassword

  /**
   * For the authenticated account `id`: the current password must match;
   * the new one is stored without any length check.
   */
  function ChangePassword(store: Store, id: string, current: string, newPassword: string): (r: Reply<Store>)
    ensures r.msg == NotFound <==> id !in store
    ensures r.msg == WrongCurrentPassword <==> id in store && store[id].password != current
    ensures r.msg == PasswordChanged <==> id in store && store[id].password == current
    ensures r.msg != PasswordChanged ==> r.store == store
    ensures r.msg == PasswordChanged ==> r.store == store[id := store[id].(password := newPassword)]
  {
    if id !in store then Reply(NotFound, store)
    else if store[id].password != current then Reply(WrongCurrentPassword, store)
    else Reply(PasswordChanged, store[id := store[id].(password := newPassword)])
  }

  // -------------------------------------------------------------------------
  // forgotPassword

  /**
   * Stores a fresh reset code for an existing account; if the mail throws,
   * the reset slot is cleared again (500).
   */
  function ForgotPassword(store: Store, email: string, now: int, code: string, mail: SendResult): (r: Reply<Store>)
    ensures r.msg == MissingFields <==> email == ""
    ensures r.msg == NotFound <==> email != "" && email !in store
    ensures r.msg == OtpSent <==> email != "" && email in store && !mail.Raised?
    ensures r.msg == MailFailed <==> email != "" && email in store && mail.Raised?
    ensures r.msg !in {OtpSent, MailFailed} ==> r.store == store
    ensures r.msg == OtpSent ==> r.store == store[email := store[email].(reset := Issue(code, now))]
    ensures r.msg == MailFailed ==> r.store == store[email := store[email].(reset := Cleared)]
  {
    if email == "" then Reply(MissingFields, store)
    else if email !in store then Reply(NotFound, store)
    else
      var a := store[email];
      var issued := a.(reset := Issue(code, now));
      if mail.Raised? then Reply(MailFailed, store[email := issued.(reset := Cleared)])
      else Reply(OtpSent, store[email := issued])
  }

  // -------------------------------------------------------------------------
  // verifyOTP

  /**
   * Checks a reset code without consuming it. An expired code is cleared
   * from the record; every other outcome, success included, mutates nothing.
   */
  function VerifyOtp(store: Store, email: string, otp: string, now: int): (r: Reply<Store>)
    ensures r.msg == MissingFields <==> email == "" || otp == ""
    ensures r.msg == NotFound <==> email != "" && otp != "" && email !in store
    ensures r.msg == NoOtpRequest <==>
      email != "" && otp != "" && email in store && CheckReset(store[email].reset, otp, now) == Absent
    ensures r.msg == OtpExpired <==>
      email != "" && otp != "" && email in store && CheckReset(store[email].reset, otp, now) == Expired
    ensures r.msg == InvalidOtp <==>
      email != "" && otp != "" && email in store && CheckReset(store[email].reset, otp, now) == Mismatch
    ensures r.msg == OtpVerified <==>
      email != "" && otp != "" && email in store && CheckReset(store[email].reset, otp, now) == Match
    ensures r.msg == OtpExpired ==> r.store == store[email := store[email].(reset := Cleared)]
    ensures r.msg != OtpExpired ==> r.store == store
  {
    if email == "" || otp == "" then Reply(MissingFields, store)
    else if email !in store then Reply(NotFound, store)
    else
      var a := store[email];
      match CheckReset(a.reset, otp, now)
      case Absent => Reply(NoOtpRequest, store)
      case Expired => Reply(OtpExpired, store[email := a.(reset := Cleared)])
      case Mismatch => Reply(InvalidOtp, store)
      case Match => Reply(OtpVerified, store)
  }

  // -------------------------------------------------------------------------
  // resetPassword

  /** Minimum length, in UTF-16 code units, of a password set through the reset flow. */
  const MinPasswordLength: nat := 6

  /**
   * Rejects a short new password before looking the account up, then runs
   * the reset chain; success replaces the password and clears the slot. The
   * outcome of the confirmation mail never changes the reply.
   */
  function ResetPassword(store: Store, email: string, otp: string, newPassword: string, now: int,
                         confirmation: SendResult): (r: Reply<Store>)
    ensures r.msg == MissingFields <==> email == "" || otp == "" || newPassword == ""
    ensures r.msg == WeakPassword <==> email != "" && otp != "" && newPassword != "" && Utf16Length(newPassword) < MinPasswordLength
    ensures r.msg == NotFound <==>
      email != "" && otp != "" && Utf16Length(newPassword) >= MinPasswordLength && email !in store
    ensures r.msg == NoOtpRequest <==>
      email != "" && otp != "" && Utf16Length(newPassword) >= MinPasswordLength && email in store
      && CheckReset(store[email].reset, otp, now) == Absent
    ensures r.msg == OtpExpired <==>
      email != "" && otp != "" && Utf16Length(newPassword) >= MinPasswordLength && email in store
      && CheckReset(store[email].reset, otp, now) == Expired
    ensures r.msg == InvalidOtp <==>
      email != "" && otp != "" && Utf16Length(newPassword) >= MinPasswordLength && email in store
      && CheckReset(store[email].reset, otp, now) == Mismatch
    ensures r.msg == PasswordWasReset <==>
      email != "" && otp != "" && Utf16Length(newPassword) >= MinPasswordLength && email in store
      && CheckReset(store[email].reset, otp, now) == Match
    ensures r.msg == OtpExpired ==> r.store == store[email := store[email].(reset := Cleared)]
    ensures r.msg == PasswordWasReset ==>
      r.store == store[email := store[email].(password := newPassword, reset := Cleared)]
    ensures r.msg !in {OtpExpired, PasswordWasReset} ==> r.store == store
  {
    if email == "" || otp == "" || newPassword == "" then Reply(MissingFields, store)
    else if Utf16Length(newPassword) < MinPasswordLength then Reply(WeakPassword, store)
    else if email !in store then Reply(NotFound, store)
    else
      var a := store[email];
      match CheckReset(a.reset, otp, now)
      case Absent => Reply(NoOtpRequest, store)
      case Expired => Reply(OtpExpired, store[email := a.(reset := Cleared)])
      case Mismatch => Reply(InvalidOtp, store)
      case Match => Reply(PasswordWasReset, store[email := a.(password := newPassword, reset := Cleared)])
  }

  // -------------------------------------------------------------------------
  // The store as a state machine

  /** One request to a recruiter endpoint, with the world's answers it needs. */
  datatype Request =
    | PostRegister(req: Registration, now: int, code: string, mail: SendResult)
    | PostVerifyEmail(email: string, otp: string, now: int)
    | PostResendVerification(email: string, now: int, code: string, mail: SendResult)
    | PostLogin(email: string, password: string)
    | PutChangePassword(id: string, current: string, newPassword: string)
    | PostForgotPassword(email: string, now: int, code: string, mail: SendResult)
    | PostVerifyOtp(email: string, otp: string, now: int)
    | PostResetPassword(email: string, otp: string, newPassword: string, now: int, confirmation: SendResult)

  function Step(store: Store, q: Request): Reply<Store> {
    match q
    case PostRegister(req, now, code, mail) => RegisterRecruiter(store, req, now, code, mail)
    case PostVerifyEmail(email, otp, now) => VerifyEmail(store, email, otp, now)
    case PostResendVerification(email, now, code, mail) => ResendEmailVerificationOtp(store, email, now, code, mail)
    case PostLogin(email, password) => Reply(LoginRecruiter(store, email, password), store)
    case PutChangePassword(id, current, newPassword) => ChangePassword(store, id, current, newPassword)
    case PostForgotPassword(email, now, code, mail) => ForgotPassword(store, email, now, code, mail)
    case PostVerifyOtp(email, otp, now) => VerifyOtp(store, email, otp, now)
    case PostResetPassword(email, otp, newPassword, now, confirmation) =>
      ResetPassword(store, email, otp, newPassword, now, confirmation)
  }

  /** The store after serving `qs` in order. */
  function Run(store: Store, qs: seq<Request>): Store
    decreases |qs|
  {
    if |qs| == 0 then store else Run(Step(store, qs[0]).store, qs[1..])
  }

  /** Every account in `s` stays in `s'`, and stays verified if it was. */
  predicate KeepsVerified(s: Store, s': Store) {
    forall e :: e in s ==> e in s' && (s[e].isEmailVerified ==> s'[e].isEmailVerified)
  }

  /** No handler removes an existing recruiter or sets `isEmailVerified` back to false. */
  lemma StepKeepsVerified(store: Store, q: Request)
    ensures KeepsVerified(store, Step(store, q).store)
  {
  }

  /** Every handler keeps records under their own email with paired OTP slots. */
  lemma StepPreservesWellFormed(store: Store, q: Request)
    requires WellFormed(store)
    ensures WellFormed(Step(store, q).store)
  {
  }

  /** Over any sequence of requests the store stays well formed and verification is never undone. */
  lemma {:induction false} RunInvariants(store: Store, qs: seq<Request>)
    requires WellFormed(store)
    ensures WellFormed(Run(store, qs))
    ensures KeepsVerified(store, Run(store, qs))
    decreases |qs|
  {
    if |qs| > 0 {
      var next := Step(store, qs[0]).store;
      StepPreservesWellFormed(store, qs[0]);
      StepKeepsVerified(store, qs[0]);
      RunInvariants(next, qs[1..]);
    }
  }

  // -------------------------------------------------------------------------
  // Properties relating several calls

  /**
   * Register, try to log in (403 whatever the password), verify with the
   * mailed code before it expires, then log in with the registered
   * password (200). Replaying the code afterwards gives "already verified".
   */
  lemma RegisterVerifyLogin(store: Store, req: Registration, now: int, code: string, anyPassword: string, later: int)
    requires !Incomplete(req) && req.email !in store && code != "" && anyPassword != ""
    requires now <= later <= now + LifetimeMs
    ensures var s1 := RegisterRecruiter(store, req, now, code, Returned(true)).store;
      && LoginRecruiter(s1, req.email, anyPassword) == VerificationRequired(req.email)
      && var v := VerifyEmail(s1, req.email, code, later);
      && v.msg == EmailVerified
      && LoginRecruiter(v.store, req.email, req.password) == LoggedIn(req.email)
      && VerifyEmail(v.store, req.email, code, later) == Reply(AlreadyVerified, v.store)
  {
  }

  /**
   * With the mail layer in console mode the verification send never throws,
   * so a complete registration of a new email always keeps the account.
   */
  lemma RegisterInConsoleMode(store: Store, req: Registration, now: int, code: string, cfg: MailConfig, deliver: Mail -> bool)
    requires ConsoleMode(cfg) && !Incomplete(req) && req.email !in store
    ensures var r := RegisterRecruiter(store, req, now, code, SendEmailVerificationOtp(cfg, req.email, code, deliver));
      r.msg == Registered(true) && req.email in r.store
  {
    ConsoleModeNeverRaises(cfg, req.email, code, deliver);
  }

  /** A successful verification can never be replayed: the account is now verified. */
  lemma VerifyEmailReplay(store: Store, email: string, otp: string, now: int, later: int)
    requires VerifyEmail(store, email, otp, now).msg == EmailVerified
    ensures var s1 := VerifyEmail(store, email, otp, now).store;
      VerifyEmail(s1, email, otp, later) == Reply(AlreadyVerified, s1)
  {
  }

  /**
   * After a resend with code `newCode`, whether or not its mail threw, any
   * other code is rejected and `newCode` is accepted while it is live.
   */
  lemma ResendSupersedes(store: Store, email: string, now: int, newCode: string, oldCode: string,
                         mail: SendResult, later: int)
    requires email != "" && oldCode != "" && newCode != "" && oldCode != newCode
    requires email in store && !store[email].isEmailVerified
    requires later <= now + LifetimeMs
    ensures var s1 := ResendEmailVerificationOtp(store, email, now, newCode, mail).store;
      && VerifyEmail(s1, email, oldCode, later).msg == InvalidOtp
      && VerifyEmail(s1, email, newCode, later).msg == EmailVerified
  {
  }

  /**
   * On expiry the two chains differ: `verifyEmail` leaves the stale code in
   * the record, while `verifyOTP` and `resetPassword` clear it.
   */
  lemma ExpiryHandling(store: Store, email: string, otp: string, newPassword: string, now: int, c: SendResult)
    requires email != "" && otp != "" && Utf16Length(newPassword) >= MinPasswordLength && email in store
    requires !store[email].isEmailVerified && store[email].verification.hash.Some?
    requires IsExpired(now, store[email].verification.expires)
    requires store[email].reset.hash.Some? && IsExpired(now, store[email].reset.expires)
    ensures VerifyEmail(store, email, otp, now) == Reply(OtpExpired, store)
    ensures VerifyOtp(store, email, otp, now).store[email].reset == Cleared
    ensures ResetPassword(store, email, otp, newPassword, now, c).store[email].reset == Cleared
  {
  }

  /**
   * A completed reset cannot be replayed, and a verified recruiter can then
   * log in with the new password but no longer with a different old one.
   */
  lemma ResetThenLogin(store: Store, email: string, otp: string, newPassword: string, oldPassword: string,
                       now: int, c: SendResult, later: int)
    requires ResetPassword(store, email, otp, newPassword, now, c).msg == PasswordWasReset
    requires store[email].isEmailVerified && oldPassword != "" && oldPassword != newPassword
    ensures var s1 := ResetPassword(store, email, otp, newPassword, now, c).store;
      && ResetPassword(s1, email, otp, newPassword, later, c) == Reply(NoOtpRequest, s1)
      && LoginRecruiter(s1, email, newPassword) == LoggedIn(email)
      && LoginRecruiter(s1, email, oldPassword) == InvalidPassword
  {
  }

  /**
   * The length test counts UTF-16 code units, as `newPassword.length` does:
   * three characters outside the Basic Multilingual Plane are long enough,
   * two are not.
   */
  lemma AstralPasswordLength(store: Store, email: string, otp: string, now: int, confirmation: SendResult)
    requires email != "" && otp != ""
    ensures ResetPassword(store, email, otp, "\U{1F600}\U{1F600}\U{1F600}", now, confirmation).msg != WeakPassword
    ensures ResetPassword(store, email, otp, "\U{1F600}\U{1F600}", now, confirmation).msg == WeakPassword
  {
    var three := "\U{1F600}\U{1F600}\U{1F600}";
    var two := "\U{1F600}\U{1F600}";
    assert forall i :: 0 <= i < |three| ==> Astral(three[i]);
    assert forall i :: 0 <= i < |two| ==> Astral(two[i]);
  }
}
