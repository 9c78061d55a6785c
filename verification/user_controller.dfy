/**
 * The job-seeker account handlers of `userController.js` as pure
 * transitions of the user store: registration without any verification
 * gate, login, password change, account deletion, and the three-step
 * password reset. Parameters stand for the clock, the fresh code and the
 * send outcome as in `RecruiterController`; the store is keyed by email and
 * the record's `_id` is identified with that key.
 */
module UserController {
  import opened Otp
  import opened Responses
  import opened EmailService
  import opened Strings

  /** A user record; `password` stands for the stored password hash. */
  datatype User = User(name: string, email: string, password: string, contactno: string, reset: OtpFields)

  type Store = map<string, User>

  /** Every record sits under its own email, and its reset slot is paired. */
  predicate WellFormed(store: Store) {
    forall e :: e in store ==> store[e].email == e && Paired(store[e].reset)
  }

  datatype Registration = Registration(name: string, email: string, password: string, contactno: string)

  predicate Incomplete(req: Registration) {
    req.name == "" || req.email == "" || req.password == "" || req.contactno == ""
  }

  // -------------------------------------------------------------------------
  // registerUser

  /** Creates the user directly: no code, no mail, no verification flag. */
  function RegisterUser(store: Store, req: Registration): (r: Reply<Store>)
    ensures Incomplete(req) ==> r == Reply(MissingFields, store)
    ensures !Incomplete(req) && req.email in store ==> r == Reply(EmailTaken, store)
    ensures r.msg.Status() != 201 ==> r.store == store
    ensures r.msg.Status() == 201 <==> !Incomplete(req) && req.email !in store
    ensures r.msg.Status() == 201 ==>
      && r.msg == Registered(false)
      && r.store.Keys == store.Keys + {req.email}
      && (forall e :: e in store ==> r.store[e] == store[e])
      && var u := r.store[req.email];
      && u.email == req.email && u.name == req.name && u.password == req.password
      && u.contactno == req.contactno && u.reset == Cleared
  {
    if Incomplete(req) then Reply(MissingFields, store)
    else if req.email in store then Reply(EmailTaken, store)
    else Reply(Registered(false), store[req.email := User(req.name, req.email, req.password, req.contactno, Cleared)])
  }

  // -------------------------------------------------------------------------
  // loginUser

  /** Unknown email: 404; wrong password: 401; otherwise a token. No verification check. */
  function LoginUser(store: Store, email: string, password: string): (m: Msg)
    ensures m == MissingFields <==> email == "" || password == ""
    ensures m == NotFound <==> email != "" && password != "" && email !in store
    ensures m == InvalidPassword <==> email != "" && password != "" && email in store && store[email].password != password
    ensures m.LoggedIn? <==> email != "" && password != "" && email in store && store[email].password == password
    ensures m.LoggedIn? ==> m.principal == email
    ensures !m.VerificationRequired?
  {
    if email == "" || password == "" then MissingFields
    else if email !in store then NotFound
    else if store[email].password != password then InvalidPassword
    else LoggedIn(email)
  }

  // -------------------------------------------------------------------------
  // changePassword

  /** The current password must match; the new one is stored without a length check. */
  function ChangePassword(store: Store, id: string, current: string, newPassword: string): (r: Reply<Store>)
    ensures r.msg == NotFound <==> id !in store
    ensures r.msg == WrongCurrentPassword <==> id in store && store[id].password != current
    ensures r.msg == PasswordChanged <==> id in store && store[id].password == current
    ensures r.msg != PasswordChanged ==> r.store == store
    ensures r.msg == PasswordChanged ==> r.store == store[id := store[id].(password := newPassword)]
  {
    if id !in store then Reply(NotFound, store)
    else if store[id].password != current then Reply(WrongCurrentPassword, store)
    else Reply(PasswordChanged, store[id := store[id].(password := newPassword)])
  }

  // -------------------------------------------------------------------------
  // deleteAccount

  /** Removes exactly the caller's record; a missing record gives 404. */
  function DeleteAccount(store: Store, id: string): (r: Reply<Store>)
    ensures r.msg == NotFound <==> id !in store
    ensures r.msg == AccountDeleted <==> id in store
    ensures r.msg == NotFound ==> r.store == store
    ensures r.store.Keys == store.Keys - {id}
    ensures forall e :: e in r.store ==> r.store[e] == store[e]
  {
    if id !in store then Reply(NotFound, store)
    else Reply(AccountDeleted, store - {id})
  }

  // -------------------------------------------------------------------------
  // forgotPassword

  /** Stores a fresh reset code; if the mail throws, the slot is cleared again (500). */
  function ForgotPassword(store: Store, email: string, now: int, code: string, mail: SendResult): (r: Reply<Store>)
    ensures r.msg == MissingFields <==> email == ""
    ensures r.msg == NotFound <==> email != "" && email !in store
    ensures r.msg == OtpSent <==> email != "" && email in store && !mail.Raised?
    ensures r.msg == MailFailed <==> email != "" && email in store && mail.Raised?
    ensures r.msg !in {OtpSent, MailFailed} ==> r.store == store
    ensures r.msg == OtpSent ==> r.store == store[email := store[email].(reset := Issue(code, now))]
    ensures r.msg == MailFailed ==> r.store == store[email := store[email].(reset := Cleared)]
  {
    if email == "" then Reply(MissingFields, store)
    else if email !in store then Reply(NotFound, store)
    else
      var issued := store[email].(reset := Issue(code, now));
      if mail.Raised? then Reply(MailFailed, store[email := issued.(reset := Cleared)])
      else Reply(OtpSent, store[email := issued])
  }

  // -------------------------------------------------------------------------
  // verifyOTP

  /** Checks a reset code without consuming it; only an expired code is cleared. */
  function VerifyOtp(store: Store, email: string, otp: string, now: int): (r: Reply<Store>)
    ensures r.msg == MissingFields <==> email == "" || otp == ""
    ensures r.msg == NotFound <==> email != "" && otp != "" && email !in store
    ensures r.msg == NoOtpRequest <==>
      email != "" && otp != "" && email in store && CheckReset(store[email].reset, otp, now) == Absent
    ensures r.msg == OtpExpired <==>
      email != "" && otp != "" && email in store && CheckReset(store[email].reset, otp, now) == Expired
    ensures r.msg == InvalidOtp <==>
      email != "" && otp != "" && email in store && CheckReset(store[email].reset, otp, now) == Mismatch
    ensures r.msg == OtpVerified <==>
      email != "" && otp != "" && email in store && CheckReset(store[email].reset, otp, now) == Match
    ensures r.msg == OtpExpired ==> r.store == store[email := store[email].(reset := Cleared)]
    ensures r.msg != OtpExpired ==> r.store == store
  {
    if email == "" || otp == "" then Reply(MissingFields, store)
    else if email !in store then Reply(NotFound, store)
    else
      var u := store[email];
      match CheckReset(u.reset, otp, now)
      case Absent => Reply(NoOtpRequest, store)
      case Expired => Reply(OtpExpired, store[email := u.(reset := Cleared)])
      case Mismatch => Reply(InvalidOtp, store)
      case Match => Reply(OtpVerified, store)
  }

  // -------------------------------------------------------------------------
  // resetPassword

  /** Minimum length, in UTF-16 code units, of a password set through the reset flow. */
  const MinPasswordLength: nat := 6

  /**
   * Rejects a short new password before the lookup, then runs the reset
   * chain; success replaces the password and clears the slot, whatever the
   * confirmation mail did.
   */
  function ResetPassword(store: Store, email: string, otp: string, newPassword: string, now: int,
                         confirmation: SendResult): (r: Reply<Store>)
    ensures r.msg == MissingFields <==> email == "" || otp == "" || newPassword == ""
    ensures r.msg == WeakPassword <==> email != "" && otp != "" && newPassword != "" && Utf16Length(newPassword) < MinPasswordLength
    ensures r.msg == NotFound <==>
      email != "" && otp != "" && Utf16Length(newPassword) >= MinPasswordLength && email !in store
    ensures r.msg == NoOtpRequest <==>
      email != "" && otp != "" && Utf16Length(newPassword) >= MinPasswordLength && email in store
      && CheckReset(store[email].reset, otp, now) == Absent
    ensures r.msg == OtpExpired <==>
      email != "" && otp != "" && Utf16Length(newPassword) >= MinPasswordLength && email in store
      && CheckReset(store[email].reset, otp, now) == Expired
    ensures r.msg == InvalidOtp <==>
      email != "" && otp != "" && Utf16Length(newPassword) >= MinPasswordLength && email in store
      && CheckReset(store[email].reset, otp, now) == Mismatch
    ensures r.msg == PasswordWasReset <==>
      email != "" && otp != "" && Utf16Length(newPassword) >= MinPasswordLength && email in store
      && CheckReset(store[email].reset, otp, now) == Match
    ensures r.msg == OtpExpired ==> r.store == store[email := store[email].(reset := Cleared)]
    ensures r.msg == PasswordWasReset ==>
      r.store == store[email := store[email].(password := newPassword, reset := Cleared)]
    ensures r.msg !in {OtpExpired, PasswordWasReset} ==> r.store == store
  {
    if email == "" || otp == "" || newPassword == "" then Reply(MissingFields, store)
    else if Utf16Length(newPassword) < MinPasswordLength then Reply(WeakPassword, store)
    else if email !in store then Reply(NotFound, store)
    else
      var u := store[email];
      match CheckReset(u.reset, otp, now)
      case Absent => Reply(NoOtpRequest, store)
      case Expired => Reply(OtpExpired, store[email := u.(reset := Cleared)])
      case Mismatch => Reply(InvalidOtp, store)
      case Match => Reply(PasswordWasReset, store[email := u.(password := newPassword, reset := Cleared)])
  }

  // -------------------------------------------------------------------------
  // The store as a state machine

  /** One request to a user endpoint, with the world's answers it needs. */
  datatype Request =
    | PostRegister(req: Registration)
    | PostLogin(email: string, password: string)
    | PutChangePassword(id: string, current: string, newPassword: string)
    | DeleteProfile(id: string)
    | PostForgotPassword(email: string, now: int, code: string, mail: SendResult)
    | PostVerifyOtp(email: string, otp: string, now: int)
    | PostResetPassword(email: string, otp: string, newPassword: string, now: int, confirmation: SendResult)

  function Step(store: Store, q: Request): Reply<Store> {
    match q
    case PostRegister(req) => RegisterUser(store, req)
    case PostLogin(email, password) => Reply(LoginUser(store, email, password), store)
    case PutChangePassword(id, current, newPassword) => ChangePassword(store, id, current, newPassword)
    case DeleteProfile(id) => DeleteAccount(store, id)
    case PostForgotPassword(email, now, code, mail) => ForgotPassword(store, email, now, code, mail)
    case PostVerifyOtp(email, otp, now) => VerifyOtp(store, email, otp, now)
    case PostResetPassword(email, otp, newPassword, now, confirmation) =>
      ResetPassword(store, email, otp, newPassword, now, confirmation)
  }

  /** The store after serving `qs` in order. */
  function Run(store: Store, qs: seq<Request>): Store
    decreases |qs|
  {
    if |qs| == 0 then store else Run(Step(store, qs[0]).store, qs[1..])
  }

  /** Every handler keeps records under their own email with a paired reset slot. */
  lemma StepPreservesWellFormed(store: Store, q: Request)
    requires WellFormed(store)
    ensures WellFormed(Step(store, q).store)
  {
  }

  /** Only `deleteAccount` removes a record, and only the caller's. */
  lemma StepRemovesOnlyDeleted(store: Store, q: Request, e: string)
    requires e in store && !(q.DeleteProfile? && q.id == e)
    ensures e in Step(store, q).store
  {
  }

  /** Over any sequence of requests the store stays well formed. */
  lemma {:induction false} RunPreservesWellFormed(store: Store, qs: seq<Request>)
    requires WellFormed(store)
    ensures WellFormed(Run(store, qs))
    decreases |qs|
  {
    if |qs| > 0 {
      StepPreservesWellFormed(store, qs[0]);
      RunPreservesWellFormed(Step(store, qs[0]).store, qs[1..]);
    }
  }

  // -------------------------------------------------------------------------
  // Properties relating several calls

  /**
   * Two successful `forgotPassword` calls leave only the second code valid:
   * resetting with the first gives "Invalid OTP", with the second succeeds.
   */
  lemma SecondRequestSupersedesFirst(store: Store, email: string, t1: int, first: string,
                                     t2: int, second: string, newPassword: string, t3: int, c: SendResult)
    requires email != "" && email in store && first != second && first != "" && second != ""
    requires Utf16Length(newPassword) >= MinPasswordLength && t3 <= t2 + LifetimeMs
    ensures var s1 := ForgotPassword(store, email, t1, first, Returned(true)).store;
      var s2 := ForgotPassword(s1, email, t2, second, Returned(true)).store;
      && ResetPassword(s2, email, first, newPassword, t3, c) == Reply(InvalidOtp, s2)
      && ResetPassword(s2, email, second, newPassword, t3, c).msg == PasswordWasReset
  {
  }

  /** A mail failure in `forgotPassword` leaves no code that any reset could use. */
  lemma FailedRequestLeavesNoCode(store: Store, email: string, now: int, code: string, otp: string,
                                  newPassword: string, later: int, c: SendResult)
    requires email != "" && email in store && otp != "" && Utf16Length(newPassword) >= MinPasswordLength
    ensures var s1 := ForgotPassword(store, email, now, code, Raised).store;
      && VerifyOtp(s1, email, otp, later) == Reply(NoOtpRequest, s1)
      && ResetPassword(s1, email, otp, newPassword, later, c) == Reply(NoOtpRequest, s1)
  {
  }

  /**
   * A completed reset cannot be replayed, the new password logs in, and a
   * different old password no longer does.
   */
  lemma ResetThenLogin(store: Store, email: string, otp: string, newPassword: string, oldPassword: string,
                       now: int, c: SendResult, later: int)
    requires ResetPassword(store, email, otp, newPassword, now, c).msg == PasswordWasReset
    requires oldPassword != "" && oldPassword != newPassword
    ensures var s1 := ResetPassword(store, email, otp, newPassword, now, c).store;
      && ResetPassword(s1, email, otp, newPassword, later, c) == Reply(NoOtpRequest, s1)
      && LoginUser(s1, email, newPassword) == LoggedIn(email)
      && LoginUser(s1, email, oldPassword) == InvalidPassword
  {
  }

  /** A successful `verifyOTP` leaves the code usable for the following `resetPassword`. */
  lemma VerifyThenReset(store: Store, email: string, otp: string, newPassword: string, now: int, c: SendResult)
    requires VerifyOtp(store, email, otp, now).msg == OtpVerified
    requires Utf16Length(newPassword) >= MinPasswordLength
    ensures ResetPassword(VerifyOtp(store, email, otp, now).store, email, otp, newPassword, now, c).msg == PasswordWasReset
  {
  }

  /**
   * The length test counts UTF-16 code units, as `newPassword.length` does:
   * three characters outside the Basic Multilingual Plane are long enough,
   * two are not.
   */
  lemma AstralPasswordLength(store: Store, email: string, otp: string, now: int, confirmation: SendResult)
    requires email != "" && otp != ""
    ensures ResetPassword(store, email, otp, "\U{1F600}\U{1F600}\U{1F600}", now, confirmation).msg != WeakPassword
    ensures ResetPassword(store, email, otp, "\U{1F600}\U{1F600}", now, confirmation).msg == WeakPassword
  {
    var three := "\U{1F600}\U{1F600}\U{1F600}";
    var two := "\U{1F600}\U{1F600}";
    assert forall i :: 0 <= i < |three| ==> Astral(three[i]);
    assert forall i :: 0 <= i < |two| ==> Astral(two[i]);
  }
}
