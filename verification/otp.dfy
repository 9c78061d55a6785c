/**
 * One OTP slot of an account record (`emailVerificationOTP` /
 * `emailVerificationOTPExpires` or `resetPasswordOTP` /
 * `resetPasswordOTPExpires`) and the checks the controllers run on it.
 *
 * bcrypt is replaced by an injective tag: `Hash(c)` remembers `c`, and
 * `Compare(c', Hash(c))` holds exactly when `c' == c`. The two fields are
 * separate options because the source tests their presence separately.
 */
module Otp {
  import opened Wrappers

  /** A stored OTP hash. */
  datatype Digest = Digest(secret: string)

  /** `bcrypt.compare(code, d)`. */
  predicate Compare(code: string, d: Digest) {
    d.secret == code
  }

  /** `bcrypt.hash(code, salt)`: the digest matches `code` and nothing else. */
  function Hash(code: string): (d: Digest)
    ensures forall c :: Compare(c, d) <==> c == code
  {
    Digest(code)
  }

  /** Validity window of a fresh code: `10 * 60 * 1000` milliseconds. */
  const LifetimeMs: int := 10 * 60 * 1000

  /** The two fields of one slot; `None` is `undefined`. */
  datatype OtpFields = OtpFields(hash: Option<Digest>, expires: Option<int>)

  /** Both fields cleared (set to `undefined`). */
  const Cleared: OtpFields := OtpFields(None, None)

  /** The slot after a fresh code is stored at time `now` (milliseconds). */
  function Issue(code: string, now: int): (f: OtpFields)
    ensures f.hash.Some? && f.expires == Some(now + LifetimeMs)
    ensures forall c :: Compare(c, f.hash.value) <==> c == code
  {
    OtpFields(Some(Hash(code)), Some(now + LifetimeMs))
  }

  /** The hash and the expiry are present together or absent together. */
  predicate Paired(f: OtpFields) {
    f.hash.Some? <==> f.expires.Some?
  }

  /**
   * `Date.now() > expires`. An absent expiry compares as `undefined`, which
   * is never smaller than a number, so it is never expired.
   */
  function IsExpired(now: int, expires: Option<int>): (b: bool)
    ensures expires.None? ==> !b
    ensures expires.Some? ==> (b <==> expires.value < now)
  {
    expires.Some? && now > expires.value
  }

  /** Once a code has expired it stays expired: expiry is monotone in the clock. */
  lemma ExpiryIsFinal(now: int, later: int, expires: Option<int>)
    requires IsExpired(now, expires) && now <= later
    ensures IsExpired(later, expires)
  {
  }

  /** The verdict of one check chain; the first failing test wins. */
  datatype Verdict = Absent | Expired | Mismatch | Match

  /**
   * The reset-password chain (`verifyOTP` and `resetPassword`): both fields
   * must be present, then the code must not have expired, then it must match.
   */
  function CheckReset(f: OtpFields, otp: string, now: int): (v: Verdict)
    ensures v == Absent <==> f.hash.None? || f.expires.None?
    ensures v == Expired <==> f.hash.Some? && IsExpired(now, f.expires)
    ensures v == Match <==> f.hash.Some? && f.expires.Some? && now <= f.expires.value && Compare(otp, f.hash.value)
  {
    if f.hash.None? || f.expires.None? then Absent
    else if IsExpired(now, f.expires) then Expired
    else if !Compare(otp, f.hash.value) then Mismatch
    else Match
  }

  /**
   * The email-verification chain (`verifyEmail`): only the hash must be
   * present; an absent expiry is not expired.
   */
  function CheckVerification(f: OtpFields, otp: string, now: int): (v: Verdict)
    ensures v == Absent <==> f.hash.None?
    ensures v == Expired <==> f.hash.Some? && IsExpired(now, f.expires)
    ensures v == Match <==> f.hash.Some? && !IsExpired(now, f.expires) && Compare(otp, f.hash.value)
  {
    if f.hash.None? then Absent
    else if IsExpired(now, f.expires) then Expired
    else if !Compare(otp, f.hash.value) then Mismatch
    else Match
  }

  /** On a slot whose fields are paired, the two chains agree. */
  lemma ChecksAgreeWhenPaired(f: OtpFields, otp: string, now: int)
    requires Paired(f)
    ensures CheckReset(f, otp, now) == CheckVerification(f, otp, now)
  {
  }

  /**
   * A freshly issued code is accepted up to and including the instant
   * `now + LifetimeMs` and reported expired one millisecond later; any
   * other code is a mismatch while the slot is live.
   */
  lemma IssuedCodeWindow(code: string, other: string, issued: int, now: int)
    requires other != code
    ensures now <= issued + LifetimeMs ==> CheckReset(Issue(code, issued), code, now) == Match
    ensures now <= issued + LifetimeMs ==> CheckReset(Issue(code, issued), other, now) == Mismatch
    ensures now > issued + LifetimeMs ==> CheckReset(Issue(code, issued), code, now) == Expired
  {
  }
}
