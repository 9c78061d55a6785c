/**
 * The mail layer as the controllers observe it: the six-digit code
 * generator, the "console mode" short-circuit taken when credentials are
 * missing or placeholders, the transporter's own credential check, and
 * which of the three send functions may throw.
 *
 * Environment variables are strings, with "" standing for an unset
 * variable (both are falsy in JavaScript). The transport is the parameter
 * `deliver`: whether it accepts a given message.
 */
module EmailService {
  import opened Wrappers
  import opened Decimal

  /** Number of digits of a one-time code. */
  const OtpLength: nat := 6

  /** Smallest code value; `generateOTP` adds it to the random draw. */
  const OtpBase: nat := 100000

  /** Number of distinct codes; the random draw is scaled to `[0, OtpSpan)`. */
  const OtpSpan: nat := 900000

  /**
   * `generateOTP`, with `Math.floor(Math.random() * 900000)` abstracted to
   * the integer `draw`. The code is the decimal spelling of `100000 + draw`.
   */
  function GenerateOtp(draw: int): (otp: string)
    requires 0 <= draw < OtpSpan
    ensures |otp| == OtpLength && AllDigits(otp) && otp[0] != '0'
    ensures StringToNat(otp) == OtpBase + draw
  {
    var n := OtpBase + draw;
    SixDigitBounds();
    ShowLength(n, 6);
    ParseShow(n);
    NatToString(n)
  }

  /**
   * Every six-digit code without a leading zero is produced by exactly one
   * draw, so the generator ranges over `[100000, 999999]` and nothing else.
   */
  lemma GenerateOtpOnto(code: string)
    requires |code| == OtpLength && AllDigits(code) && code[0] != '0'
    ensures var draw := StringToNat(code) - OtpBase;
      0 <= draw < OtpSpan && GenerateOtp(draw) == code
  {
    SixDigitBounds();
    ValueAbovePow(code);
    ValueBelowPow(code);
    ShowParse(code);
  }

  /** Process configuration: `EMAIL_USER` and `EMAIL_PASS`. */
  datatype MailConfig = MailConfig(user: string, pass: string)

  const PlaceholderUser: string := "your-email@gmail.com"

  /** The placeholder password rejected by `createTransporter`. */
  const PlaceholderPass: string := "your-16-character-app-password"

  /** The placeholder password that switches the send functions to console mode. */
  const PlaceholderPassHere: string := "your-16-character-app-password-here"

  /** The send functions log the message instead of sending it and report success. */
  function ConsoleMode(cfg: MailConfig): (b: bool)
    ensures cfg.user == "" || cfg.pass == "" ==> b
    ensures !b ==> (CreateTransporter(cfg).Err? <==> cfg.pass == PlaceholderPass)
  {
    cfg.user == "" || cfg.pass == "" || cfg.user == PlaceholderUser || cfg.pass == PlaceholderPassHere
  }

  datatype TransporterError = NotConfigured | PlaceholderCredentials

  /** A transport bound to the configured Gmail account. */
  datatype Transporter = Gmail(user: string, pass: string)

  /** `createTransporter`: throws on missing credentials, then on placeholder credentials. */
  function CreateTransporter(cfg: MailConfig): (r: Result<Transporter, TransporterError>)
    ensures r.Ok? <==> cfg.user != "" && cfg.pass != "" && cfg.user != PlaceholderUser && cfg.pass != PlaceholderPass
    ensures r.Ok? ==> r.value == Gmail(cfg.user, cfg.pass)
    ensures r == Err(NotConfigured) <==> cfg.user == "" || cfg.pass == ""
  {
    if cfg.user == "" || cfg.pass == "" then Err(NotConfigured)
    else if cfg.user == PlaceholderUser || cfg.pass == PlaceholderPass then Err(PlaceholderCredentials)
    else Ok(Gmail(cfg.user, cfg.pass))
  }

  /** What a send call does to its caller: resolve with a `success` flag, or reject. */
  datatype SendResult = Returned(success: bool) | Raised

  /** A message as handed to the transport; `code` is absent from the confirmation mail. */
  datatype Mail = Mail(to: string, subject: string, code: Option<string>)

  const ResetCodeSubject: string := "Password Reset OTP - Job Portal"
  const ResetDoneSubject: string := "Password Reset Successful - Job Portal"
  const VerifyCodeSubject: string := "Verify Your Email - Job Portal"

  /**
   * The shared shape of `sendOTPEmail` and `sendEmailVerificationOTP`:
   * console mode succeeds without a transport; otherwise a transporter
   * error or a failed delivery of `mail` is rethrown.
   */
  function SendOrThrow(cfg: MailConfig, mail: Mail, deliver: Mail -> bool): SendResult {
    if ConsoleMode(cfg) then Returned(true)
    else match CreateTransporter(cfg)
      case Err(_) => Raised
      case Ok(_) => if deliver(mail) then Returned(true) else Raised
  }

  /**
   * `sendOTPEmail(email, otp, name)` (password-reset code): resolves only
   * with success, otherwise throws. `deliver` is the transport's verdict on
   * each message; the greeting name only affects the HTML body.
   */
  function SendOtpEmail(cfg: MailConfig, email: string, otp: string, deliver: Mail -> bool): (r: SendResult)
    ensures r != Returned(false)
    ensures r.Raised? <==>
      !ConsoleMode(cfg) && (CreateTransporter(cfg).Err? || !deliver(Mail(email, ResetCodeSubject, Some(otp))))
  {
    SendOrThrow(cfg, Mail(email, ResetCodeSubject, Some(otp)), deliver)
  }

  /** `sendEmailVerificationOTP(email, otp, name)` (registration code): resolves only with success, otherwise throws. */
  function SendEmailVerificationOtp(cfg: MailConfig, email: string, otp: string, deliver: Mail -> bool): (r: SendResult)
    ensures r != Returned(false)
    ensures r.Raised? <==>
      !ConsoleMode(cfg) && (CreateTransporter(cfg).Err? || !deliver(Mail(email, VerifyCodeSubject, Some(otp))))
  {
    SendOrThrow(cfg, Mail(email, VerifyCodeSubject, Some(otp)), deliver)
  }

  /**
   * `sendPasswordResetSuccessEmail(email, name)`: never throws; a
   * transporter error or a failed delivery is reported as `success: false`.
   */
  function SendPasswordResetSuccessEmail(cfg: MailConfig, email: string, deliver: Mail -> bool): (r: SendResult)
    ensures r.Returned?
    ensures r.success <==>
      ConsoleMode(cfg) || (CreateTransporter(cfg).Ok? && deliver(Mail(email, ResetDoneSubject, None)))
  {
    if ConsoleMode(cfg) then Returned(true)
    else match CreateTransporter(cfg)
      case Err(_) => Returned(false)
      case Ok(_) => Returned(deliver(Mail(email, ResetDoneSubject, None)))
  }

  /** In console mode no send function throws, whatever the transport would have done. */
  lemma ConsoleModeNeverRaises(cfg: MailConfig, email: string, otp: string, deliver: Mail -> bool)
    requires ConsoleMode(cfg)
    ensures SendOtpEmail(cfg, email, otp, deliver) == Returned(true)
    ensures SendEmailVerificationOtp(cfg, email, otp, deliver) == Returned(true)
    ensures SendPasswordResetSuccessEmail(cfg, email, deliver) == Returned(true)
  {
  }

  /**
   * The two placeholder checks disagree: with the password
   * "your-16-character-app-password" and a real user name, the send
   * functions leave console mode, `createTransporter` then rejects the
   * credentials, and every code-carrying send throws.
   */
  lemma PlaceholderMismatch(user: string, email: string, otp: string, deliver: Mail -> bool)
    requires user != "" && user != PlaceholderUser
    ensures var cfg := MailConfig(user, PlaceholderPass);
      && !ConsoleMode(cfg)
      && CreateTransporter(cfg) == Err(PlaceholderCredentials)
      && SendOtpEmail(cfg, email, otp, deliver) == Raised
      && SendEmailVerificationOtp(cfg, email, otp, deliver) == Raised
      && SendPasswordResetSuccessEmail(cfg, email, deliver) == Returned(false)
  {
    assert PlaceholderPass != PlaceholderPassHere by {
      assert |PlaceholderPass| != |PlaceholderPassHere|;
    }
  }
}
