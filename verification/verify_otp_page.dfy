/**
 * The pure logic of the user's "Verify OTP" page (`VerifyOTP.jsx`): the
 * input sanitiser, the local length check before submit, the `mm:ss`
 * formatter and the one-second countdown with its reset on resend.
 *
 * The page state keeps what those helpers act on: the typed code, the
 * seconds left, and whether the interval timer is still installed.
 */
module VerifyOtpPage {
  import opened Wrappers
  import opened Decimal
  import opened Strings

  // -------------------------------------------------------------------------
  // Input sanitiser: value.replace(/\D/g, '').slice(0, 6)

  /** The decimal digits of `s`, in order (`/\D/g` removes everything else). */
  function Digits(s: string): (d: string)
    ensures AllDigits(d) && |d| <= |s|
    ensures AllDigits(s) ==> d == s
    ensures |s| == 1 && !IsDigit(s[0]) ==> d == ""
    decreases |s|
  {
    if |s| == 0 then ""
    else (if IsDigit(s[0]) then [s[0]] else "") + Digits(s[1..])
  }

  /** Removing non-digits distributes over concatenation. */
  lemma {:induction false} DigitsAppend(a: string, b: string)
    ensures Digits(a + b) == Digits(a) + Digits(b)
    decreases |a|
  {
    if |a| > 0 {
      assert (a + b)[0] == a[0];
      assert (a + b)[1..] == a[1..] + b;
      DigitsAppend(a[1..], b);
    } else {
      assert a + b == b;
    }
  }

  /** Code length enforced by the input. */
  const CodeLength: nat := 6

  /** The value the OTP field keeps for a raw input. */
  function SanitizeOtp(raw: string): (otp: string)
    ensures AllDigits(otp)
    ensures |otp| == if |Digits(raw)| < CodeLength then |Digits(raw)| else CodeLength
    ensures otp == Digits(raw)[..|otp|]
  {
    var d := Digits(raw);
    if |d| <= CodeLength then d else d[..CodeLength]
  }

  /** Sanitising a sanitised value changes nothing. */
  lemma SanitizeIdempotent(raw: string)
    ensures SanitizeOtp(SanitizeOtp(raw)) == SanitizeOtp(raw)
  {
  }

  /** Digits typed after the sixth are dropped; earlier ones are kept. */
  lemma SanitizeAppend(raw: string, more: string)
    requires |Digits(raw)| >= CodeLength
    ensures SanitizeOtp(raw + more) == SanitizeOtp(raw)
  {
    DigitsAppend(raw, more);
    assert Digits(raw + more)[..CodeLength] == Digits(raw)[..CodeLength];
  }

  // -------------------------------------------------------------------------
  // Submit check: if (!otp || otp.length !== 6) reject locally

  /** `otp.length` counts UTF-16 code units; on a digit string that is its number of characters. */
  function CanSubmit(otp: string): (b: bool)
    ensures b ==> otp != "" && |otp| <= CodeLength
    ensures AllDigits(otp) ==> (b <==> |otp| == CodeLength)
  {
    !(otp == "" || Utf16Length(otp) != CodeLength)
  }

  /** A sanitised field passes the local check exactly when at least six digits were typed. */
  lemma SubmitAfterSanitize(raw: string)
    ensures CanSubmit(SanitizeOtp(raw)) <==> |Digits(raw)| >= CodeLength
  {
  }

  // -------------------------------------------------------------------------
  // formatTime

  /** `${Math.floor(s / 60)}:${(s % 60).toString().padStart(2, '0')}` for a non-negative `s`. */
  function FormatTime(seconds: nat): (r: string)
    ensures ':' in r && |r| >= 4
    ensures r[|r| - 2..] == PadStart(NatToString(seconds % 60), 2, '0')
    ensures r[0] == '0' ==> r[1] == ':'
  {
    NatToString(seconds / 60) + ":" + PadStart(NatToString(seconds % 60), 2, '0')
  }

  /** Reads `m:ss` back into seconds; anything else is `None`. */
  function ParseTime(r: string): Option<nat> {
    var parts := Split(r, ':');
    if |parts| == 2 && AllDigits(parts[0]) && |parts[1]| == 2 && AllDigits(parts[1])
       && StringToNat(parts[1]) < 60
    then Some(60 * StringToNat(parts[0]) + StringToNat(parts[1]))
    else None
  }

  lemma DigitsHaveNoColon(s: string)
    requires AllDigits(s)
    ensures ':' !in s
  {
  }

  /** The seconds field is always two digits worth `seconds % 60`. */
  lemma SecondsField(seconds: nat)
    ensures var f := PadStart(NatToString(seconds % 60), 2, '0');
      |f| == 2 && AllDigits(f) && StringToNat(f) == seconds % 60
  {
    var n := seconds % 60;
    var s := NatToString(n);
    ParseShow(n);
    if n < 10 {
      assert |s| == 1;
      LeadingZero(s);
      assert PadStart(s, 2, '0') == "0" + s;
    } else {
      assert Pow10(1) == 10 && Pow10(2) == 100;
      ShowLength(n, 2);
    }
  }

  /** `formatTime` loses nothing: the displayed text reads back as the same number of seconds. */
  lemma FormatParse(seconds: nat)
    ensures ParseTime(FormatTime(seconds)) == Some(seconds)
  {
    var m := NatToString(seconds / 60);
    var f := PadStart(NatToString(seconds % 60), 2, '0');
    SecondsField(seconds);
    ParseShow(seconds / 60);
    DigitsHaveNoColon(m);
    DigitsHaveNoColon(f);
    assert Join([m, f], ':') == FormatTime(seconds) by {
      assert [m, f][1..] == [f];
    }
    SplitJoin([m, f], ':');
  }

  /** The initial ten minutes display as "10:00". */
  lemma FormatTenMinutes()
    ensures FormatTime(600) == "10:00"
  {
    assert NatToString(1) == "1";
    assert NatToString(10) == "10";
    assert NatToString(0) == "0";
    assert PadStart("0", 2, '0') == "00";
  }

  // -------------------------------------------------------------------------
  // Countdown

  /** Initial and reset value of `timeLeft`: ten minutes, in seconds. */
  const InitialSeconds: int := 600

  /**
   * The `setTimeLeft` updater run by the interval each second: although it
   * tests `t <= 1`, it computes `max(0, t - 1)`, so it never goes negative.
   */
  function Tick(t: int): (t': int)
    ensures t' >= 0
    ensures t >= 1 ==> t' == t - 1
  {
    if t <= 1 then 0 else t - 1
  }

  /** The value after `k` ticks. */
  function Ticks(t: int, k: nat): int
    decreases k
  {
    if k == 0 then t else Ticks(Tick(t), k - 1)
  }

  /** From a non-negative start the countdown falls by one per second and stops at zero. */
  lemma {:induction false} TicksFormula(t: nat, k: nat)
    ensures Ticks(t, k) == if k >= t then 0 else t - k
    decreases k
  {
    if k > 0 {
      TicksFormula(Tick(t), k - 1);
    }
  }

  /** The page's mutable state: the typed code, `timeLeft`, and whether the interval is installed. */
  datatype Page = Page(otp: string, timeLeft: int, ticking: bool)

  /** The state after mounting with an email in the router state. */
  const Initial: Page := Page("", InitialSeconds, true)

  datatype Event =
    | Typed(raw: string)     // onChange of the OTP field
    | TimerFired             // one interval callback
    | ResendSucceeded        // handleResendOTP, request resolved
    | ResendFailed           // handleResendOTP, request rejected

  /**
   * One event as the page handles it. The interval clears itself when the
   * count reaches zero and nothing installs it again, so a resend after
   * expiry sets the count back to 600 but the count no longer moves.
   */
  function Handle(p: Page, e: Event): (q: Page)
    ensures e.Typed? ==> q == p.(otp := SanitizeOtp(e.raw))
    ensures e.TimerFired? && p.ticking ==> q.otp == p.otp && q.timeLeft == Tick(p.timeLeft) && (q.ticking <==> q.timeLeft > 0)
    ensures e.TimerFired? && !p.ticking ==> q == p
    ensures e.ResendSucceeded? ==> q.timeLeft == InitialSeconds && q.ticking == p.ticking && q.otp == p.otp
    ensures e.ResendFailed? ==> q == p
  {
    match e
    case Typed(raw) => p.(otp := SanitizeOtp(raw))
    case TimerFired =>
      if !p.ticking then p
      else if p.timeLeft <= 1 then p.(timeLeft := 0, ticking := false)
      else p.(timeLeft := Tick(p.timeLeft))
    case ResendSucceeded => p.(timeLeft := InitialSeconds)
    case ResendFailed => p
  }

  /** As `Handle`, but a successful resend also restarts the countdown. */
  function HandleRestarting(p: Page, e: Event): Page {
    match e
    case ResendSucceeded => p.(timeLeft := InitialSeconds, ticking := true)
    case _ => Handle(p, e)
  }

  /** The field holds at most six digits, and the count is within `[0, 600]`, positive while ticking. */
  predicate Invariant(p: Page) {
    && AllDigits(p.otp) && |p.otp| <= CodeLength
    && 0 <= p.timeLeft <= InitialSeconds
    && (p.ticking ==> p.timeLeft >= 1)
  }

  /** The submit button: `disabled={loading || timeLeft === 0}`. */
  function SubmitEnabled(p: Page, loading: bool): (b: bool)
    ensures b ==> !loading
    ensures Invariant(p) && p.ticking ==> (b <==> !loading)
    ensures p.timeLeft == 0 ==> !b
    ensures p.timeLeft > 0 ==> (b <==> !loading)
  {
    !(loading || p.timeLeft == 0)
  }

  lemma HandlePreservesInvariant(p: Page, e: Event)
    requires Invariant(p)
    ensures Invariant(Handle(p, e)) && Invariant(HandleRestarting(p, e))
  {
  }

  /** `n` interval callbacks in a row. */
  function Fire(p: Page, n: nat, restarting: bool): Page
    decreases n
  {
    if n == 0 then p
    else Fire(if restarting then HandleRestarting(p, TimerFired) else Handle(p, TimerFired), n - 1, restarting)
  }

  /** While the interval is installed, `n` callbacks bring the count down to `max(0, t - n)`. */
  lemma {:induction false} FireCountsDown(p: Page, n: nat, restarting: bool)
    requires Invariant(p) && p.ticking
    ensures Fire(p, n, restarting).timeLeft == Ticks(p.timeLeft, n)
    ensures Fire(p, n, restarting).timeLeft == 0 <==> n >= p.timeLeft
    decreases n
  {
    TicksFormula(p.timeLeft, n);
    if n > 0 {
      var q := Handle(p, TimerFired);
      assert HandleRestarting(p, TimerFired) == q;
      if q.ticking {
        FireCountsDown(q, n - 1, restarting);
      } else {
        assert q.timeLeft == 0;
        StoppedStaysStopped(q, n - 1, restarting);
        TicksFormula(0, n - 1);
      }
    }
  }

  /** Once the interval is gone, callbacks change nothing. */
  lemma {:induction false} StoppedStaysStopped(p: Page, n: nat, restarting: bool)
    requires !p.ticking
    ensures Fire(p, n, restarting) == p
    decreases n
  {
    if n > 0 {
      StoppedStaysStopped(p, n - 1, restarting);
    }
  }

  /** From the initial page the count is `max(0, 600 - n)` and submit is disabled from second 600 on. */
  lemma CountdownFromInitial(n: nat, loading: bool)
    ensures Fire(Initial, n, false).timeLeft == if n >= 600 then 0 else 600 - n
    ensures n >= 600 ==> !SubmitEnabled(Fire(Initial, n, false), loading)
  {
    FireCountsDown(Initial, n, false);
    TicksFormula(600, n);
  }

  /**
   * As written: after the count has run out, a successful resend shows
   * 10:00 again, and it stays at 10:00 however many seconds pass.
   */
  lemma {:induction false} ResendAfterExpiryFreezes(p: Page, n: nat)
    requires Invariant(p) && p.timeLeft == 0
    ensures Fire(Handle(p, ResendSucceeded), n, false).timeLeft == InitialSeconds
    ensures SubmitEnabled(Fire(Handle(p, ResendSucceeded), n, false), false)
  {
    StoppedStaysStopped(Handle(p, ResendSucceeded), n, false);
  }

  /** Corrected: after any successful resend the count runs down from 600 again. */
  lemma ResendRestartsCountdown(p: Page, n: nat)
    requires Invariant(p)
    ensures Fire(HandleRestarting(p, ResendSucceeded), n, true).timeLeft == if n >= 600 then 0 else 600 - n
  {
    FireCountsDown(HandleRestarting(p, ResendSucceeded), n, true);
    TicksFormula(600, n);
  }
}
