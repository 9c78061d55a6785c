# JobHunt account recovery and email verification, modelled in Dafny

This project models the credential core of the JobHunt job board: the one-time-code (OTP)
state machine behind recruiter email verification and the password reset of both account
types, the login and password handlers around it, the route guards that admit a bearer
token, the mail layer's raise/no-raise contract, and the pure helpers of the user's
"Verify OTP" page.

Each account record carries up to two independent OTP slots: email verification
(recruiters only) and password reset. A slot is a stored hash plus an absolute expiry in
milliseconds. Every handler is a pure function of the store and of what it reads from the
world:

- the clock `now`;
- the freshly generated code `code`;
- the outcome of the send call `mail`.

It returns the reply (message and HTTP status) and the new store. The store is a
`map<string, Record>` keyed by email. The record's database id is identified with that
key, since both are unique.

Modules:

| file | module | models |
|---|---|---|
| wrappers.dfy | `Wrappers` | `Option` (`undefined`), `Result` (throw) |
| decimal.dfy | `Decimal` | `Number.prototype.toString()` on naturals below 10^21, and its inverse |
| strings.dfy | `Strings` | `split` and `padStart` with one-character arguments, and `length` in UTF-16 code units |
| email_service.dfy | `EmailService` | `generateOTP`, console mode, `createTransporter`, the three send functions |
| otp.dfy | `Otp` | the OTP slot, bcrypt as an injective tag, the two check chains |
| responses.dfy | `Responses` | reply messages and their status codes |
| recruiter_controller.dfy | `RecruiterController` | the recruiter handlers, their state machine and cross-call properties |
| user_controller.dfy | `UserController` | the user handlers, their state machine and cross-call properties |
| auth.dfy | `Auth` | token extraction and the three guards |
| verify_otp_page.dfy | `VerifyOtpPage` | sanitiser, submit check, `formatTime`, countdown |

Abstractions:

- bcrypt is `Digest(secret)`: `Compare(c, Hash(c'))` holds iff `c == c'`.
- Passwords are opaque strings compared by equality. This stands for the model's
  pre-save hashing hook and `comparePassword`, which are not part of this model.
- JWT signing is left out. `jwt.verify` is an oracle `string -> Option<Claims>`.
- The SMTP transport is an oracle `deliver: Mail -> bool`: whether it accepts a message (address, subject, code).
- A falsy request field (`undefined` or `""`) is `""`.
- An unset environment variable is `""`.
- The hash and the expiry of a slot are separate options. The source tests their presence
  separately: `verifyEmail` tests only the hash, and `Date.now() > undefined` is false.

Behaviours that follow the code where a reader might expect otherwise:

- `verifyEmail` leaves an expired code in place. `verifyOTP` and `resetPassword` clear it.
- `resendEmailVerificationOTP` keeps the new code when its mail throws.
- `forgotPassword` clears the reset slot when its mail throws. A code stored before the
  call is lost too.
- Recruiter login checks verification before the password.
- `verifyRecruiter` and `verifyUser` never look at the role.
- The "Verify OTP" page clears its interval when the count reaches zero. A later resend
  shows 10:00 again, but the countdown does not restart (see Findings).

## Model

| member | source | states |
|---|---|---|
| EmailService.GenerateOtp | backend/src/utils/emailService.js:24-26 | for a random draw in [0, 900000) the code is six decimal digits with no leading zero, worth 100000 + draw |
| EmailService.GenerateOtpOnto | backend/src/utils/emailService.js:24-26 | every six-digit code without a leading zero comes from exactly the draw value minus 100000, so the codes range over [100000, 999999] |
| EmailService.CreateTransporter | backend/src/utils/emailService.js:4-21 | succeeds iff both credentials are set and neither is a placeholder ('your-email@gmail.com', 'your-16-character-app-password'); missing credentials are reported first |
| EmailService.SendOtpEmail | backend/src/utils/emailService.js:29-157 | never resolves with success false; throws iff not in console mode and either the transporter is refused or the transport refuses the 'Password Reset OTP' message carrying the code to that address |
| EmailService.SendEmailVerificationOtp | backend/src/utils/emailService.js:260-389 | never resolves with success false; throws iff not in console mode and either the transporter is refused or the transport refuses the 'Verify Your Email' message carrying the code |
| EmailService.SendPasswordResetSuccessEmail | backend/src/utils/emailService.js:160-257 | never throws; success is false exactly when outside console mode the transporter is refused or the transport refuses the code-free 'Password Reset Successful' message |
| EmailService.ConsoleMode | backend/src/utils/emailService.js:31-33 | a missing EMAIL_USER or EMAIL_PASS always means console mode; outside console mode createTransporter refuses exactly when the password is the placeholder without '-here' |
| EmailService.ConsoleModeNeverRaises | backend/src/utils/emailService.js:31-47 | with EMAIL_USER or EMAIL_PASS missing or a placeholder, all three sends return success whatever the transport does |
| EmailService.PlaceholderMismatch | backend/src/utils/emailService.js:10-12 | the password 'your-16-character-app-password' is not console mode but is refused by createTransporter, so both code mails throw and the confirmation reports failure |
| Otp.Hash | backend/src/controllers/recruiterController.js:36-37 | the stored digest matches the hashed code and no other code |
| Otp.Issue | backend/src/controllers/userController.js:271-276 | a fresh slot holds a digest matching only the new code and expires at now + 600000 ms |
| Otp.CheckReset | backend/src/controllers/userController.js:336-363 | reset chain: absent if either field is missing, else expired iff now > expiry (strict), else match iff the code compares equal |
| Otp.IsExpired | backend/src/controllers/recruiterController.js:120 | an absent expiry is never expired (`now > undefined` is false); a present one is expired iff it is strictly before now |
| Otp.ExpiryIsFinal | backend/src/controllers/userController.js:344 | once a code is expired at some time it is expired at every later time |
| Otp.CheckVerification | backend/src/controllers/recruiterController.js:112-135 | verification chain: absent only if the hash is missing; an absent expiry never expires |
| Otp.ChecksAgreeWhenPaired | backend/src/controllers/recruiterController.js:112-125 | on a slot whose two fields are both set or both unset, the verification and reset chains give the same verdict |
| Otp.IssuedCodeWindow | backend/src/controllers/userController.js:343-363 | a fresh code is accepted up to and including now + 600000, expired one millisecond later, and any other code mismatches while it is live |
| RecruiterController.RegisterRecruiter | backend/src/controllers/recruiterController.js:15-68 | missing field or taken email gives 400 with the store unchanged; success adds exactly one unverified record with a verification code expiring at now + 600000; a mail failure gives 500 and leaves the store as before |
| RecruiterController.VerifyEmail | backend/src/controllers/recruiterController.js:89-148 | missing fields, unknown, already verified, no code, expired (left in place), wrong code, in that order, each without mutation; success sets the flag and clears the slot |
| RecruiterController.ResendEmailVerificationOtp | backend/src/controllers/recruiterController.js:167-217 | an unverified account gets a new code, kept even when the mail throws (500); every other outcome mutates nothing |
| RecruiterController.LoginRecruiter | backend/src/controllers/recruiterController.js:233-268 | unknown 404; unverified 403 with the stored email whatever the password; wrong password 401; a token only when verified and the password matches |
| RecruiterController.ChangePassword | backend/src/controllers/recruiterController.js:379-403 | unknown id 404; wrong current password 400 with no change; otherwise only the password changes, with no length check |
| RecruiterController.ForgotPassword | backend/src/controllers/recruiterController.js:425-482 | an existing account gets a reset code expiring at now + 600000; on mail failure the reset slot is cleared and 500 is returned |
| RecruiterController.VerifyOtp | backend/src/controllers/recruiterController.js:498-546 | reset chain in order; an expired code is cleared; wrong code and success mutate nothing |
| RecruiterController.ResetPassword | backend/src/controllers/recruiterController.js:561-630 | a password shorter than 6 UTF-16 code units is refused before the lookup; an expired code is cleared; success sets the password and clears the slot; the confirmation mail's outcome does not appear in the contract |
| RecruiterController.AstralPasswordLength | backend/src/controllers/recruiterController.js:568 | three characters outside the Basic Multilingual Plane pass the length test (length 6) and two do not |
| RecruiterController.StepKeepsVerified | backend/src/controllers/recruiterController.js:137-141 | no recruiter handler removes an existing record, verified or not, or sets isEmailVerified back to false |
| RecruiterController.StepPreservesWellFormed | backend/src/controllers/recruiterController.js:39-48 | every handler keeps records under their own email with the hash and expiry of each slot set or cleared together |
| RecruiterController.RunInvariants | backend/src/controllers/recruiterController.js:8-638 | over any request sequence the store stays well formed, no account disappears, and verification is never undone |
| RecruiterController.RegisterVerifyLogin | backend/src/controllers/recruiterController.js:39-141 | register, login refused with 403, verify with the mailed code before expiry, login succeeds, a replay of the code says already verified |
| RecruiterController.RegisterInConsoleMode | backend/src/controllers/recruiterController.js:50-59 | in console mode a complete registration of a new email always keeps the account |
| RecruiterController.VerifyEmailReplay | backend/src/controllers/recruiterController.js:105-110 | after a successful verification the same request gets 400 "already verified" and changes nothing |
| RecruiterController.ResendSupersedes | backend/src/controllers/recruiterController.js:198-217 | after a resend, whether or not its mail threw, the previous code gives "Invalid OTP" and the new one verifies while live |
| RecruiterController.ExpiryHandling | backend/src/controllers/recruiterController.js:120-125 | on expiry verifyEmail leaves the store unchanged while verifyOTP and resetPassword clear the reset slot |
| RecruiterController.ResetThenLogin | backend/src/controllers/recruiterController.js:613-630 | a completed reset cannot be replayed ("No OTP request found"); a verified recruiter logs in with the new password and not with a different old one |
| UserController.RegisterUser | backend/src/controllers/userController.js:11-43 | missing field or taken email gives 400 with the store unchanged; success adds exactly one record with no code and no verification gate |
| UserController.LoginUser | backend/src/controllers/userController.js:58-83 | unknown 404, wrong password 401, otherwise a token; never asks for verification |
| UserController.ChangePassword | backend/src/controllers/userController.js:178-202 | unknown id 404; wrong current password 400 with no change; otherwise only the password changes, with no length check |
| UserController.DeleteAccount | backend/src/controllers/userController.js:215-227 | removes exactly the caller's record and leaves every other record as it was; a missing record gives 404 |
| UserController.ForgotPassword | backend/src/controllers/userController.js:248-304 | unknown email 404 with no mutation; otherwise a reset code expiring at now + 600000, cleared again with 500 if the mail throws |
| UserController.VerifyOtp | backend/src/controllers/userController.js:320-368 | missing fields, unknown, either field absent, expired (cleared), wrong code, in that order; success mutates nothing |
| UserController.ResetPassword | backend/src/controllers/userController.js:383-451 | a password shorter than 6 UTF-16 code units is refused before the lookup; the reset chain in order; success sets the password and clears the slot whatever the confirmation mail did |
| UserController.AstralPasswordLength | backend/src/controllers/userController.js:390 | three characters outside the Basic Multilingual Plane pass the length test (length 6) and two do not |
| UserController.StepPreservesWellFormed | backend/src/controllers/userController.js:27-32 | every user handler keeps records under their own email with a reset slot whose fields are set or cleared together |
| UserController.StepRemovesOnlyDeleted | backend/src/controllers/userController.js:213-227 | no handler except deleteAccount for that id removes a record |
| UserController.RunPreservesWellFormed | backend/src/controllers/userController.js:7-460 | over any request sequence the user store stays well formed |
| UserController.SecondRequestSupersedesFirst | backend/src/controllers/userController.js:275-277 | after two forgotPassword calls only the second code resets the password; the first gives "Invalid OTP" |
| UserController.FailedRequestLeavesNoCode | backend/src/controllers/userController.js:295-298 | after a forgotPassword whose mail threw, verifyOTP and resetPassword answer "No OTP request found" |
| UserController.ResetThenLogin | backend/src/controllers/userController.js:436-451 | a completed reset cannot be replayed; the new password logs in and a different old one gets 401 |
| UserController.VerifyThenReset | backend/src/controllers/userController.js:365-368 | a successful verifyOTP leaves the code usable by the following resetPassword |
| Auth.ExtractToken | backend/src/middlewares/auth.js:6-13 | a token exists only when the header is present; it is non-empty and contains no space; a header without a space yields none |
| Auth.BearerToken | backend/src/middlewares/auth.js:37 | for any space-free scheme word, "scheme token" and "scheme token more" yield token |
| Auth.TokenIsSecondField | backend/src/middlewares/auth.js:69 | any extracted token is preceded by a space-free word and one space and followed by nothing or a space |
| Auth.VerifyAdmin | backend/src/middlewares/auth.js:4-32 | no token 401, unverifiable 401 "Invalid token", role other than admin 403, otherwise next with adminId = decoded id |
| Auth.VerifyRecruiter | backend/src/middlewares/auth.js:35-64 | no token 401, unverifiable 401 "Invalid token", any verifiable token accepted with recruiterId = decoded id, never 403 |
| Auth.VerifyUser | backend/src/middlewares/auth.js:67-88 | no token 401, unverifiable 401 "Invalid token", any verifiable token accepted with userId = decoded id, never 403 |
| Auth.GatesCompared | backend/src/middlewares/auth.js:15-80 | the recruiter and user guards admit and refuse the same requests with the same id, differing only in the request property they set; whatever the admin guard admits they admit too |
| VerifyOtpPage.Digits | frontend/src/pages/user/VerifyOTP.jsx:108 | the result is all digits, no longer than the input, equal to the input when it is all digits, and empty for a single non-digit; with DigitsAppend this fixes it on every input |
| VerifyOtpPage.DigitsAppend | frontend/src/pages/user/VerifyOTP.jsx:108 | removing non-digits distributes over concatenation, so digits are kept in order |
| VerifyOtpPage.SanitizeOtp | frontend/src/pages/user/VerifyOTP.jsx:108 | the field keeps the first min(6, number of digits) digits of the input, in order |
| VerifyOtpPage.SanitizeIdempotent | frontend/src/pages/user/VerifyOTP.jsx:108 | sanitising twice equals sanitising once |
| VerifyOtpPage.SanitizeAppend | frontend/src/pages/user/VerifyOTP.jsx:108 | once six digits are present, further typing does not change the field |
| VerifyOtpPage.CanSubmit | frontend/src/pages/user/VerifyOTP.jsx:50-53 | the check passes only for a non-empty value of at most six characters, and on digit strings exactly when there are six |
| VerifyOtpPage.SubmitAfterSanitize | frontend/src/pages/user/VerifyOTP.jsx:50-53 | a sanitised field passes the local submit check iff at least six digits were typed |
| VerifyOtpPage.FormatTime | frontend/src/pages/user/VerifyOTP.jsx:39-43 | the text contains ':', ends with the seconds padded with '0' to two characters, and puts no leading zero before the minutes |
| VerifyOtpPage.FormatParse | frontend/src/pages/user/VerifyOTP.jsx:39-43 | the displayed m:ss text reads back as exactly the given number of seconds |
| VerifyOtpPage.FormatTenMinutes | frontend/src/pages/user/VerifyOTP.jsx:39-43 | 600 seconds display as "10:00" |
| VerifyOtpPage.Tick | frontend/src/pages/user/VerifyOTP.jsx:26-33 | the updater never goes negative and decrements any positive count by one |
| VerifyOtpPage.Handle | frontend/src/pages/user/VerifyOTP.jsx:26-80 | as written: typing stores the sanitised value; a callback ticks and removes the interval when the count reaches 0; a removed interval ignores time; a successful resend sets 600 and leaves the interval as it was; a failed resend changes nothing |
| VerifyOtpPage.SubmitEnabled | frontend/src/pages/user/VerifyOTP.jsx:124 | submit is never enabled while loading; it is disabled while the count is 0 and otherwise enabled iff not loading, so after expiry it stays disabled until a successful resend sets the count back to 600 |
| VerifyOtpPage.TicksFormula | frontend/src/pages/user/VerifyOTP.jsx:26-33 | k ticks from t >= 0 give max(0, t - k) |
| VerifyOtpPage.HandlePreservesInvariant | frontend/src/pages/user/VerifyOTP.jsx:14-33 | every page event keeps the field at most six digits and the count in [0, 600], positive while the interval runs |
| VerifyOtpPage.FireCountsDown | frontend/src/pages/user/VerifyOTP.jsx:26-33 | while the interval runs, n callbacks bring the count to max(0, t - n), and it reaches 0 exactly after t callbacks |
| VerifyOtpPage.CountdownFromInitial | frontend/src/pages/user/VerifyOTP.jsx:124 | from mount the count after n seconds is max(0, 600 - n), and submit is disabled from second 600 on |
| VerifyOtpPage.ResendAfterExpiryFreezes | frontend/src/pages/user/VerifyOTP.jsx:80 | as written, a resend after the count ran out shows 600 seconds forever, and submit stays enabled |
| VerifyOtpPage.ResendRestartsCountdown | frontend/src/pages/user/VerifyOTP.jsx:80 | with the restart, after any successful resend the count runs down from 600 again |

## Left out

- Database failures and the generic 500 "Server error" replies. The store is a pure map and never fails.
- Mongoose details: field projections, validators, unique indexes, the pre-save password hook,
  any email normalisation the schema may apply, and `updateProfile`'s ability to change a
  user's email. The schema files are not part of this model.
- bcrypt salting, cost factor and constant-time comparison. An injective tag replaces them.
- JWT signing and `generateToken`. Verification is an oracle. A login reply carries the
  account key in place of a token.
- Non-string request values and `undefined` passed to bcrypt or to `save`. For example, a
  missing `currentPassword` makes `comparePassword` throw (500). Every field is a string here.
- `Math.random` floating point. The draw is an integer in [0, 900000).
- The HTML mail templates, the nodemailer transport and console logging, including the
  secret printed at recruiterController.js:422.
- `getDashboardStats`, `getMyJobs`, `getProfile` and both `updateProfile` handlers. They are
  plain queries with no logic of their own.
- React rendering, navigation, `setTimeout`, the `loading` flag's own transitions, and the
  other frontend pages and services.
- Races between concurrent requests on the same account.
- Decimal.NatToString: spells every natural in plain decimal, while JavaScript switches to exponent form from 10^21 and loses exactness above 2^53. The code generator only spells values below 10^6 and the page only minute counts up to 10.
- VerifyOtpPage.FormatTime: takes a natural number only. The page never passes a negative
  count (see HandlePreservesInvariant).
- RecruiterController.ResetPassword and UserController.ResetPassword: take the confirmation
  mail's result as a parameter. That result never reaches the reply, so the contract does
  not mention it.

## Findings

| source | as written | input that shows it | evidently intended | confidence | as-written member | corrected member |
|---|---|---|---|---|---|---|
| frontend/src/pages/user/VerifyOTP.jsx:26-33 | the interval clears itself when the count reaches zero, and the "Reset timer" on resend (line 80) sets the count to 600 without installing a new interval | wait 600 seconds, then resend successfully: the page shows 10:00 and never counts down again, while the new code expires after 10 minutes | a successful resend restarts the countdown from 600 | medium, not executed | VerifyOtpPage.ResendAfterExpiryFreezes | VerifyOtpPage.ResendRestartsCountdown |
