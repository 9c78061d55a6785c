/**
 * The three route guards of `auth.js`. The token is the second
 * space-separated field of the `Authorization` header (nominally the
 * Bearer scheme of section 2.1 of RFC 6750; the scheme word itself is never
 * checked). JWT verification is an opaque oracle: `verify(token)` is the
 * decoded payload, or `None` when `jwt.verify` throws.
 */
module Auth {
  import opened Wrappers
  import opened Strings

  /** The decoded payload of a token; the controllers pass only the account id to `generateToken`. */
  datatype Claims = Claims(id: string, role: Option<string>)

  const AdminRole: string := "admin"

  /**
   * `req.headers.authorization?.split(' ')[1]`, kept only when truthy: an
   * absent header, a header without a space, or an empty second field
   * yields no token.
   */
  function ExtractToken(header: Option<string>): (t: Option<string>)
    ensures t.Some? ==> header.Some? && t.value != "" && ' ' !in t.value
    ensures header.Some? && ' ' !in header.value ==> t.None?
  {
    match header
    case None => None
    case Some(h) =>
      if ' ' !in h then
        SplitWithoutSep(h, ' ');
        None
      else
        var parts := Split(h, ' ');
        if |parts| >= 2 && parts[1] != "" then Some(parts[1]) else None
  }

  /** `Scheme token` and `Scheme token more...` both yield `token`, whatever the scheme word is. */
  lemma BearerToken(scheme: string, token: string, rest: string)
    requires ' ' !in scheme && ' ' !in token && token != ""
    requires rest == "" || rest[0] == ' '
    ensures ExtractToken(Some(scheme + " " + token + rest)) == Some(token)
  {
    var h := scheme + " " + token + rest;
    assert h == scheme + ([' '] + (token + rest));
    SplitPrefix(scheme, [' '] + (token + rest), ' ');
    assert ([' '] + (token + rest))[1..] == token + rest;
    var tail := Split(token + rest, ' ');
    assert Split([' '] + (token + rest), ' ') == [""] + tail;
    SplitPrefix(token, rest, ' ');
    if rest == "" {
      assert token + rest == token;
      assert Split(rest, ' ') == [""];
    } else {
      assert Split(rest, ' ')[0] == "";
    }
    assert tail[0] == token;
    assert Split(h, ' ')[1] == token;
  }

  /**
   * Conversely, whenever a token is extracted, the header is a space-free
   * word, one space, the token, and then nothing or a further space.
   */
  lemma TokenIsSecondField(header: string) returns (scheme: string, rest: string)
    requires ExtractToken(Some(header)).Some?
    ensures ' ' !in scheme && (rest == "" || rest[0] == ' ')
    ensures header == scheme + " " + ExtractToken(Some(header)).value + rest
  {
    var parts := Split(header, ' ');
    var t := parts[1];
    JoinSplit(header, ' ');
    var tail := parts[1..];
    assert tail[0] == t;
    rest := if |parts| == 2 then "" else [' '] + Join(parts[2..], ' ');
    assert Join(tail, ' ') == t + rest by {
      if |parts| > 2 {
        assert tail[1..] == parts[2..];
      }
    }
    assert header == parts[0] + [' '] + (t + rest);
    assert parts[0] + " " + t + rest == parts[0] + [' '] + (t + rest);
    assert ExtractToken(Some(header)).value == t;
    scheme := parts[0];
  }

  /** Why a guard refused the request. */
  datatype Rejection =
    | NoToken       // 401 "No token provided. Authorization denied."
    | InvalidToken  // 401 "Invalid token. Authorization denied."
    | AdminOnly     // 403 "Access denied. Admin only."

  /** The request property a guard sets before calling `next`. */
  datatype Slot = AdminId | RecruiterId | UserId

  /** A guard either calls `next` having set `req[slot]` to the principal id, or replies and stops. */
  datatype GateResult = Next(slot: Slot, principal: string) | Reject(reason: Rejection) {
    function Status(): int {
      match this
      case Next(_, _) => 200
      case Reject(AdminOnly) => 403
      case Reject(_) => 401
    }
  }

  /** The part shared by all three guards: extract, then verify. */
  function Authenticate(header: Option<string>, verify: string -> Option<Claims>): Result<Claims, Rejection> {
    match ExtractToken(header)
    case None => Err(NoToken)
    case Some(token) =>
      match verify(token)
      case None => Err(InvalidToken)
      case Some(claims) => Ok(claims)
  }

  /** `verifyAdmin`: a verifiable token whose role is not "admin" is refused with 403. */
  function VerifyAdmin(header: Option<string>, verify: string -> Option<Claims>): (g: GateResult)
    ensures ExtractToken(header).None? ==> g == Reject(NoToken)
    ensures ExtractToken(header).Some? && verify(ExtractToken(header).value).None? ==> g == Reject(InvalidToken)
    ensures g.Next? <==>
      ExtractToken(header).Some? && verify(ExtractToken(header).value).Some?
      && verify(ExtractToken(header).value).value.role == Some(AdminRole)
    ensures g.Next? ==> g.slot == AdminId && g.principal == verify(ExtractToken(header).value).value.id
    ensures g == Reject(AdminOnly) <==>
      ExtractToken(header).Some? && verify(ExtractToken(header).value).Some?
      && verify(ExtractToken(header).value).value.role != Some(AdminRole)
  {
    match Authenticate(header, verify)
    case Err(why) => Reject(why)
    case Ok(claims) => if claims.role != Some(AdminRole) then Reject(AdminOnly) else Next(AdminId, claims.id)
  }

  /** `verifyRecruiter`: any verifiable token is accepted, whatever its role. */
  function VerifyRecruiter(header: Option<string>, verify: string -> Option<Claims>): (g: GateResult)
    ensures ExtractToken(header).None? ==> g == Reject(NoToken)
    ensures ExtractToken(header).Some? && verify(ExtractToken(header).value).None? ==> g == Reject(InvalidToken)
    ensures g.Next? <==> ExtractToken(header).Some? && verify(ExtractToken(header).value).Some?
    ensures g.Next? ==> g.slot == RecruiterId && g.principal == verify(ExtractToken(header).value).value.id
    ensures g != Reject(AdminOnly)
  {
    match Authenticate(header, verify)
    case Err(why) => Reject(why)
    case Ok(claims) => Next(RecruiterId, claims.id)
  }

  /** `verifyUser`: any verifiable token is accepted, whatever its role. */
  function VerifyUser(header: Option<string>, verify: string -> Option<Claims>): (g: GateResult)
    ensures ExtractToken(header).None? ==> g == Reject(NoToken)
    ensures ExtractToken(header).Some? && verify(ExtractToken(header).value).None? ==> g == Reject(InvalidToken)
    ensures g.Next? <==> ExtractToken(header).Some? && verify(ExtractToken(header).value).Some?
    ensures g.Next? ==> g.slot == UserId && g.principal == verify(ExtractToken(header).value).value.id
    ensures g != Reject(AdminOnly)
  {
    match Authenticate(header, verify)
    case Err(why) => Reject(why)
    case Ok(claims) => Next(UserId, claims.id)
  }

  /**
   * The recruiter and user guards make the same decision on every request,
   * and whatever the admin guard admits they admit with the same id: a
   * token minted for one role opens the routes of the other.
   */
  lemma GatesCompared(header: Option<string>, verify: string -> Option<Claims>)
    ensures VerifyRecruiter(header, verify).Next? <==> VerifyUser(header, verify).Next?
    ensures VerifyRecruiter(header, verify).Next? ==>
      VerifyRecruiter(header, verify).principal == VerifyUser(header, verify).principal
    ensures VerifyRecruiter(header, verify).Reject? ==> VerifyRecruiter(header, verify) == VerifyUser(header, verify)
    ensures VerifyAdmin(header, verify).Next? ==>
      VerifyRecruiter(header, verify) == Next(RecruiterId, VerifyAdmin(header, verify).principal)
    ensures VerifyAdmin(header, verify).Reject? && VerifyRecruiter(header, verify).Reject? ==>
      VerifyAdmin(header, verify) == VerifyRecruiter(header, verify)
  {
  }
}
