/**
 * The two Express middlewares that guard protected routes: `verifyToken`
 * (bearer-token extraction and classification of the verifier's outcome) and
 * `verifyAdmin` (role check against the stored user row). Each is a decision:
 * call `next()` once with `req.user` set, or answer with one error code.
 */
module AuthMiddleware {
  import opened Wrappers
  import opened Strings
  import opened Tables

  /** What `jwt.verify` does with a token: returns its claims or throws one of three kinds of error. */
  datatype VerifyOutcome =
    | Decoded(claims: Claims)
    | ExpiredError        // TokenExpiredError
    | JsonWebTokenError   // malformed token or bad signature
    | OtherError

  /** The machine-readable `code` of a middleware's error response. */
  datatype AuthCode =
    | TokenMissing        // TOKEN_MISSING
    | TokenInvalidFormat  // TOKEN_INVALID_FORMAT
    | TokenExpired        // TOKEN_EXPIRED
    | TokenInvalid        // TOKEN_INVALID
    | AuthError           // AUTH_ERROR
    | Unauthorized        // UNAUTHORIZED
    | AdminRequired       // ADMIN_REQUIRED

  function HttpStatus(c: AuthCode): nat {
    if c == AdminRequired then 403 else 401
  }

  /** `next()` is called once with `req.user = user`, or the response carries `code` and `next` is not called. */
  datatype Gate = Next(user: Claims) | Deny(code: AuthCode)

  /** `authHeader.split(' ')[1]`: the second space-separated segment, absent when there is no space. */
  function BearerSegment(header: string): (t: Option<string>)
    ensures t.Some? ==> ' ' !in t.value
    ensures t.None? <==> ' ' !in header
  {
    var parts := Split(header, ' ');
    CountZero(header, ' ');
    if |parts| > 1 then Some(parts[1]) else None
  }

  /** The response to a `jwt.verify` outcome: its claims, or one 401 code per kind of error. */
  function Classify(v: VerifyOutcome): (g: Gate)
    ensures g.Next? <==> v.Decoded?
    ensures g.Next? ==> g.user == v.claims
  {
    match v
    case Decoded(c) => Next(c)
    case ExpiredError => Deny(TokenExpired)
    case JsonWebTokenError => Deny(TokenInvalid)
    case OtherError => Deny(AuthError)
  }

  /** `verifyToken`: `authorization` is the request's Authorization header, `verify` stands for `jwt.verify` with the server secret. */
  function VerifyToken(authorization: Option<string>, verify: string -> VerifyOutcome): (g: Gate)
    ensures g == Deny(TokenMissing) <==> authorization.None? || !Truthy(authorization.value)
    ensures g == Deny(TokenInvalidFormat) <==>
      && authorization.Some? && Truthy(authorization.value)
      && (BearerSegment(authorization.value).None? || !Truthy(BearerSegment(authorization.value).value))
    ensures g.Next? ==>
      && authorization.Some?
      && BearerSegment(authorization.value).Some?
      && verify(BearerSegment(authorization.value).value) == Decoded(g.user)
    ensures g.Deny? ==> HttpStatus(g.code) == 401 && g.code !in {Unauthorized, AdminRequired}
  {
    if authorization.None? || !Truthy(authorization.value) then
      Deny(TokenMissing)
    else
      match BearerSegment(authorization.value)
      case None => Deny(TokenInvalidFormat)
      case Some(token) =>
        if !Truthy(token) then Deny(TokenInvalidFormat)
        else Classify(verify(token))
  }

  /** The first segment is never compared with `Bearer`: any space-free scheme word in front of a token is accepted. */
  lemma AnySchemeAccepted(scheme: string, token: string, verify: string -> VerifyOutcome)
    requires ' ' !in scheme && ' ' !in token && token != ""
    ensures VerifyToken(Some(scheme + " " + token), verify) == Classify(verify(token))
  {
    SplitJoin([scheme, token], ' ');
    assert Join([scheme, token], [' ']) == scheme + " " + token;
  }

  /** A token followed by more space-separated words still yields the second word only. */
  lemma TrailingWordsIgnored(scheme: string, token: string, rest: string, verify: string -> VerifyOutcome)
    requires ' ' !in scheme && ' ' !in token && token != ""
    ensures VerifyToken(Some(scheme + " " + token + " " + rest), verify) == Classify(verify(token))
  {
    var header := scheme + " " + token + " " + rest;
    var tail := token + ([' '] + rest);
    assert header == scheme + ([' '] + tail);
    SplitPrefix(token, [' '] + rest, ' ');
    assert ([' '] + rest)[1..] == rest;
    assert Split([' '] + rest, ' ') == [""] + Split(rest, ' ');
    assert Split(tail, ' ')[0] == token;
    SplitPrefix(scheme, [' '] + tail, ' ');
    assert ([' '] + tail)[1..] == tail;
    assert Split([' '] + tail, ' ') == [""] + Split(tail, ' ');
    assert Split(header, ' ')[1] == token;
  }

  /** A header with no space in it has no token segment. */
  lemma NoSpaceIsInvalidFormat(header: string, verify: string -> VerifyOutcome)
    requires header != "" && ' ' !in header
    ensures VerifyToken(Some(header), verify) == Deny(TokenInvalidFormat)
  {
  }

  /** The three kinds of verification failure get three different codes. */
  lemma FailuresDistinguished(a: VerifyOutcome, b: VerifyOutcome)
    requires !a.Decoded? && !b.Decoded? && a != b
    ensures Classify(a) != Classify(b)
  {
  }

  /**
   * `verifyAdmin`: `user` is `req.user` as an earlier middleware left it; the
   * role is read from the stored row with that id, never from the claims.
   */
  function VerifyAdmin(user: Option<Claims>, rows: seq<User>): (g: Gate)
    ensures g == Deny(Unauthorized) <==> user.None? || user.value.id == 0
    ensures g.Next? <==>
      && user.Some? && user.value.id != 0
      && exists i :: 0 <= i < |rows| && rows[i].id == user.value.id && rows[i].role == Administrator
           && forall j :: 0 <= j < i ==> rows[j].id != user.value.id
    ensures g.Next? ==> g.user == user.value
    ensures g.Deny? ==> g.code in {Unauthorized, AdminRequired} && HttpStatus(g.code) == (if g.code == Unauthorized then 401 else 403)
  {
    if user.None? || user.value.id == 0 then
      Deny(Unauthorized)
    else
      var stored := FindUser(rows, user.value.id);
      if stored.None? || stored.value.role != Administrator then Deny(AdminRequired)
      else Next(user.value)
  }

  /** Whatever role the token claims, the admin check gives the same answer. */
  lemma ClaimedRoleIgnored(c: Claims, claimed: Role, rows: seq<User>)
    ensures VerifyAdmin(Some(c), rows).Next? == VerifyAdmin(Some(c.(role := claimed)), rows).Next?
  {
  }
}
