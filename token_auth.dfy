/**
 * The authentication decisions of the Flask back end
 * (backend/app/api/auth.py): the login decision and the claims it signs, and
 * the `token_required` guard that reads a bearer token from the
 * `Authorization` header (loosely section 2.1 of RFC 6750: the scheme word is
 * never checked) and classifies what the JWT library makes of it. Password
 * verification and JWT signing and decoding are parameters.
 */
module TokenAuth {
  import opened Wrappers
  import Text
  import opened JsSemantics
  import opened PyJson
  import LoadingBus
  import AppSession

  /** `g.current_user`, and the `user` object of the login response. */
  datatype CurrentUser = CurrentUser(userId: JsValue, username: JsValue)

  /** The claims `login` signs; `exp` is in whole seconds since the epoch. */
  datatype Payload = Payload(userId: JsValue, username: JsValue, exp: int)

  /** `datetime.timedelta(hours=24)`, in seconds. */
  const TokenLifetime: int := 24 * 60 * 60

  // ---------------------------------------------------------------- login

  const CredentialsRequired: string := "Username and password are required"
  const InvalidCredentials: string := "Invalid credentials"
  const LoginSuccessful: string := "Login successful"

  /** The row `SELECT id, password_hash FROM Users WHERE username = ?` fetches. */
  datatype Account = Account(id: int, passwordHash: string)

  /** What `login` decides: a 400, a 401, or a token for these claims. */
  datatype LoginDecision = MissingCredentials | BadCredentials | Issue(payload: Payload, user: CurrentUser)

  /**
   * `login`: a falsy username or password is refused before the lookup; the
   * token is issued only for an existing account whose hash verifies, and
   * carries the account id, the submitted username and an expiry 24 hours
   * after `utcnow()` (truncated to the second); the response's `user` names
   * the same id and username.
   */
  function Decide(username: JsValue, password: JsValue, account: Option<Account>,
                  verify: (JsValue, string) -> bool, nowMs: int): (r: LoginDecision)
    ensures r.MissingCredentials? <==> PyFalsy(username) || PyFalsy(password)
    ensures r.Issue? <==>
      !PyFalsy(username) && !PyFalsy(password) && account.Some? && verify(password, account.value.passwordHash)
    ensures r.Issue? ==>
      r.user == CurrentUser(Num(account.value.id), username)
      && r.payload.userId == r.user.userId && r.payload.username == r.user.username
      && nowMs < r.payload.exp * 1000 - (TokenLifetime - 1) * 1000 <= nowMs + 1000
  {
    if PyFalsy(username) || PyFalsy(password) then MissingCredentials
    else if account.Some? && verify(password, account.value.passwordHash) then
      Issue(Payload(Num(account.value.id), username, nowMs / 1000 + TokenLifetime),
            CurrentUser(Num(account.value.id), username))
    else BadCredentials
  }

  /**
   * The front end's start-up check (`exp * 1000 > Date.now()`) keeps a token
   * issued at `issuedMs` exactly until 24 hours after the issuing second.
   */
  lemma IssuedTokenLifetime(issuedMs: int, clientMs: int)
    ensures AppSession.Unexpired(Num(issuedMs / 1000 + TokenLifetime), clientMs) <==>
      clientMs < issuedMs - issuedMs % 1000 + TokenLifetime * 1000
  {
  }

  /**
   * The same check agrees with the rule of section 4.1.4 of RFC 7519 read at
   * whole seconds, as JWT libraries apply it: the token is expired once the
   * current second reaches `exp`.
   */
  lemma {:induction false} ClientAndServerExpiryAgree(exp: int, nowMs: int)
    ensures AppSession.Unexpired(Num(exp), nowMs) <==> !(exp <= nowMs / 1000)
  {
    var s := nowMs / 1000;
    assert nowMs == s * 1000 + nowMs % 1000;
    if exp > s {
      assert exp * 1000 >= (s + 1) * 1000;
    } else {
      assert exp * 1000 <= s * 1000;
    }
  }

  // ---------------------------------------------------------------- token_required

  const TokenMalformed: string := "Token is missing or malformed!"
  const TokenMissing: string := "Token is missing!"
  const TokenExpired: string := "Token has expired!"
  const TokenInvalid: string := "Token is invalid!"

  /** What `jwt.decode` does with a token: its claims, or one of the two errors the guard catches. */
  datatype Decoded = Claims(claims: map<string, JsValue>) | ExpiredSignature | InvalidToken

  /** The header read: absent, too few parts, or the second part of `split(" ")`. */
  datatype Extracted = NoHeader | Malformed | Presented(token: string)

  /** `request.headers['Authorization'].split(" ")[1]`, with the `IndexError` caught. */
  function ExtractToken(header: Option<string>): (e: Extracted)
    ensures e.NoHeader? <==> header.None?
    ensures e.Malformed? <==> header.Some? && ' ' !in header.value
    ensures e.Presented? ==> ' ' !in e.token
  {
    match header
    case None => NoHeader
    case Some(h) =>
      var parts := Text.Split(h, ' ');
      if |parts| < 2 then Malformed
      else Presented(parts[1])
  }

  /** The token is the text after the first space, whatever the scheme word before it. */
  lemma PresentedToken(scheme: string, token: string)
    requires ' ' !in scheme && ' ' !in token
    ensures ExtractToken(Some(scheme + " " + token)) == Presented(token)
  {
    Text.SplitCons(scheme, ' ', token);
    assert Text.Split(token, ' ') == [token];
    assert scheme + " " + token == scheme + [' '] + token;
  }

  /** Whatever follows a second space is ignored. */
  lemma PresentedTokenWithRest(scheme: string, token: string, rest: string)
    requires ' ' !in scheme && ' ' !in token
    ensures ExtractToken(Some(scheme + " " + token + " " + rest)) == Presented(token)
  {
    var tail := token + [' '] + rest;
    var h := scheme + " " + token + " " + rest;
    assert h == scheme + [' '] + tail;
    Text.SplitCons(token, ' ', rest);
    Text.SplitCons(scheme, ' ', tail);
    assert Text.Split(h, ' ') == [scheme] + ([token] + Text.Split(rest, ' '));
  }

  /** What the guard lets through: the handler runs for this user, or the request is answered. */
  datatype Guard = Allowed(user: CurrentUser) | Unauthorized(message: string) | ServerError

  /**
   * `token_required`: a header without a second part is "missing or
   * malformed"; no header, or an empty second part, is "missing"; an expired
   * or otherwise undecodable token is refused with its own message; a decoded
   * token runs the handler with exactly `user_id` and `username` from its
   * claims, and a token without those claims raises a `KeyError` the guard
   * does not catch, which Flask answers with 500.
   */
  function TokenRequired(header: Option<string>, decode: string -> Decoded): (g: Guard)
    ensures g == Unauthorized(TokenMalformed) <==> ExtractToken(header).Malformed?
    ensures g == Unauthorized(TokenMissing) <==>
      ExtractToken(header).NoHeader? || ExtractToken(header) == Presented("")
    ensures g.Allowed? <==>
      ExtractToken(header).Presented? && ExtractToken(header).token != ""
      && decode(ExtractToken(header).token).Claims?
      && "user_id" in decode(ExtractToken(header).token).claims
      && "username" in decode(ExtractToken(header).token).claims
    ensures g.Allowed? ==>
      var claims := decode(ExtractToken(header).token).claims;
      g.user == CurrentUser(claims["user_id"], claims["username"])
    ensures g == Unauthorized(TokenExpired) <==>
      ExtractToken(header).Presented? && ExtractToken(header).token != ""
      && decode(ExtractToken(header).token) == ExpiredSignature
    ensures g == Unauthorized(TokenInvalid) <==>
      ExtractToken(header).Presented? && ExtractToken(header).token != ""
      && decode(ExtractToken(header).token) == InvalidToken
  {
    match ExtractToken(header)
    case Malformed => Unauthorized(TokenMalformed)
    case NoHeader => Unauthorized(TokenMissing)
    case Presented(token) =>
      if token == "" then Unauthorized(TokenMissing)
      else
        match decode(token)
        case ExpiredSignature => Unauthorized(TokenExpired)
        case InvalidToken => Unauthorized(TokenInvalid)
        case Claims(claims) =>
          if "user_id" in claims && "username" in claims then
            Allowed(CurrentUser(claims["user_id"], claims["username"]))
          else ServerError
  }

  /** The scheme word is not checked: any word without a space works as well as `Bearer`. */
  lemma SchemeIgnored(scheme: string, token: string, decode: string -> Decoded)
    requires ' ' !in scheme && ' ' !in token
    ensures TokenRequired(Some(scheme + " " + token), decode) == TokenRequired(Some("Bearer " + token), decode)
  {
    PresentedToken(scheme, token);
    PresentedToken("Bearer", token);
  }

  /**
   * The header the front end's request interceptor sends for a stored token
   * hands the guard that very token, provided the token holds no space (a
   * signed JWT never does).
   */
  lemma InterceptorHeaderAccepted(token: string)
    requires token != "" && ' ' !in token
    ensures ExtractToken(LoadingBus.AuthorizationHeader(Some(token))) == Presented(token)
  {
    PresentedToken("Bearer", token);
  }
}
