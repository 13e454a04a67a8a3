/**
 * The session handling of inspection_front's shell
 * (inspection_front/src/App.jsx): the stored token restored on start when
 * its `exp` is still ahead, logout, and the user-management route that only
 * the user named `'test'` gets. Decoding the token is a parameter.
 */
module AppSession {
  import opened Wrappers
  import opened JsSemantics

  /** The claims `JSON.parse(atob(token.split('.')[1]))` reads. */
  datatype TokenClaims = TokenClaims(username: JsValue, userId: JsValue, exp: JsValue)

  /** `{ name, id }`, the shape of `currentUser`. */
  datatype AppUser = AppUser(name: JsValue, id: JsValue)

  /** `decodedUser.exp * 1000 > Date.now()`. */
  predicate Unexpired(exp: JsValue, nowMs: int) {
    ToNumber(exp).Some? && ToNumber(exp).value * 1000 > nowMs
  }

  /** What the start-up check makes of the stored token. */
  datatype Restore = SignedIn(user: AppUser) | Discarded | NoToken

  /**
   * The start-up effect: no (or an empty) token opens the login; a token that
   * decodes to claims whose `exp` is ahead signs the user in; an expired
   * token, or one that does not decode, is discarded.
   */
  function Restored(token: Option<string>, decode: string -> Option<TokenClaims>, nowMs: int): (r: Restore)
    ensures r.NoToken? <==> token.None? || token.value == ""
    ensures r.SignedIn? <==>
      token.Some? && token.value != "" && decode(token.value).Some? && Unexpired(decode(token.value).value.exp, nowMs)
    ensures r.SignedIn? ==>
      r.user == AppUser(decode(token.value).value.username, decode(token.value).value.userId)
  {
    if token.None? || token.value == "" then NoToken
    else match decode(token.value)
      case None => Discarded
      case Some(claims) => if Unexpired(claims.exp, nowMs) then SignedIn(AppUser(claims.username, claims.userId)) else Discarded
  }

  /** `currentUser && currentUser.name === 'test'`. */
  predicate AdminRoute(user: Option<AppUser>) {
    user.Some? && StrictEq(user.value.name, Str("test"))
  }

  /** A restored session gets the user-management route exactly when the token's username is `'test'`. */
  lemma RestoredAdmin(token: Option<string>, decode: string -> Option<TokenClaims>, nowMs: int)
    requires Restored(token, decode, nowMs).SignedIn?
    ensures AdminRoute(Some(Restored(token, decode, nowMs).user)) <==> decode(token.value).value.username == Str("test")
  {
  }

  /** A token whose `exp` second has been reached is never restored. */
  lemma ExpiredNotRestored(token: string, decode: string -> Option<TokenClaims>, nowMs: int, exp: int)
    requires token != "" && decode(token) == Some(TokenClaims(Str("test"), Num(1), Num(exp))) && exp * 1000 <= nowMs
    ensures Restored(Some(token), decode, nowMs) == Discarded
  {
  }

  /** The shell's session state and the stored token. */
  class Session {
    var storedToken: Option<string>
    var currentUser: Option<AppUser>
    var loginModalOpen: bool
    var isLoading: bool

    constructor(stored: Option<string>)
      ensures storedToken == stored && currentUser.None? && !loginModalOpen && isLoading
    {
      storedToken := stored;
      currentUser := None;
      loginModalOpen := false;
      isLoading := true;
    }

    /** The start-up effect, with the clock reading and the decoder passed in. */
    method RestoreOnStart(decode: string -> Option<TokenClaims>, nowMs: int)
      modifies this
      ensures !isLoading
      ensures Restored(old(storedToken), decode, nowMs).SignedIn? ==>
        currentUser == Some(Restored(old(storedToken), decode, nowMs).user)
        && storedToken == old(storedToken) && loginModalOpen == old(loginModalOpen)
      ensures Restored(old(storedToken), decode, nowMs).Discarded? ==>
        storedToken.None? && loginModalOpen && currentUser == old(currentUser)
      ensures Restored(old(storedToken), decode, nowMs).NoToken? ==>
        storedToken == old(storedToken) && loginModalOpen && currentUser == old(currentUser)
    {
      match Restored(storedToken, decode, nowMs) {
        case SignedIn(user) =>
          currentUser := Some(user);
        case Discarded =>
          storedToken := None;
          loginModalOpen := true;
        case NoToken =>
          loginModalOpen := true;
      }
      isLoading := false;
    }

    /** `handleLoginSuccess(userData)`. */
    method LoginSuccess(user: AppUser)
      modifies this
      ensures currentUser == Some(user) && !loginModalOpen
      ensures storedToken == old(storedToken) && isLoading == old(isLoading)
    {
      currentUser := Some(user);
      loginModalOpen := false;
    }

    /** `handleLogout()`: the token goes, the user goes, the login opens; no admin route is left. */
    method Logout()
      modifies this
      ensures storedToken.None? && currentUser.None? && loginModalOpen
      ensures !AdminRoute(currentUser)
      ensures isLoading == old(isLoading)
    {
      storedToken := None;
      currentUser := None;
      loginModalOpen := true;
    }
  }
}
