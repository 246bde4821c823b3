/** The browser's session of `client/src/lib/auth.ts`: the `AuthService` state
    `{user, token, isAuthenticated}` and the `auth_token` entry of
    `localStorage`, and how the login, verification, background check and
    logout move them. The server's answers are parameters. */
module Auth {
  import opened Common

  /** The user fields the server sends back with a token. */
  datatype SessionUser = SessionUser(id: string, name: string, username: string, email: string)

  datatype AuthState = AuthState(user: Option<SessionUser>, token: Option<string>, isAuthenticated: bool)

  const SignedOut := AuthState(None, None, false)

  const TokenKey := "auth_token"

  /** The answer to `POST /api/auth/login`. */
  datatype LoginReply = LoginReply(ok: bool, message: Option<string>, token: string, user: SessionUser)

  /** The answer to `POST /api/auth/verify-email`; the token may be missing. */
  datatype VerifyReply = VerifyReply(ok: bool, message: Option<string>, token: Option<string>, user: Option<SessionUser>)

  /** What the background check of `/api/profile/me` ran into. */
  datatype ProfileCheck = ProfileOk(user: SessionUser) | ProfileFailed(status: int) | NetworkError

  /** `localStorage.getItem(key)`: null when the key is absent. */
  function Lookup(items: map<string, string>, key: string): (r: Option<string>)
    ensures r.Some? <==> key in items
    ensures r.Some? ==> r.value == items[key]
  {
    if key in items then Some(items[key]) else None
  }

  /** The page's `localStorage`. */
  class LocalStorage {
    var items: map<string, string>

    constructor(initial: map<string, string>)
      ensures items == initial
    {
      items := initial;
    }
  }

  class AuthService {
    var state: AuthState
    const storage: LocalStorage

    /** An authenticated session holds the token that is stored. */
    ghost predicate Valid()
      reads this, storage
    {
      state.isAuthenticated ==> state.token.Some? && Lookup(storage.items, TokenKey) == state.token
    }

    /** The field initializer reads the stored token; a non-empty one is taken
        as authenticated until the background check (`CheckAuthStatus`) says
        otherwise. */
    constructor(storage: LocalStorage)
      ensures this.storage == storage
      ensures state.user.None? && state.token == Lookup(storage.items, TokenKey)
      ensures state.isAuthenticated <==> state.token.Some? && state.token.value != ""
      ensures Valid()
    {
      this.storage := storage;
      var token := Lookup(storage.items, TokenKey);
      var initial := AuthState(None, token, false);
      if token.Some? && token.value != "" {
        initial := initial.(token := token, isAuthenticated := true);
      }
      state := initial;
    }

    /** `logout`: remove the stored token and forget the session. */
    method Logout()
      modifies this, storage
      ensures state == SignedOut
      ensures storage.items == old(storage.items) - {TokenKey}
      ensures Valid()
    {
      storage.items := storage.items - {TokenKey};
      state := SignedOut;
    }

    /** `login`: a refusal throws and changes nothing; a success stores the token
        and signs the user in. */
    method Login(reply: LoginReply) returns (error: Option<string>)
      modifies this, storage
      ensures !reply.ok ==>
        && error == Some(ErrorText(reply.message, "Login failed"))
        && state == old(state) && storage.items == old(storage.items)
      ensures reply.ok ==>
        && error.None?
        && storage.items == old(storage.items)[TokenKey := reply.token]
        && state == AuthState(Some(reply.user), Some(reply.token), true)
      ensures old(Valid()) ==> Valid()
    {
      if !reply.ok {
        return Some(ErrorText(reply.message, "Login failed"));
      }
      storage.items := storage.items[TokenKey := reply.token];
      state := AuthState(Some(reply.user), Some(reply.token), true);
      error := None;
    }

    /** `verifyEmail`: a refusal throws; a success signs in only when the
        answer carries a non-empty token. */
    method VerifyEmail(reply: VerifyReply) returns (error: Option<string>)
      modifies this, storage
      ensures !reply.ok ==>
        && error == Some(ErrorText(reply.message, "Verification failed"))
        && state == old(state) && storage.items == old(storage.items)
      ensures reply.ok && reply.token.Some? && reply.token.value != "" ==>
        && error.None?
        && storage.items == old(storage.items)[TokenKey := reply.token.value]
        && state == AuthState(reply.user, reply.token, true)
      ensures reply.ok && (reply.token.None? || reply.token.value == "") ==>
        error.None? && state == old(state) && storage.items == old(storage.items)
      ensures old(Valid()) ==> Valid()
    {
      if !reply.ok {
        return Some(ErrorText(reply.message, "Verification failed"));
      }
      if reply.token.Some? && reply.token.value != "" {
        storage.items := storage.items[TokenKey := reply.token.value];
        state := AuthState(reply.user, reply.token, true);
      }
      error := None;
    }

    /** `checkAuthStatus`, run with the stored token: a profile confirms the
        session, 401 and 403 log out, and anything else (another status, a
        network failure) leaves the session as it is. Without a stored token
        nothing is asked. */
    method CheckAuthStatus(check: ProfileCheck)
      modifies this, storage
      ensures
        var token := Lookup(old(storage.items), TokenKey);
        if token.None? || token.value == "" then
          state == old(state) && storage.items == old(storage.items)
        else if check.ProfileOk? then
          state == AuthState(Some(check.user), token, true) && storage.items == old(storage.items)
        else if check.ProfileFailed? && (check.status == 401 || check.status == 403) then
          state == SignedOut && storage.items == old(storage.items) - {TokenKey}
        else
          state == old(state) && storage.items == old(storage.items)
      ensures old(Valid()) ==> Valid()
    {
      var token := Lookup(storage.items, TokenKey);
      if token.None? || token.value == "" {
        return;
      }
      match check
      case ProfileOk(user) =>
        state := AuthState(Some(user), token, true);
      case ProfileFailed(status) =>
        if status == 401 || status == 403 {
          Logout();
        }
      case NetworkError =>
    }

    /** `getState`: the current state. */
    method GetState() returns (s: AuthState)
      ensures s == state
    {
      s := state;
    }

    /** `getToken`: the session's token when it is non-empty, else the stored one. */
    method GetToken() returns (t: Option<string>)
      ensures state.token.Some? && state.token.value != "" ==> t == state.token
      ensures state.token.None? || state.token.value == "" ==> t == Lookup(storage.items, TokenKey)
      ensures Valid() && state.isAuthenticated ==> t == Lookup(storage.items, TokenKey)
    {
      if state.token.Some? && state.token.value != "" {
        t := state.token;
      } else {
        t := Lookup(storage.items, TokenKey);
      }
    }
  }
}
