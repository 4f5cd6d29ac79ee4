/**
 * `AuthService`: the admin token and the signed-in user's summary, kept under the
 * `localStorage` keys "adminToken" and "adminUser". Off the client the getters
 * answer nothing and the setters do nothing.
 */
module AuthService {
  import opened Wrappers
  import opened Browser
  import SimpleAuth

  const TokenKey := "adminToken"
  const UserKey := "adminUser"

  /** The user summary the login route returns. */
  datatype AuthUser = AuthUser(id: string, username: string, email: string, role: string)

  /** `JSON.stringify(user)` for a summary whose fields need no escaping. */
  function UserJson(u: AuthUser): (s: string)
    ensures s != "" && s[0] == '{'
  {
    "{\"id\":\"" + u.id + "\",\"username\":\"" + u.username + "\",\"email\":\"" + u.email
      + "\",\"role\":\"" + u.role + "\"}"
  }

  /** `getToken()`. */
  function GetToken(b: Browser): (t: Option<string>)
    reads b
    ensures t.Some? <==> b.isClient && TokenKey in b.localStorage
    ensures t.Some? ==> t.value == b.localStorage[TokenKey]
  {
    if b.isClient && TokenKey in b.localStorage then Some(b.localStorage[TokenKey]) else None
  }

  /** `getUser()`: the stored user text, none when absent or empty (the `JSON.parse` is not modelled). */
  function GetUserText(b: Browser): (t: Option<string>)
    reads b
    ensures t.Some? <==> b.isClient && UserKey in b.localStorage && b.localStorage[UserKey] != ""
    ensures t.Some? ==> t.value == b.localStorage[UserKey]
  {
    if b.isClient && UserKey in b.localStorage && b.localStorage[UserKey] != "" then Some(b.localStorage[UserKey])
    else None
  }

  /** `setAuth(token, user)`: stores both keys. */
  method SetAuth(b: Browser, token: string, user: AuthUser)
    modifies b
    ensures b.cookies == old(b.cookies)
    ensures !b.isClient ==> b.localStorage == old(b.localStorage)
    ensures b.isClient ==> b.localStorage == old(b.localStorage)[TokenKey := token][UserKey := UserJson(user)]
    ensures b.isClient ==> GetToken(b) == Some(token) && GetUserText(b) == Some(UserJson(user))
  {
    if !b.isClient {
      return;
    }
    b.localStorage := b.localStorage[TokenKey := token];
    b.localStorage := b.localStorage[UserKey := UserJson(user)];
  }

  /** `clearAuth()`: removes both keys. */
  method ClearAuth(b: Browser)
    modifies b
    ensures b.cookies == old(b.cookies)
    ensures !b.isClient ==> b.localStorage == old(b.localStorage)
    ensures b.isClient ==> b.localStorage == old(b.localStorage) - {TokenKey, UserKey}
    ensures GetToken(b) == None && GetUserText(b) == None && !IsAuthenticated(b)
  {
    if !b.isClient {
      return;
    }
    b.localStorage := b.localStorage - {TokenKey};
    b.localStorage := b.localStorage - {UserKey};
  }

  /** `isAuthenticated()`: `getToken() !== null`, so a stored empty token counts. */
  function IsAuthenticated(b: Browser): (r: bool)
    reads b
    ensures r <==> b.isClient && TokenKey in b.localStorage
  {
    GetToken(b) != None
  }

  /** `getAuthHeaders()`: `Authorization: Bearer <token>` for a non-empty token, no header otherwise. */
  function GetAuthHeaders(b: Browser): (h: map<string, string>)
    reads b
    ensures "Authorization" in h <==> Present(GetToken(b))
    ensures "Authorization" in h ==> h["Authorization"] == "Bearer " + b.localStorage[TokenKey]
    ensures h.Keys <= {"Authorization"}
  {
    match GetToken(b)
    case Some(t) => if t != "" then map["Authorization" := "Bearer " + t] else map[]
    case None => map[]
  }

  /**
   * The two token helpers read the same key and disagree on one case only: a stored
   * empty token counts as signed in here and not for `SimpleAuth`.
   */
  lemma EmptyTokenSplitsTheHelpers(b: Browser)
    ensures IsAuthenticated(b) != SimpleAuth.IsAuthenticated(b) <==>
      b.isClient && TokenKey in b.localStorage && b.localStorage[TokenKey] == ""
  {
  }

  /** Both helpers send the same `Authorization` header, or both send none. */
  lemma SameAuthorizationHeader(b: Browser)
    ensures var h, h' := GetAuthHeaders(b), SimpleAuth.GetHeaders(b);
      ("Authorization" in h <==> "Authorization" in h')
      && ("Authorization" in h ==> h["Authorization"] == h'["Authorization"])
  {
  }
}
