/**
 * `SimpleAuth`: the admin token kept in `localStorage["adminToken"]` and mirrored in an
 * `adminToken` cookie for the middleware. Off the client every operation does nothing.
 */
module SimpleAuth {
  import opened Wrappers
  import opened Browser

  const TokenKey := "adminToken"
  /** `max-age=${7 * 24 * 60 * 60}`: seven days, in seconds. */
  const CookieMaxAge: nat := 7 * 24 * 60 * 60

  /** `getToken()`: the stored token; none off the client or when the key is absent. */
  function GetToken(b: Browser): (t: Option<string>)
    reads b
    ensures t.Some? <==> b.isClient && TokenKey in b.localStorage
    ensures t.Some? ==> t.value == b.localStorage[TokenKey]
  {
    if !b.isClient then None
    else if TokenKey in b.localStorage then Some(b.localStorage[TokenKey])
    else None
  }

  /** `isAuthenticated()`: `!!getToken()`, so an empty token does not count. */
  function IsAuthenticated(b: Browser): (r: bool)
    reads b
    ensures r <==> b.isClient && TokenKey in b.localStorage && b.localStorage[TokenKey] != ""
  {
    b.isClient && Present(GetToken(b))
  }

  /** `setToken(token)`: stores the token and writes the seven-day cookie. */
  method SetToken(b: Browser, token: string)
    modifies b
    ensures !b.isClient ==> b.localStorage == old(b.localStorage) && b.cookies == old(b.cookies)
    ensures b.isClient ==> b.localStorage == old(b.localStorage)[TokenKey := token]
    ensures b.isClient ==> b.cookies == old(b.cookies)[TokenKey := Cookie(token, "/", CookieMaxAge)]
    ensures b.isClient ==> GetToken(b) == Some(token)
  {
    if !b.isClient {
      return;
    }
    b.localStorage := b.localStorage[TokenKey := token];
    b.cookies := b.cookies[TokenKey := Cookie(token, "/", CookieMaxAge)];
  }

  /** `logout()`: removes the token and expires the cookie. */
  method Logout(b: Browser)
    modifies b
    ensures !b.isClient ==> b.localStorage == old(b.localStorage) && b.cookies == old(b.cookies)
    ensures b.isClient ==> b.localStorage == old(b.localStorage) - {TokenKey}
    ensures b.isClient ==> b.cookies == old(b.cookies) - {TokenKey}
    ensures GetToken(b) == None && !IsAuthenticated(b)
  {
    if !b.isClient {
      return;
    }
    b.localStorage := b.localStorage - {TokenKey};
    b.cookies := b.cookies - {TokenKey};
  }

  /** `getHeaders()`: always the JSON content type; `Authorization: Bearer <token>` only for a non-empty token. */
  function GetHeaders(b: Browser): (h: map<string, string>)
    reads b
    ensures "Content-Type" in h && h["Content-Type"] == "application/json"
    ensures "Authorization" in h <==> IsAuthenticated(b)
    ensures "Authorization" in h ==> h["Authorization"] == "Bearer " + b.localStorage[TokenKey]
    ensures h.Keys <= {"Content-Type", "Authorization"}
  {
    var base := map["Content-Type" := "application/json"];
    match GetToken(b)
    case Some(t) => if t != "" then base["Authorization" := "Bearer " + t] else base
    case None => base
  }
}
