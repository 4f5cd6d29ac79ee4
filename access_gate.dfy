/**
 * The request gate (`middleware`): admin pages and the writing methods of the
 * reservation API need a token that verifies. The token is read from the `adminToken`
 * cookie, else from the `Authorization` header (a bearer token in the manner of
 * section 2.1 of RFC 6750). Token verification is a parameter.
 */
module AccessGate {
  import opened Wrappers
  import opened Strings

  /** What the gate sees of a request. */
  datatype Request = Request(path: string, httpMethod: string, cookie: Option<string>, authorization: Option<string>)

  /** What the gate answers. */
  datatype GateOutcome = RedirectToLogin | Unauthorized(message: string) | Proceed

  const AuthRequired := "Authentification requise"
  const InvalidToken := "Token invalide"

  /** `config.matcher`: `/admin/:path*` and `/api/reservations/:path*`; other paths never reach the gate. */
  predicate MatcherApplies(path: string)
  {
    path == "/admin" || "/admin/" <= path || path == "/api/reservations" || "/api/reservations/" <= path
  }

  /** `isAdminPage`: under "/admin" but not under "/admin/login". */
  predicate IsAdminPage(path: string)
  {
    "/admin" <= path && !("/admin/login" <= path)
  }

  /** `isProtectedAPI`: under "/api/reservations" with POST, PUT or DELETE. */
  predicate IsProtectedApi(path: string, httpMethod: string)
  {
    "/api/reservations" <= path && httpMethod in ["POST", "PUT", "DELETE"]
  }

  /** `cookieToken || headerToken`: a non-empty cookie, else the header with its first "Bearer " removed. */
  function SelectToken(cookie: Option<string>, authorization: Option<string>): (t: Option<string>)
    ensures Present(cookie) ==> t == cookie
    ensures !Present(cookie) && authorization.None? ==> t.None?
    ensures !Present(cookie) && authorization.Some? ==> t == Some(ReplaceFirst(authorization.value, "Bearer ", ""))
  {
    if Present(cookie) then cookie
    else if authorization.Some? then Some(ReplaceFirst(authorization.value, "Bearer ", ""))
    else None
  }

  /**
   * The decision, for a given reading of which API calls are protected: an ungated
   * request proceeds; a gated one without a token, or with one that does not verify, is
   * redirected (admin page) or refused with 401 (API).
   */
  function Decide(req: Request, protectedApi: bool, verify: string -> bool): (r: GateOutcome)
    ensures var gated := MatcherApplies(req.path) && (IsAdminPage(req.path) || protectedApi);
      var token := SelectToken(req.cookie, req.authorization);
      && (r == Proceed <==> !gated || (Present(token) && verify(token.value)))
      && (r == RedirectToLogin <==> gated && IsAdminPage(req.path) && !(Present(token) && verify(token.value)))
      && (r == Unauthorized(AuthRequired) <==> gated && !IsAdminPage(req.path) && !Present(token))
      && (r == Unauthorized(InvalidToken) <==> gated && !IsAdminPage(req.path) && Present(token) && !verify(token.value))
  {
    var isAdminPage := IsAdminPage(req.path);
    if !MatcherApplies(req.path) || !(isAdminPage || protectedApi) then Proceed
    else
      var token := SelectToken(req.cookie, req.authorization);
      if !Present(token) then
        if isAdminPage then RedirectToLogin else Unauthorized(AuthRequired)
      else if verify(token.value) then Proceed
      else if isAdminPage then RedirectToLogin
      else Unauthorized(InvalidToken)
  }

  /** `middleware(request)` as written. */
  function Middleware(req: Request, verify: string -> bool): (r: GateOutcome)
  {
    Decide(req, IsProtectedApi(req.path, req.httpMethod), verify)
  }

  /** The path of the public booking-request endpoint, which takes no token. */
  predicate IsPublicBookingRequest(path: string)
  {
    "/api/reservations/request" <= path
  }

  /** The gate with the public booking-request endpoint left open, as the booking page needs. */
  function IntendedMiddleware(req: Request, verify: string -> bool): (r: GateOutcome)
  {
    Decide(req, IsProtectedApi(req.path, req.httpMethod) && !IsPublicBookingRequest(req.path), verify)
  }

  /** Two strings that differ at a position both have are neither equal nor prefix of one another. */
  lemma DiffersAt(p: string, s: string, k: nat)
    requires k < |p| && k < |s| && p[k] != s[k]
    ensures !(p <= s) && p != s
  {
  }

  /** No path is both an admin page and a reservation API path, so at most one gate applies. */
  lemma GatesDisjoint(path: string, httpMethod: string)
    ensures !(IsAdminPage(path) && IsProtectedApi(path, httpMethod))
  {
    assert "/admin" <= path ==> path[2] == 'd';
    assert "/api/reservations" <= path ==> path[2] == 'p';
  }

  /** Reading the reservations is never gated, whatever the path under the API. */
  lemma GetNeverGated(path: string, cookie: Option<string>, authorization: Option<string>, verify: string -> bool)
    requires "/api/reservations" <= path
    ensures Middleware(Request(path, "GET", cookie, authorization), verify) == Proceed
  {
    assert path[2] == 'p';
    DiffersAt("GET", "PUT", 0);
  }

  /** A header "Bearer <t>" with no cookie gives the token t. */
  lemma BearerHeaderGivesToken(t: string)
    ensures SelectToken(None, Some("Bearer " + t)) == Some(t)
  {
    assert "Bearer " <= "Bearer " + t;
    assert ("Bearer " + t)[7..] == t;
    assert "" + t == t;
  }

  /** Only the first "Bearer " is removed, wherever it stands in the header. */
  lemma FirstBearerRemoved(header: string, i: nat)
    requires FirstOccurrence(header, "Bearer ", i)
    ensures SelectToken(None, Some(header)) == Some(header[..i] + header[i + 7..])
  {
    ReplaceFirstAt(header, "Bearer ", "", i);
    assert header[..i] + "" == header[..i];
  }

  /** A non-empty cookie wins over any header. */
  lemma CookieFirst(cookie: string, authorization: Option<string>)
    requires cookie != ""
    ensures SelectToken(Some(cookie), authorization) == Some(cookie)
  {
  }

  /** As written, an anonymous visitor posting the booking form is refused with 401. */
  lemma AnonymousBookingRequestRefused(verify: string -> bool)
    ensures Middleware(Request("/api/reservations/request", "POST", None, None), verify) == Unauthorized(AuthRequired)
  {
    assert "/api/reservations/request"[..18] == "/api/reservations/";
    DiffersAt("/admin", "/api/reservations/request", 2);
  }

  /** With the endpoint left open, the anonymous booking request reaches its handler. */
  lemma AnonymousBookingRequestPasses(verify: string -> bool)
    ensures IntendedMiddleware(Request("/api/reservations/request", "POST", None, None), verify) == Proceed
  {
    DiffersAt("/admin", "/api/reservations/request", 2);
  }

  /** Leaving the endpoint open changes the answer for no other request. */
  lemma IntendedAgreesElsewhere(req: Request, verify: string -> bool)
    requires !IsPublicBookingRequest(req.path)
    ensures IntendedMiddleware(req, verify) == Middleware(req, verify)
  {
  }

  /** `/api/admin/delete-user` and `/api/setup` lie outside the matcher: no token is asked for. */
  lemma AdminRoutesOutsideTheGate(httpMethod: string, cookie: Option<string>, authorization: Option<string>, verify: string -> bool)
    ensures Middleware(Request("/api/admin/delete-user", httpMethod, cookie, authorization), verify) == Proceed
    ensures Middleware(Request("/api/setup", httpMethod, cookie, authorization), verify) == Proceed
  {
    DiffersAt("/admin", "/api/admin/delete-user", 2);
    DiffersAt("/api/reservations", "/api/admin/delete-user", 5);
    DiffersAt("/admin", "/api/setup", 2);
    DiffersAt("/api/reservations", "/api/setup", 5);
  }
}
