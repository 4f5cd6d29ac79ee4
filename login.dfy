/**
 * `POST /api/auth/login`: checks a username and password against the user table and
 * issues a signed token whose claims follow RFC 7519 (`exp` as in section 4.1.4, one day
 * after issue). Password comparison and signing are parameters; `now` is the issue time
 * in seconds.
 */
module Login {
  import opened Wrappers
  import opened Records

  /** The JSON body, or a body `request.json()` could not read. */
  datatype LoginBody = Credentials(username: Option<string>, password: Option<string>) | Unreadable

  /** The claims `jwt.sign` puts in the token: the payload plus `iat` and `exp`. */
  datatype Claims = Claims(userId: string, username: string, role: string, iat: int, exp: int)

  /** The user summary of a successful answer; a stored `User` minus its password hash. */
  datatype UserSummary = UserSummary(id: string, username: string, email: string, role: string)

  /** The answer: status, `success`, `message`, and on success the token, its claims and the summary. */
  datatype LoginResponse = LoginResponse(
    status: int,
    success: bool,
    message: string,
    token: Option<string>,
    claims: Option<Claims>,
    user: Option<UserSummary>)

  /** `expiresIn: "24h"`, in seconds. */
  const TokenLifetime := 24 * 60 * 60

  const CredentialsRequired := LoginResponse(400, false, "Username et password requis", None, None, None)
  const BadCredentials := LoginResponse(401, false, "Identifiants incorrects", None, None, None)
  const ServerError := LoginResponse(500, false, "Erreur serveur", None, None, None)

  /** The summary of a stored user. */
  function Summary(u: User): (s: UserSummary)
    ensures s.id == u.id && s.username == u.username && s.email == u.email && s.role == u.role
  {
    UserSummary(u.id, u.username, u.email, u.role)
  }

  /**
   * The handler: missing credentials (400); an unknown username or a wrong password
   * (the same 401); otherwise a token signed over the user's id, name and role, valid
   * for one day from `now`.
   */
  function HandleLogin(body: LoginBody, users: seq<User>, passwordMatches: (string, string) -> bool,
                       sign: Claims -> string, now: int): (r: LoginResponse)
    requires UniqueUsers(users)
    ensures body.Unreadable? ==> r == ServerError
    ensures body.Credentials? && !(Present(body.username) && Present(body.password)) ==> r == CredentialsRequired
    ensures r.success <==>
      body.Credentials? && Present(body.username) && Present(body.password)
      && exists i :: 0 <= i < |users| && users[i].username == body.username.value
           && passwordMatches(body.password.value, users[i].password)
    ensures !r.success ==> r.token.None? && r.claims.None? && r.user.None?
    ensures r.success ==>
      && r.status == 200 && r.message == "Connexion réussie"
      && r.token.Some? && r.claims.Some? && r.user.Some?
      && r.token.value == sign(r.claims.value)
      && var u := FindUserByUsername(users, body.username.value).value;
         && r.claims.value == Claims(u.id, u.username, u.role, now, now + TokenLifetime)
         && r.user.value == Summary(u)
  {
    match body
    case Unreadable => ServerError
    case Credentials(username, password) =>
      if !Present(username) || !Present(password) then CredentialsRequired
      else match FindUserByUsername(users, username.value)
        case None => BadCredentials
        case Some(u) =>
          if !passwordMatches(password.value, u.password) then BadCredentials
          else
            var claims := Claims(u.id, u.username, u.role, now, now + TokenLifetime);
            LoginResponse(200, true, "Connexion réussie", Some(sign(claims)), Some(claims), Some(Summary(u)))
  }

  /** An unknown username and a wrong password get the very same answer. */
  lemma CredentialFailuresIndistinguishable(users: seq<User>, unknown: string, known: string, p1: string, p2: string,
                                            passwordMatches: (string, string) -> bool, sign: Claims -> string, now: int)
    requires unknown != "" && known != "" && p1 != "" && p2 != "" && UniqueUsers(users)
    requires forall i :: 0 <= i < |users| ==> users[i].username != unknown
    requires exists i :: 0 <= i < |users| && users[i].username == known && !passwordMatches(p2, users[i].password)
    ensures HandleLogin(Credentials(Some(unknown), Some(p1)), users, passwordMatches, sign, now)
         == HandleLogin(Credentials(Some(known), Some(p2)), users, passwordMatches, sign, now)
         == BadCredentials
  {
    var i :| 0 <= i < |users| && users[i].username == known && !passwordMatches(p2, users[i].password);
  }

  /** Every issued token expires one day after it was issued. */
  lemma TokenExpiresAfterOneDay(body: LoginBody, users: seq<User>, passwordMatches: (string, string) -> bool,
                                sign: Claims -> string, now: int)
    requires UniqueUsers(users) && HandleLogin(body, users, passwordMatches, sign, now).success
    ensures var c := HandleLogin(body, users, passwordMatches, sign, now).claims.value;
      c.iat == now && c.exp - c.iat == 86400
  {
  }
}
