/** The account handlers (server/controllers/authController.js): register,
    log in, and report the authenticated user. Token signing and password
    hashing are passed in as functions; the token is represented by the
    claims it is signed over. */
module AuthController {
  import opened Common
  import opened ErrorHandler
  import opened UserModel
  import opened Store

  /** What `jwt.sign({ id }, secret, { expiresIn: "30d" })` signs. */
  datatype TokenClaims = TokenClaims(id: nat, expiresInSeconds: nat)

  const TokenLifetimeSeconds: nat := 30 * 24 * 60 * 60
  const RegisterCookieMaxAgeMs: nat := 30 * 24 * 60 * 60 * 1000
  const LoginCookieMaxAgeMs: nat := 7 * 24 * 60 * 60 * 1000

  /** generateToken: every token is bound to one user id and lasts 30 days. */
  function GenerateToken(id: nat): (t: TokenClaims)
    ensures t.id == id && t.expiresInSeconds == 2592000
  {
    TokenClaims(id, TokenLifetimeSeconds)
  }

  /** The `token` cookie both handlers set. */
  datatype Cookie = Cookie(name: string, token: TokenClaims, httpOnly: bool, secure: bool, sameSite: string,
                           maxAgeMs: nat)

  /** The session cookie: HTTP-only, same-site strict, and secure exactly in
      production. */
  function SessionCookie(token: TokenClaims, production: bool, maxAgeMs: nat): (c: Cookie)
    ensures c.name == "token" && c.token == token && c.httpOnly && c.sameSite == "strict"
    ensures c.secure <==> production
    ensures c.maxAgeMs == maxAgeMs
  {
    Cookie("token", token, true, production, "strict", maxAgeMs)
  }

  /** A handler's reply together with the cookie it set, if any. */
  datatype Reply<T> = Reply(outcome: Outcome<T>, cookie: Option<Cookie>)

  const UserExistsMessage: string := "User already exists"
  const InvalidCredentialsMessage: string := "Invalid credentials"
  const LoginSuccessMessage: string := "Login successful"
  const NotAuthenticatedMessage: string := "Not authenticated"

  /** registerUser: 400 "User already exists" and nothing stored when the
      email is taken; otherwise exactly one user is stored, with the hashed
      password, and the reply is 201 with only its id, name and email plus a
      30-day session cookie for a token that also lasts 30 days. */
  method RegisterUser(db: Db, name: string, email: string, password: string, production: bool,
                      hash: string -> string) returns (r: Reply<SafeUser>)
    requires db.Valid()
    modifies db
    ensures db.Valid()
    ensures db.members == old(db.members) && db.thrifts == old(db.thrifts)
    ensures db.contributions == old(db.contributions) && db.activities == old(db.activities)
    ensures FindByEmail(old(db.users), email).Some? ==>
              r == Reply(Err(400, UserExistsMessage), None) && unchanged(db)
    ensures FindByEmail(old(db.users), email).None? ==>
              var u := User(old(db.nextId), name, email, hash(password));
              && db.users == old(db.users) + [u]
              && r.outcome == Ok(201, SafeUser(u.id, name, email))
              && r.cookie == Some(SessionCookie(GenerateToken(u.id), production, RegisterCookieMaxAgeMs))
              && r.cookie.value.maxAgeMs == r.cookie.value.token.expiresInSeconds * 1000
  {
    if FindByEmail(db.users, email).Some? {
      return Reply(Err(400, UserExistsMessage), None);
    }
    var u := User(db.nextId, name, email, hash(password));
    db.InsertUser(u);
    var token := GenerateToken(u.id);
    r := Reply(Ok(201, WithoutPassword(u)), Some(SessionCookie(token, production, RegisterCookieMaxAgeMs)));
  }

  /** loginUser: a cookie and `{ message: "Login successful" }` (no user
      data) exactly when a user with this email exists and the password
      matches its stored hash; otherwise 401 "Invalid credentials" and no
      cookie. The cookie lasts 7 days although the token in it lasts 30. */
  function LoginUser(users: seq<User>, email: string, password: string, production: bool,
                     matches: (string, string) -> bool): (r: Reply<string>)
    ensures r.outcome.Ok? <==>
              FindByEmail(users, email).Some? && matches(users[FindByEmail(users, email).value].password, password)
    ensures r.outcome.Err? ==> r == Reply(Err(401, InvalidCredentialsMessage), None)
    ensures r.outcome.Ok? ==>
              && r.outcome == Ok(200, LoginSuccessMessage)
              && r.cookie.Some?
              && r.cookie.value.name == "token"
              && r.cookie.value.token == GenerateToken(users[FindByEmail(users, email).value].id)
              && r.cookie.value.httpOnly && r.cookie.value.sameSite == "strict"
              && (r.cookie.value.secure <==> production)
              && r.cookie.value.maxAgeMs == 7 * 24 * 60 * 60 * 1000
              && r.cookie.value.maxAgeMs < r.cookie.value.token.expiresInSeconds * 1000
  {
    match FindByEmail(users, email)
    case None => Reply(Err(401, InvalidCredentialsMessage), None)
    case Some(i) =>
      if matches(users[i].password, password) then
        Reply(Ok(200, LoginSuccessMessage), Some(SessionCookie(GenerateToken(users[i].id), production, LoginCookieMaxAgeMs)))
      else
        Reply(Err(401, InvalidCredentialsMessage), None)
  }

  /** A user who registered can log in with the same password, given that
      the password check accepts exactly what `hash` produced. */
  lemma {:induction false} RegisteredUserCanLogIn(users: seq<User>, u: User, password: string, production: bool,
                                                  hash: string -> string, matches: (string, string) -> bool)
    requires FindByEmail(users, u.email).None?
    requires u.password == hash(password)
    requires forall p :: matches(hash(p), p)
    ensures LoginUser(users + [u], u.email, password, production, matches).outcome.Ok?
  {
    var all := users + [u];
    assert all[|users|] == u;
    var i := FindByEmail(all, u.email);
    assert i.Some?;
    assert i.value == |users|;
  }

  /** getMe: 200 with the attached user's id, name and email, or 401 when
      no user is attached. */
  function GetMe(reqUser: Option<SafeUser>): (r: Outcome<SafeUser>)
    ensures r.Ok? <==> reqUser.Some?
    ensures r.Ok? ==> r.status == 200 && r.value == reqUser.value
    ensures r.Err? ==> r == Err(401, NotAuthenticatedMessage)
  {
    if reqUser.Some? then Ok(200, reqUser.value) else Err(401, NotAuthenticatedMessage)
  }
}
