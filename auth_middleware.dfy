/** The `protect` middleware (server/middleware/authMiddleware.js): find the
    request's token, verify it, load its user, and either hand the request
    on with the user attached or end it with an error status. */
module AuthMiddleware {
  import opened Common
  import opened ErrorHandler
  import opened UserModel

  /** Where a token can come from: the `token` cookie and the Authorization
      header (absent values are None). */
  datatype AuthRequest = AuthRequest(cookieToken: Option<string>, authorization: Option<string>)

  /** An error as the catch block sees it: its `name` and `message`. */
  datatype Failure = Failure(name: string, message: string)

  /** The result of `jwt.verify`: the decoded user id, or the error it throws. */
  datatype JwtVerdict = Decoded(id: nat) | Rejected(error: Failure)

  /** How the middleware ends: `next()` with the user attached to the
      request, or an error reply with its final status. */
  datatype AuthOutcome = Next(user: SafeUser) | Halt(status: int, message: string)

  const NoTokenMessage: string := "Not authorized, no token"
  const InvalidTokenMessage: string := "Not authorized, token is invalid or expired"
  const UserNotFoundMessage: string := "Not authorized, user not found"
  const ServerErrorPrefix: string := "Server error during authentication: "

  /** The error names jsonwebtoken uses for a bad signature or format and for
      an expired token. */
  predicate IsJwtError(name: string) {
    name == "JsonWebTokenError" || name == "TokenExpiredError"
  }

  /** The token `protect` picks: the cookie when it is non-empty, whatever
      the header says; otherwise, for a header starting with "Bearer", its
      second space-separated piece (which may be missing or empty). */
  function RequestToken(req: AuthRequest): (t: Option<string>)
    ensures PresentText(req.cookieToken) ==> t == req.cookieToken
    ensures !PresentText(req.cookieToken) && !(PresentText(req.authorization) && "Bearer" <= req.authorization.value) ==>
              t.None?
    ensures t.Some? && !PresentText(req.cookieToken) ==>
              |Split(req.authorization.value, ' ')| > 1 && t.value == Split(req.authorization.value, ' ')[1]
  {
    if PresentText(req.cookieToken) then req.cookieToken
    else if PresentText(req.authorization) && "Bearer" <= req.authorization.value then
      var pieces := Split(req.authorization.value, ' ');
      if |pieces| > 1 then Some(pieces[1]) else None
    else None
  }

  /** A header "Bearer <t>" with a token free of spaces yields exactly that
      token when there is no cookie. */
  lemma {:induction false} BearerHeaderToken(t: string)
    requires ' ' !in t
    ensures RequestToken(AuthRequest(None, Some("Bearer " + t))) == Some(t)
  {
    assert "Bearer " + t == "Bearer" + [' '] + t;
    SplitAtSep("Bearer", t, ' ');
    SplitNoSep(t, ' ');
  }

  /** The catch block: a JWT error is 401, anything else (a database error,
      or the "user not found" error thrown inside the try) is 500 with the
      error's message appended. Both statuses are set before the throw, so
      the error handler keeps them. */
  function Classify(f: Failure): (o: AuthOutcome)
    ensures o.Halt?
    ensures IsJwtError(f.name) ==> o == Halt(401, InvalidTokenMessage)
    ensures !IsJwtError(f.name) ==> o == Halt(500, ServerErrorPrefix + f.message)
  {
    if IsJwtError(f.name) then Halt(FinalStatus(401), InvalidTokenMessage)
    else Halt(FinalStatus(500), ServerErrorPrefix + f.message)
  }

  /** protect: without a token the request ends with 401; a rejected token
      with 401 when jsonwebtoken names the error, else 500; a database
      failure with 500; a verified token whose user no longer exists with
      500 (not 401: the "user not found" error is caught by the same catch);
      otherwise the user, without its password, is attached and `next` runs
      exactly once. `next` never runs on an error path. */
  method Protect(req: AuthRequest, verify: string -> JwtVerdict, users: seq<User>, dbFailure: Option<Failure>)
    returns (outcome: AuthOutcome, nextCalls: nat)
    ensures nextCalls == (if outcome.Next? then 1 else 0)
    ensures !PresentText(RequestToken(req)) ==> outcome == Halt(401, NoTokenMessage)
    ensures PresentText(RequestToken(req)) ==>
              var v := verify(RequestToken(req).value);
              && (v.Rejected? ==> outcome == Classify(v.error))
              && (v.Decoded? && dbFailure.Some? ==> outcome == Classify(dbFailure.value))
              && (v.Decoded? && dbFailure.None? && FindById(users, v.id).None? ==>
                    outcome == Halt(500, ServerErrorPrefix + UserNotFoundMessage))
              && (v.Decoded? && dbFailure.None? && FindById(users, v.id).Some? ==>
                    outcome == Next(WithoutPassword(users[FindById(users, v.id).value])))
  {
    nextCalls := 0;
    var token: Option<string> := None;
    if PresentText(req.cookieToken) {
      token := req.cookieToken;
    } else if PresentText(req.authorization) && "Bearer" <= req.authorization.value {
      var pieces := Split(req.authorization.value, ' ');
      if |pieces| > 1 {
        token := Some(pieces[1]);
      }
    }
    if !PresentText(token) {
      return Halt(FinalStatus(401), NoTokenMessage), nextCalls;
    }
    var caught: Option<Failure> := None;
    var verdict := verify(token.value);
    if verdict.Rejected? {
      caught := Some(verdict.error);
    } else if dbFailure.Some? {
      caught := dbFailure;
    } else {
      var found := FindById(users, verdict.id);
      if found.None? {
        caught := Some(Failure("Error", UserNotFoundMessage));
      } else {
        outcome := Next(WithoutPassword(users[found.value]));
        nextCalls := nextCalls + 1;
        return;
      }
    }
    outcome := Classify(caught.value);
  }
}
