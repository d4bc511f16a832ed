/** server/middleware/authMiddleware.js: reads the bearer token from the
    Authorization header, verifies it, attaches the token's user (without
    the password) to the request, and calls next; otherwise answers 401. */
module AuthMiddleware {
  import opened Base
  import opened Http
  import opened Collaborators
  import opened UserModel
  import opened Store

  const NO_TOKEN: string := "Not authorized, no token"
  const TOKEN_FAILED: string := "Not authorized, token failed or expired"

  /** What the header offers: nothing usable, or a Bearer header whose second
      space-separated segment may be missing (split(' ')[1] is undefined). */
  datatype Bearer = NoBearer | BearerCredential(token: Option<string>)

  /** The header test and split(' ')[1]. The test is startsWith('Bearer')
      with no space, so "Bearer" and "Bearerxyz" pass it and carry no
      token; an absent or empty header fails it. */
  function ParseAuthorization(header: Option<string>): (b: Bearer)
    ensures b.NoBearer? <==> header.None? || !StartsWith(header.value, "Bearer")
    ensures b.BearerCredential? ==> (b.token.Some? <==> ' ' in header.value)
    ensures b.BearerCredential? && b.token.Some? ==> ' ' !in b.token.value
  {
    match header
    case None => NoBearer
    case Some(h) =>
      if h == "" || !StartsWith(h, "Bearer") then NoBearer
      else
        var parts := Split(h, ' ');
        assert ' ' in h <==> multiset(h)[' '] > 0;
        BearerCredential(if |parts| >= 2 then Some(parts[1]) else None)
  }

  /** The header the client sends parses back to the token it attached,
      whenever the token has no space in it. */
  lemma BearerRoundTrip(token: string)
    requires ' ' !in token
    ensures ParseAuthorization(Some("Bearer " + token)) == BearerCredential(Some(token))
  {
    var h := "Bearer " + token;
    var scheme := "Bearer";
    assert ' ' !in scheme;
    assert h == scheme + [' '] + token;
    SplitAfterSegment(scheme, ' ', token);
    SplitWithoutSeparator(token, ' ');
    assert Split(h, ' ') == [scheme, token];
    assert h[..6] == scheme;
  }

  /** jwt.verify(token, secret) at time `now`: the subject id, or a throw
      (None). An undefined or empty token throws 'jwt must be provided'. */
  function VerifyToken(env: Env, token: Option<string>, now: nat): (id: Option<Id>)
    ensures token.None? || token == Some("") ==> id.None?
    ensures token.Some? && token.value != "" ==> id == env.verify(token.value, now)
  {
    match token
    case None => None
    case Some(t) => if t == "" then None else env.verify(t, now)
  }

  /** The middleware's outcome: next() with req.user set (to null when the
      token's user no longer exists), or a 401 message. */
  datatype AuthResult = Accepted(user: Option<PublicUser>) | Denied(message: string)

  /** authMiddleware over the stored users at time `now`. A decoded id that
      findById cannot cast throws inside the try, so it is refused like a
      bad token. */
  function Authenticate(env: Env, header: Option<string>, users: seq<User>, now: nat): (r: AuthResult)
    ensures r == Denied(NO_TOKEN) <==> ParseAuthorization(header).NoBearer?
    ensures r.Denied? ==> r.message == NO_TOKEN || r.message == TOKEN_FAILED
    ensures r.Accepted? <==>
      && ParseAuthorization(header).BearerCredential?
      && VerifyToken(env, ParseAuthorization(header).token, now).Some?
      && env.isObjectId(VerifyToken(env, ParseAuthorization(header).token, now).value)
    ensures r.Accepted? && r.user.Some? ==>
      exists i :: 0 <= i < |users| && r.user.value == WithoutPassword(users[i])
        && Some(users[i].id) == VerifyToken(env, ParseAuthorization(header).token, now)
    ensures r.Accepted? && r.user.None? ==>
      forall i :: 0 <= i < |users| ==> Some(users[i].id) != VerifyToken(env, ParseAuthorization(header).token, now)
  {
    match ParseAuthorization(header)
    case NoBearer => Denied(NO_TOKEN)
    case BearerCredential(token) =>
      match VerifyToken(env, token, now)
      case None => Denied(TOKEN_FAILED)
      case Some(id) =>
        if !env.isObjectId(id) then Denied(TOKEN_FAILED)
        else match FindUser(users, id)
          case None => Accepted(None)
          case Some(i) => Accepted(Some(WithoutPassword(users[i])))
  }

  /** The incoming request as the handlers see it: its Authorization header,
      its parsed JSON body, and `req.user`, which the middleware sets (None
      stands for both undefined and null). */
  class Request<B> {
    const authorization: Option<string>
    const body: B
    var user: Option<PublicUser>

    constructor(authorization: Option<string>, body: B)
      ensures this.authorization == authorization && this.body == body && user.None?
    {
      this.authorization := authorization;
      this.body := body;
      user := None;
    }
  }

  /** authMiddleware(req, res, next): on success req.user is set and next is
      called; otherwise the 401 reply is sent and req.user is untouched. */
  method Protect<B, T>(env: Env, db: Db, req: Request<B>, now: nat) returns (step: Step<T>)
    modifies req`user
    ensures Authenticate(env, req.authorization, db.users, now).Accepted? ==>
      step.Next? && req.user == Authenticate(env, req.authorization, db.users, now).user
    ensures Authenticate(env, req.authorization, db.users, now).Denied? ==>
      && step == Respond(Reply(401, Message(Authenticate(env, req.authorization, db.users, now).message)))
      && req.user == old(req.user)
  {
    var bearer := ParseAuthorization(req.authorization);
    if bearer.NoBearer? {
      return Respond(Reply(401, Message(NO_TOKEN)));
    }
    var decoded := VerifyToken(env, bearer.token, now);
    if decoded.None? || !env.isObjectId(decoded.value) {
      return Respond(Reply(401, Message(TOKEN_FAILED)));
    }
    var found := FindUser(db.users, decoded.value);
    req.user := if found.Some? then Some(WithoutPassword(db.users[found.value])) else None;
    step := Next;
  }
}
