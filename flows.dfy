/** How the client and the server fit together: the token the server issues
    travels back through the client's storage and interceptor to the auth
    middleware, and the server's error replies reach the client's error
    messages. */
module Flows {
  import opened Base
  import opened Http
  import opened Collaborators
  import opened UserModel
  import opened Store
  import opened ErrorHandler
  import opened AuthMiddleware
  import opened PostValidator
  import opened AuthController
  import opened AuthContext
  import opened ApiService

  /** A token stored for a user is sent as `Bearer <token>` and admits that
      user (without the password) until a day after it was issued, and is
      refused from then on. */
  lemma {:induction false} StoredTokenAuthenticates(env: Env, users: seq<User>, i: nat, issued: nat, now: nat,
                                                     items: map<string, string>, headers: map<string, string>)
    requires Sound(env) && UniqueBy(users, UserId)
    requires i < |users| && env.isObjectId(users[i].id)
    requires "token" in items && items["token"] == CreateToken(env, users[i].id, issued)
    ensures var h := InterceptedHeaders(items, headers);
      && "Authorization" in h
      && Authenticate(env, Some(h["Authorization"]), users, now) ==
           if now < issued + TOKEN_LIFETIME then Accepted(Some(WithoutPassword(users[i]))) else Denied(TOKEN_FAILED)
  {
    var token := items["token"];
    BearerRoundTrip(token);
    TokenCarriesIdForOneDay(env, users[i].id, issued, now);
    var found := FindUser(users, users[i].id);
    assert found == Some(i) by {
      assert UserId(users[found.value]) == UserId(users[i]);
    }
  }

  /** Log in, keep the session, make a request: within a day of the login
      the middleware admits the user who logged in. */
  lemma LoginSessionAuthenticates(env: Env, json: Json, users: seq<User>, input: LoginInput, loginTime: nat, now: nat,
                                  userData: UserData, items: map<string, string>, headers: map<string, string>)
    requires Sound(env) && UsersValid(users)
    requires LoginUser(env, users, input, loginTime).status == 200
    requires forall k :: 0 <= k < |users| ==> env.isObjectId(users[k].id)
    requires loginTime <= now < loginTime + TOKEN_LIFETIME
    ensures var r := LoginUser(env, users, input, loginTime);
      var stored := StorageAfterLogin(json, items, userData, Some(r.body.value.token));
      var h := InterceptedHeaders(stored, headers);
      && "Authorization" in h
      && Authenticate(env, Some(h["Authorization"]), users, now) ==
           Accepted(Some(WithoutPassword(users[FindUserByEmail(users, input.email).value])))
  {
    var k := FindUserByEmail(users, input.email).value;
    var r := LoginUser(env, users, input, loginTime);
    var stored := StorageAfterLogin(json, items, userData, Some(r.body.value.token));
    StoredTokenAuthenticates(env, users, k, loginTime, now, stored, headers);
  }

  /** Every reply of the central error handler reaches the client as a
      rejection carrying exactly the handler's message. */
  lemma ServerErrorsReachClient<T>(err: JsError, resStatus: nat, production: bool)
    requires resStatus == 200 || resStatus >= 400
    requires err.name == "ValidationError" ==> exists i :: 0 <= i < |err.fieldMessages| && err.fieldMessages[i] != ""
    ensures var reply: Reply<T> := HandleError(err, resStatus, production);
      Call(Answered(reply)) == Rejected(reply.body.message)
  {
    HandledErrorIsClientVisible<T>(err, resStatus, production);
  }

  /** A 401 from the auth middleware shows the middleware's own message;
      the client's 'Unauthorized' fallback is never used for it. */
  lemma DeniedRequestShowsServerMessage<T>(env: Env, header: Option<string>, users: seq<User>, now: nat)
    requires Authenticate(env, header, users, now).Denied?
    ensures var reply: Reply<T> := Reply(401, Message(Authenticate(env, header, users, now).message));
      && Call(Answered(reply)) == Rejected(Authenticate(env, header, users, now).message)
      && Call(Answered(reply)).message != UNAUTHORIZED
  {
  }

  /** The post validators answer { errors } with no message, so the client
      shows only the status, and the register route answers
      { message, errors }, so it shows only 'Validation failed': in
      neither case does a field's message reach the client. */
  lemma ValidationDetailsDoNotReachClient<T>(errs: seq<FieldError>)
    requires errs != []
    ensures Call(Answered(HandleValidationErrors<T>(errs).reply)) == Rejected(REQUEST_FAILED_PREFIX + "400")
    ensures Call<T>(Answered(Reply(400, MessageAndErrors(VALIDATION_FAILED, errs)))) == Rejected(VALIDATION_FAILED)
  {
    assert NatToString(400) == "400" by {
      assert NatToString(4) == "4";
      assert NatToString(40) == "40";
    }
  }
}
