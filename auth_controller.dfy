/** server/controllers/authController.js: issuing tokens, registering a user
    and logging in. */
module AuthController {
  import opened Base
  import opened Http
  import opened Collaborators
  import opened UserModel
  import opened Store
  import opened ErrorHandler
  import opened AuthMiddleware

  const VALIDATION_FAILED: string := "Validation failed"
  const USER_EXISTS: string := "User with this email or username already exists"
  const REGISTRATION_SUCCESSFUL: string := "Registration successful"
  const USER_NOT_FOUND: string := "Invalid credentials (User not found)"
  const PASSWORD_INCORRECT: string := "Invalid credentials (Password incorrect)"
  const LOGIN_SUCCESSFUL: string := "Login successful"

  /** The fields of the register and login bodies; None is an absent field. */
  datatype RegisterInput = RegisterInput(username: Option<string>, email: Option<string>, password: Option<string>)
  datatype LoginInput = LoginInput(email: Option<string>, password: Option<string>)

  /** The `user` object of a successful reply: no password. */
  datatype UserSummary = UserSummary(id: Id, username: string, email: string)

  /** { message, user, token }. */
  datatype AuthPayload = AuthPayload(message: string, user: UserSummary, token: string)

  function Summary(u: User): (s: UserSummary)
    ensures s.id == u.id && s.username == u.username && s.email == u.email
  {
    UserSummary(u.id, u.username, u.email)
  }

  /** createToken(id): a token for `id`, signed at time `now`, that expires
      a day later. */
  function CreateToken(env: Env, id: Id, now: nat): (token: string)
    ensures Sound(env) ==> token != "" && ' ' !in token
  {
    env.sign(id, now)
  }

  /** The token carries the user id and verifies until exactly one day after
      it was issued. */
  lemma TokenCarriesIdForOneDay(env: Env, id: Id, issued: nat, now: nat)
    requires Sound(env)
    ensures VerifyToken(env, Some(CreateToken(env, id, issued)), now) ==
      if now < issued + TOKEN_LIFETIME then Some(id) else None
  {
  }

  /** What registerUser answers and the users collection it leaves. */
  datatype RegisterOutcome = RegisterOutcome(reply: Reply<AuthPayload>, users: seq<User>)

  /** A save that hits a unique index: _id, username or email. */
  predicate SaveCollides(users: seq<User>, u: User) {
    exists k :: 0 <= k < |users| && (users[k].id == u.id || users[k].username == u.username || users[k].email == u.email)
  }

  /** registerUser on the validation result `errors` and the sanitised body:
      400 with the validation errors; 400 when findOne({ $or: [{ email },
      { username }] }) finds someone, the username in the filter trimmed by
      the path's setter; otherwise User.create, whose document
      trims the username, validates (a ValidationError goes to the error
      handler), hashes the password in the pre-save hook and inserts (a
      unique-index clash is a duplicate-key error, also for the error
      handler); then 201 with the new user and a token for it. */
  function RegisterUserOutcome(env: Env, users: seq<User>, errors: seq<FieldError>, input: RegisterInput,
                               freshId: Id, now: nat): (o: RegisterOutcome)
    ensures o.users == users || o.reply.status == 201
    ensures errors != [] ==> o.reply == Reply(400, MessageAndErrors(VALIDATION_FAILED, errors))
    ensures (&& errors == []
             && exists k :: 0 <= k < |users| &&
                  (input.email == Some(users[k].email) || QueryUsername(input.username) == Some(users[k].username))) ==>
      o.reply == Reply(400, Message(USER_EXISTS))
  {
    if errors != [] then RegisterOutcome(Reply(400, MessageAndErrors(VALIDATION_FAILED, errors)), users)
    else if FindUserByEmailOrUsername(users, input.email, QueryUsername(input.username)).Some? then
      RegisterOutcome(Reply(400, Message(USER_EXISTS)), users)
    else
      var username := Trim(input.username.GetOr(""));
      var email := input.email.GetOr("");
      var password := input.password.GetOr("");
      var messages := UserSchemaMessages(username, email, password);
      if messages != [] then RegisterOutcome(HandleError(ValidationError(messages), 200, env.production), users)
      else
        var u := User(freshId, username, email, env.hash(password), now);
        if SaveCollides(users, u) then RegisterOutcome(HandleError(DuplicateKeyError(), 200, env.production), users)
        else
          var payload := AuthPayload(REGISTRATION_SUCCESSFUL, Summary(u), CreateToken(env, freshId, now));
          RegisterOutcome(Reply(201, Data(payload)), users + [u])
  }

  /** A successful registration adds exactly one user: the trimmed username,
      the email as sent, the password's hash, the new id; the reply carries
      that user without the password and a token for its id. */
  lemma RegisterAddsOne(env: Env, users: seq<User>, errors: seq<FieldError>, input: RegisterInput, freshId: Id, now: nat)
    requires RegisterUserOutcome(env, users, errors, input, freshId, now).reply.status == 201
    ensures var o := RegisterUserOutcome(env, users, errors, input, freshId, now);
      && errors == [] && input.email.Some?
      && |o.users| == |users| + 1 && o.users[..|users|] == users
      && var u := o.users[|users|];
      && u == User(freshId, Trim(input.username.GetOr("")), input.email.value, env.hash(input.password.GetOr("")), now)
      && o.reply.body == Data(AuthPayload(REGISTRATION_SUCCESSFUL, UserSummary(freshId, u.username, u.email),
                                          CreateToken(env, freshId, now)))
  {
    var o := RegisterUserOutcome(env, users, errors, input, freshId, now);
    assert input.email.Some? by {
      assert UserSchemaMessages(Trim(input.username.GetOr("")), input.email.GetOr(""), input.password.GetOr("")) == [];
    }
    assert o.users[..|users|] == users;
  }

  /** A body without validation errors, whose email and trimmed username no
      stored user has, that the schema accepts, and whose new id clashes
      with no stored one is answered 201: exactly the new user is appended, holding the
      password's hash, and the reply carries it without the password and a
      token for its id. */
  lemma NewUserRegisters(env: Env, users: seq<User>, input: RegisterInput, freshId: Id, now: nat)
    requires input.username.Some? && input.email.Some? && input.password.Some?
    requires UserSchemaMessages(Trim(input.username.value), input.email.value, input.password.value) == []
    requires forall k :: 0 <= k < |users| ==>
      && users[k].email != input.email.value && users[k].id != freshId
      && users[k].username != Trim(input.username.value)
    ensures var u := User(freshId, Trim(input.username.value), input.email.value, env.hash(input.password.value), now);
      RegisterUserOutcome(env, users, [], input, freshId, now) ==
        RegisterOutcome(Reply(201, Data(AuthPayload(REGISTRATION_SUCCESSFUL, Summary(u), CreateToken(env, freshId, now)))),
                        users + [u])
  {
  }

  /** Appending a conforming user that hits no unique index keeps the
      collection's invariant. */
  lemma AppendUserKeepsValid(users: seq<User>, u: User)
    requires UsersValid(users) && UserConforms(u) && !SaveCollides(users, u)
    ensures UsersValid(users + [u])
  {
    var s := users + [u];
    assert forall k :: 0 <= k < |users| ==> s[k] == users[k];
    assert s[|users|] == u;
  }

  /** Registering keeps the users' unique indexes and schema. */
  lemma RegisterPreservesValid(env: Env, users: seq<User>, errors: seq<FieldError>, input: RegisterInput, freshId: Id, now: nat)
    requires UsersValid(users)
    ensures UsersValid(RegisterUserOutcome(env, users, errors, input, freshId, now).users)
  {
    if errors == [] && FindUserByEmailOrUsername(users, input.email, QueryUsername(input.username)).None? {
      var username := Trim(input.username.GetOr(""));
      var email := input.email.GetOr("");
      var password := input.password.GetOr("");
      if UserSchemaMessages(username, email, password) == [] {
        var u := User(freshId, username, email, env.hash(password), now);
        if !SaveCollides(users, u) {
          TrimIdempotent(input.username.GetOr(""));
          AppendUserKeepsValid(users, u);
        }
      }
    }
  }

  /** The existence check trims the username as the schema does, so a
      username that differs from a stored one only by surrounding white
      space is found: 400 'already exists', and nothing is stored. The
      unique index on username is never what refuses it. */
  lemma PaddedDuplicateUsernameExists(env: Env, users: seq<User>, input: RegisterInput, freshId: Id, now: nat, k: nat)
    requires k < |users| && input.username.Some?
    requires users[k].username == Trim(input.username.value)
    ensures var o := RegisterUserOutcome(env, users, [], input, freshId, now);
      o.reply == Reply(400, Message(USER_EXISTS)) && o.users == users
  {
  }

  /** registerUser on the database, following User.create step by step on
      a UserDocument. */
  method RegisterUser(env: Env, db: Db, errors: seq<FieldError>, input: RegisterInput, freshId: Id, now: nat)
      returns (r: Reply<AuthPayload>)
    requires db.Valid()
    modifies db`users
    ensures var o := RegisterUserOutcome(env, old(db.users), errors, input, freshId, now);
      r == o.reply && db.users == o.users
    ensures db.Valid()
  {
    if errors != [] {
      return Reply(400, MessageAndErrors(VALIDATION_FAILED, errors));
    }
    if FindUserByEmailOrUsername(db.users, input.email, QueryUsername(input.username)).Some? {
      return Reply(400, Message(USER_EXISTS));
    }
    var doc := new UserDocument(input.username.GetOr(""), input.email.GetOr(""), input.password.GetOr(""));
    var messages := UserSchemaMessages(doc.username, doc.email, doc.password);
    if messages != [] {
      return HandleError(ValidationError(messages), 200, env.production);
    }
    doc.HashPasswordBeforeSave(env);
    var u := doc.Saved(freshId, now);
    if SaveCollides(db.users, u) {
      return HandleError(DuplicateKeyError(), 200, env.production);
    }
    RegisterPreservesValid(env, db.users, errors, input, freshId, now);
    db.users := db.users + [u];
    r := Reply(201, Data(AuthPayload(REGISTRATION_SUCCESSFUL, Summary(u), CreateToken(env, u.id, now))));
  }

  /** loginUser: findOne({ email }); an absent password makes bcrypt.compare
      throw, which the error handler answers. */
  function LoginUser(env: Env, users: seq<User>, input: LoginInput, now: nat): (r: Reply<AuthPayload>)
    ensures FindUserByEmail(users, input.email).None? ==> r == Reply(401, Message(USER_NOT_FOUND))
    ensures r.status == 200 <==>
      && FindUserByEmail(users, input.email).Some? && input.password.Some?
      && env.compare(input.password.value, users[FindUserByEmail(users, input.email).value].password)
    ensures r.status == 200 ==>
      var u := users[FindUserByEmail(users, input.email).value];
      r.body == Data(AuthPayload(LOGIN_SUCCESSFUL, Summary(u), CreateToken(env, u.id, now)))
    ensures r.status != 200 ==> r.status == 401 || r.status == 500
  {
    match FindUserByEmail(users, input.email)
    case None => Reply(401, Message(USER_NOT_FOUND))
    case Some(i) =>
      if input.password.None? then HandleError(MissingArgumentsError(), 200, env.production)
      else if !env.compare(input.password.value, users[i].password) then Reply(401, Message(PASSWORD_INCORRECT))
      else Reply(200, Data(AuthPayload(LOGIN_SUCCESSFUL, Summary(users[i]), CreateToken(env, users[i].id, now))))
  }

  /** With a sound bcrypt, a known email and a password other than the one
      registered gives the second 401 message. */
  lemma WrongPasswordIsRefused(env: Env, users: seq<User>, input: LoginInput, now: nat, plain: string)
    requires Sound(env)
    requires FindUserByEmail(users, input.email).Some?
    requires users[FindUserByEmail(users, input.email).value].password == env.hash(plain)
    requires input.password.Some? && input.password.value != plain
    ensures LoginUser(env, users, input, now) == Reply(401, Message(PASSWORD_INCORRECT))
  {
  }

  /** Register, then log in with the email registerUser stored and the same
      password: the login succeeds for the new user, and its token
      authenticates that user for one day. */
  lemma RegisterThenLogin(env: Env, users: seq<User>, input: RegisterInput, freshId: Id, now: nat, later: nat)
    requires Sound(env)
    requires RegisterUserOutcome(env, users, [], input, freshId, now).reply.status == 201
    ensures var after := RegisterUserOutcome(env, users, [], input, freshId, now).users;
      var r := LoginUser(env, after, LoginInput(input.email, input.password), later);
      && r.status == 200
      && r.body.value.user.id == freshId
      && VerifyToken(env, Some(r.body.value.token), later + TOKEN_LIFETIME - 1) == Some(freshId)
  {
    var o := RegisterUserOutcome(env, users, [], input, freshId, now);
    RegisterAddsOne(env, users, [], input, freshId, now);
    var u := o.users[|users|];
    assert forall k :: 0 <= k < |users| ==> input.email != Some(users[k].email);
    assert o.users == users + [u];
    var found := FindUserByEmail(o.users, input.email);
    assert found == Some(|users|) by {
      assert input.email == Some(o.users[|users|].email);
      assert forall k :: 0 <= k < |users| ==> input.email != Some(o.users[k].email);
    }
    assert input.password.Some? by {
      assert UserSchemaMessages(Trim(input.username.GetOr("")), input.email.GetOr(""), input.password.GetOr("")) == [];
    }
  }
}
