/** server/routes/authRoutes.js: the express-validator chains for register
    and login and the two routes. As for posts, each chain runs all of its
    validators and an absent field reads as the empty string. The register
    route hands the validation result to registerUser; the login route runs
    its chains but loginUser never reads their result. */
module AuthRoutes {
  import opened Base
  import opened Http
  import opened Collaborators
  import opened UserModel
  import opened Store
  import opened PostValidator
  import opened AuthMiddleware
  import opened AuthController

  const USERNAME_REQUIRED: string := "Username is required"
  const USERNAME_LENGTH: string := "Username must be between 3 and 30 characters"
  const EMAIL_INVALID: string := "Please enter a valid email address"
  const PASSWORD_LENGTH: string := "Password must be at least 6 characters long"
  const PASSWORD_REQUIRED: string := "Password is required"

  const USERNAME_MIN: nat := 3
  const USERNAME_MAX: nat := 30
  const PASSWORD_MIN: nat := 6

  /** The register rules as a condition on the body. An absent email is
      checked as the empty string, which isEmail decides. */
  predicate RegisterValid(env: Env, input: RegisterInput) {
    && input.username.Some? && input.username.value != ""
    && USERNAME_MIN <= ValidatorLength(input.username.value) <= USERNAME_MAX
    && env.isEmail(input.email.GetOr(""))
    && input.password.Some? && ValidatorLength(input.password.value) >= PASSWORD_MIN
  }

  /** validationResult after registerValidation's chains, in chain order. */
  function RegisterErrors(env: Env, input: RegisterInput): (errs: seq<FieldError>)
    ensures errs == [] <==> RegisterValid(env, input)
    ensures forall e :: e in errs ==> e.path in {"username", "email", "password"}
    ensures forall e :: e in errs ==> e.msg in {USERNAME_REQUIRED, USERNAME_LENGTH, EMAIL_INVALID, PASSWORD_LENGTH}
  {
    var username := input.username.GetOr("");
    var email := input.email.GetOr("");
    var password := input.password.GetOr("");
    Check("username", username != "", USERNAME_REQUIRED)
    + Check("username", USERNAME_MIN <= ValidatorLength(username) <= USERNAME_MAX, USERNAME_LENGTH)
    + Check("email", env.isEmail(email), EMAIL_INVALID)
    + Check("password", ValidatorLength(password) >= PASSWORD_MIN, PASSWORD_LENGTH)
  }

  /** The body after the chains: normalizeEmail() rewrites a present email. */
  function SanitizeRegister(env: Env, input: RegisterInput): (s: RegisterInput)
    ensures s.username == input.username && s.password == input.password
    ensures s.email.Some? <==> input.email.Some?
    ensures input.email.Some? ==> s.email.value == env.normalizeEmail(input.email.value)
  {
    input.(email := if input.email.Some? then Some(env.normalizeEmail(input.email.value)) else None)
  }

  /** router.post('/register', registerValidation, registerUser). */
  function RegisterRouteOutcome(env: Env, users: seq<User>, input: RegisterInput, freshId: Id, now: nat): (o: RegisterOutcome)
    ensures !RegisterValid(env, input) ==> o.reply.status == 400 && o.users == users
    ensures o.reply.status == 201 ==>
      && RegisterValid(env, input) && input.email.Some?
      && |o.users| == |users| + 1
      && o.users[|users|].email == env.normalizeEmail(input.email.value)
  {
    var o := RegisterUserOutcome(env, users, RegisterErrors(env, input), SanitizeRegister(env, input), freshId, now);
    if o.reply.status == 201 then
      RegisterAddsOne(env, users, RegisterErrors(env, input), SanitizeRegister(env, input), freshId, now);
      o
    else o
  }

  /** A body the chains accept, whose normalised email and trimmed username
      the schema accepts and that no stored user holds (the username
      trimmed, and the new id, included) is answered 201, and exactly
      the new user is appended, with the normalised email and the
      password's hash. */
  lemma {:induction false} NewUserRegistersByRoute(env: Env, users: seq<User>, input: RegisterInput, freshId: Id, now: nat)
    requires RegisterValid(env, input) && input.email.Some?
    requires var e := env.normalizeEmail(input.email.value);
      && e != "" && MatchesEmailPattern(e)
      && Trim(input.username.value) != "" && Utf16Length(Trim(input.username.value)) <= USERNAME_MAX_LENGTH
      && forall k :: 0 <= k < |users| ==>
           && users[k].email != e && users[k].id != freshId
           && users[k].username != Trim(input.username.value)
    ensures var u := User(freshId, Trim(input.username.value), env.normalizeEmail(input.email.value),
                          env.hash(input.password.value), now);
      RegisterRouteOutcome(env, users, input, freshId, now) ==
        RegisterOutcome(Reply(201, Data(AuthPayload(REGISTRATION_SUCCESSFUL, Summary(u), CreateToken(env, freshId, now)))),
                        users + [u])
  {
    var s := SanitizeRegister(env, input);
    RegisterValidPasswordMeetsSchema(env, input);
    NewUserRegisters(env, users, s, freshId, now);
  }

  /** A body the chains accept whose username, trimmed, is a stored user's
      is refused by the route with 400 'already exists', however much white
      space surrounds it, and nothing is stored. */
  lemma {:induction false} PaddedDuplicateRefusedByRoute(env: Env, users: seq<User>, input: RegisterInput,
                                                         freshId: Id, now: nat, k: nat)
    requires RegisterValid(env, input)
    requires k < |users| && users[k].username == Trim(input.username.value)
    ensures RegisterRouteOutcome(env, users, input, freshId, now) == RegisterOutcome(Reply(400, Message(USER_EXISTS)), users)
  {
    PaddedDuplicateUsernameExists(env, users, SanitizeRegister(env, input), freshId, now, k);
  }

  /** Register through the route, then log in with the email as the route
      stored it (normalised) and the same password: the login succeeds for
      the new user, and its token authenticates that user for a day. */
  lemma {:induction false} RegisterThenLoginWithStoredEmail(env: Env, users: seq<User>, input: RegisterInput,
                                                            freshId: Id, now: nat, later: nat)
    requires Sound(env)
    requires RegisterRouteOutcome(env, users, input, freshId, now).reply.status == 201
    ensures var after := RegisterRouteOutcome(env, users, input, freshId, now).users;
      var r := LoginRoute(env, after, LoginInput(Some(env.normalizeEmail(input.email.value)), input.password), later);
      && r.status == 200
      && r.body.value.user.id == freshId
      && VerifyToken(env, Some(r.body.value.token), later + TOKEN_LIFETIME - 1) == Some(freshId)
  {
    var s := SanitizeRegister(env, input);
    assert RegisterErrors(env, input) == [];
    RegisterThenLogin(env, users, s, freshId, now, later);
  }

  /** The login route does not normalise: logging in with the email as typed
      at registration, when normalizeEmail changed it and no earlier user
      has it, finds no user. */
  lemma {:induction false} LoginWithTypedEmailIsRefused(env: Env, users: seq<User>, input: RegisterInput, freshId: Id,
                                                        now: nat, later: nat, password: Option<string>)
    requires RegisterRouteOutcome(env, users, input, freshId, now).reply.status == 201
    requires env.normalizeEmail(input.email.value) != input.email.value
    requires forall k :: 0 <= k < |users| ==> users[k].email != input.email.value
    ensures LoginRoute(env, RegisterRouteOutcome(env, users, input, freshId, now).users, LoginInput(input.email, password), later) ==
      Reply(401, Message(USER_NOT_FOUND))
  {
    var s := SanitizeRegister(env, input);
    var after := RegisterRouteOutcome(env, users, input, freshId, now).users;
    RegisterAddsOne(env, users, RegisterErrors(env, input), s, freshId, now);
    assert after == users + [after[|users|]];
    assert FindUserByEmail(after, input.email).None? by {
      forall k | 0 <= k < |after|
        ensures input.email != Some(after[k].email)
      {
        if k == |users| {
          assert after[k].email == env.normalizeEmail(input.email.value);
        } else {
          assert after[k] == users[k];
        }
      }
    }
  }

  /** A password the register chain accepts also meets the schema's
      minlength: the chain counts code points less variation selectors,
      the schema UTF-16 code units, and the first never exceeds the second. */
  lemma {:induction false} RegisterValidPasswordMeetsSchema(env: Env, input: RegisterInput)
    requires RegisterErrors(env, input) == []
    ensures input.password.Some? && Utf16Length(input.password.value) >= PASSWORD_MIN_LENGTH
  {
    ValidatorLengthAtMostUtf16(input.password.value);
  }

  /** The converse does not hold for usernames: the chain's maximum of 30
      is on the raw value in code points, the schema's on the trimmed value
      in UTF-16 code units, so a username the chain accepts can still fail
      the schema, which the error handler answers 400 with the schema's
      message rather than the chain's. */
  lemma LongAstralUsernameFailsSchema(env: Env, users: seq<User>, input: RegisterInput, freshId: Id, now: nat)
    requires RegisterErrors(env, input) == [] && input.email.Some?
    requires FindUserByEmailOrUsername(users, Some(env.normalizeEmail(input.email.value)), QueryUsername(input.username)).None?
    requires Utf16Length(Trim(input.username.value)) > USERNAME_MAX_LENGTH
    ensures var o := RegisterRouteOutcome(env, users, input, freshId, now);
      o.reply.status == 400 && o.users == users
      && o.reply.body.MessageAndStack? && o.reply.body.message != USERNAME_LENGTH
  {
    var s := SanitizeRegister(env, input);
    var messages := UserSchemaMessages(Trim(input.username.value), s.email.value, input.password.value);
    assert messages != [];
    assert messages[0] == "Username cannot be more than 30 characters";
  }

  /** Register on the database: run the chains, sanitise, then registerUser. */
  method Register(env: Env, db: Db, input: RegisterInput, freshId: Id, now: nat) returns (r: Reply<AuthPayload>)
    requires db.Valid()
    modifies db`users
    ensures var o := RegisterRouteOutcome(env, old(db.users), input, freshId, now);
      r == o.reply && db.users == o.users
    ensures db.Valid()
  {
    var errors := RegisterErrors(env, input);
    r := RegisterUser(env, db, errors, SanitizeRegister(env, input), freshId, now);
  }

  /** validationResult after loginValidation's chains. */
  function LoginErrors(env: Env, input: LoginInput): (errs: seq<FieldError>)
    ensures errs == [] <==> env.isEmail(input.email.GetOr("")) && input.password.Some? && input.password.value != ""
    ensures forall e :: e in errs ==> e.msg in {EMAIL_INVALID, PASSWORD_REQUIRED}
  {
    Check("email", env.isEmail(input.email.GetOr("")), EMAIL_INVALID)
    + Check("password", input.password.GetOr("") != "", PASSWORD_REQUIRED)
  }

  /** router.post('/login', loginValidation, loginUser): the chains run but
      their result is never consulted. */
  function LoginRoute(env: Env, users: seq<User>, input: LoginInput, now: nat): (r: Reply<AuthPayload>)
    ensures r.status in {200, 401, 500}
    ensures !r.body.MessageAndErrors?
  {
    var _ := LoginErrors(env, input);
    LoginUser(env, users, input, now)
  }

  /** A body the login chains reject is still looked up and checked: with
      a stored email and the right password it logs in, even with an email
      isEmail refuses. */
  lemma LoginIgnoresValidation(env: Env, users: seq<User>, input: LoginInput, now: nat, plain: string)
    requires Sound(env)
    requires LoginErrors(env, input) != []
    requires FindUserByEmail(users, input.email).Some?
    requires users[FindUserByEmail(users, input.email).value].password == env.hash(plain)
    requires input.password == Some(plain)
    ensures LoginRoute(env, users, input, now).status == 200
  {
  }
}
