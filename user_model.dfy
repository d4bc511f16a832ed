/** server/models/User.js: a user document, its schema, the pre-save hook
    that hashes the password, and comparePassword. */
module UserModel {
  import opened Base
  import opened Collaborators

  const USERNAME_MAX_LENGTH: nat := 30
  const PASSWORD_MIN_LENGTH: nat := 6

  datatype User = User(
    id: Id,
    username: string,
    email: string,
    password: string,  // the bcrypt hash once saved
    createdAt: nat)    // defaults to the creation time

  /** A user as User.findById(..).select('-password') returns it. */
  datatype PublicUser = PublicUser(id: Id, username: string, email: string, createdAt: nat)

  function WithoutPassword(u: User): (p: PublicUser)
    ensures p.id == u.id && p.username == u.username && p.email == u.email
  {
    PublicUser(u.id, u.username, u.email, u.createdAt)
  }

  /** The characters a regular expression's `.` does not match. */
  predicate IsLineTerminator(c: char) {
    c == '\n' || c == '\r' || c == '\U{2028}' || c == '\U{2029}'
  }

  /** No line terminator among s[lo..hi]. */
  predicate NoLineTerminatorBetween(s: string, lo: int, hi: int)
    requires 0 <= lo <= hi <= |s|
  {
    forall k :: lo <= k < hi ==> !IsLineTerminator(s[k])
  }

  /** An '@' at `at` preceded by a character, a '.' at `dot` followed by a
      character, at least one character between them, none of these a line
      terminator. */
  predicate EmailShapeAt(s: string, at: int, dot: int) {
    && 0 < at && at + 1 < dot < |s| - 1
    && s[at] == '@' && s[dot] == '.'
    && !IsLineTerminator(s[at - 1]) && !IsLineTerminator(s[dot + 1])
    && NoLineTerminatorBetween(s, at + 1, dot)
  }

  /** The schema's `match: /.+@.+\..+/`: the shape occurs somewhere in `s`. */
  predicate MatchesEmailPattern(s: string) {
    exists at: int, dot: int | 0 < at < dot < |s| - 1 :: EmailShapeAt(s, at, dot)
  }

  /** A username as a query filter holds it: mongoose casts a filter value
      on a String path through the path's setters, so `trim: true` trims it
      there as it trims it on a document. */
  function QueryUsername(username: Option<string>): Option<string> {
    if username.Some? then Some(Trim(username.value)) else None
  }

  /** The ValidationError messages for saving a user, in schema order; the
      username is the trimmed value, the password the plain text (validation
      runs before the pre-save hook). */
  function UserSchemaMessages(username: string, email: string, password: string): (ms: seq<string>)
    ensures |ms| <= 3
    ensures ms == [] <==>
      && username != "" && Utf16Length(username) <= USERNAME_MAX_LENGTH
      && email != "" && MatchesEmailPattern(email)
      && Utf16Length(password) >= PASSWORD_MIN_LENGTH
  {
    (if username == "" then ["Username is required"]
     else if Utf16Length(username) > USERNAME_MAX_LENGTH then ["Username cannot be more than 30 characters"]
     else [])
    + (if email == "" then ["Email is required"]
       else if !MatchesEmailPattern(email) then ["Please enter a valid email address"]
       else [])
    + (if password == "" then ["Password is required"]
       else if Utf16Length(password) < PASSWORD_MIN_LENGTH then ["Password must be at least 6 characters long"]
       else [])
  }

  /** What a stored user satisfies. */
  predicate UserConforms(u: User) {
    && Trim(u.username) == u.username && u.username != "" && Utf16Length(u.username) <= USERNAME_MAX_LENGTH
    && MatchesEmailPattern(u.email)
  }

  /** A user document before it is saved: the fields as set, and whether
      the password path has been modified since the last save. */
  class UserDocument {
    var username: string
    var email: string
    var password: string
    var passwordModified: bool

    /** User.create({ username, email, password }): the username setter
        trims, and every path of a new document counts as modified. */
    constructor(username: string, email: string, password: string)
      ensures this.username == Trim(username) && this.email == email && this.password == password
      ensures passwordModified
    {
      this.username := Trim(username);
      this.email := email;
      this.password := password;
      passwordModified := true;
    }

    /** The pre('save') hook: a modified password is replaced by its hash,
        an unmodified one is left as it is; nothing else changes. */
    method HashPasswordBeforeSave(env: Env)
      modifies this`password
      ensures password == if passwordModified then env.hash(old(password)) else old(password)
    {
      if !passwordModified {
        return;
      }
      password := env.hash(password);
    }

    /** comparePassword(candidate): bcrypt.compare against the stored hash.
        With a sound bcrypt, a stored hash of `p` accepts exactly `p`. */
    function ComparePassword(env: Env, candidate: string): (ok: bool)
      reads this
      ensures forall p :: Sound(env) && password == env.hash(p) ==> (ok <==> candidate == p)
    {
      env.compare(candidate, password)
    }

    /** A successful save leaves no path modified. */
    method MarkSaved()
      modifies this`passwordModified
      ensures !passwordModified
    {
      passwordModified := false;
    }

    /** The document as the store holds it once saved. */
    function Saved(id: Id, now: nat): (u: User)
      reads this
      ensures u.id == id && u.username == username && u.email == email && u.password == password
      ensures u.createdAt == now
    {
      User(id, username, email, password, now)
    }
  }

  /** A new document with `password` is saved, then saved again with its
      password untouched: after each save comparePassword accepts exactly
      `password`. The hook hashes the new password once, and the second save
      does not hash the hash, because the password is no longer modified. */
  method PasswordAcceptedAfterEachSave(env: Env, username: string, email: string, password: string, candidate: string)
      returns (afterFirst: bool, afterSecond: bool)
    requires Sound(env)
    ensures afterFirst <==> candidate == password
    ensures afterSecond <==> candidate == password
  {
    var doc := new UserDocument(username, email, password);
    doc.HashPasswordBeforeSave(env);
    afterFirst := doc.ComparePassword(env, candidate);
    doc.MarkSaved();
    doc.HashPasswordBeforeSave(env);
    afterSecond := doc.ComparePassword(env, candidate);
  }
}
