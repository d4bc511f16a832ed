/** The foreign libraries the server calls, as functions handed to the model:
    bcrypt, jsonwebtoken, mongoose's ObjectId casting and CastError messages,
    and express-validator's isEmail and normalizeEmail. Their internals are
    not modelled; what the server relies on them for is stated once, in
    `Sound`, and only the lemmas that need those facts assume it.
    express-validator's isMongoId is simple enough to be given outright. */
module Collaborators {
  import opened Base

  /** jsonwebtoken's expiresIn: '1d', in seconds. */
  const TOKEN_LIFETIME: nat := 86400

  datatype Env = Env(
    isObjectId: string -> bool,          // mongoose.Types.ObjectId.isValid, and what findById can cast
    castId: string -> Id,                // the ObjectId such a value casts to, as its toString()
    isEmail: string -> bool,             // express-validator isEmail()
    normalizeEmail: string -> string,    // express-validator normalizeEmail()
    hash: string -> string,              // bcrypt.genSalt(10) then bcrypt.hash (the salt is abstracted)
    compare: (string, string) -> bool,   // bcrypt.compare(candidate, storedHash)
    sign: (Id, nat) -> string,           // jwt.sign({ id }, secret, { expiresIn: '1d' }) at a time
    verify: (string, nat) -> Option<Id>, // jwt.verify(token, secret) at a time: the id, or a throw
    castMessage: (string, string) -> string, // the message of mongoose's CastError for a value at a path
    production: bool                     // process.env.NODE_ENV === 'production'
  )

  predicate IsHexDigit(c: char) {
    ('0' <= c <= '9') || ('a' <= c <= 'f') || ('A' <= c <= 'F')
  }

  /** validator.js isHexadecimal, /^(0x|0h)?[0-9A-F]+$/i: at least one
      hexadecimal digit, after an optional 0x or 0h prefix in either case. */
  predicate IsHexadecimal(s: string) {
    var digits := if |s| >= 2 && s[0] == '0' && s[1] in {'x', 'X', 'h', 'H'} then s[2..] else s;
    digits != [] && forall i :: 0 <= i < |digits| ==> IsHexDigit(digits[i])
  }

  /** express-validator's isMongoId: isHexadecimal and 24 characters long,
      the prefix included, so "0x" and 22 digits pass. */
  predicate IsMongoId(s: string) {
    IsHexadecimal(s) && |s| == 24
  }

  /** A string of isMongoId that is not 24 hexadecimal digits: nothing ties
      isMongoId to what mongoose can cast. */
  lemma {:induction false} PrefixedMongoId()
    ensures var s := "0x0123456789abcdef012345";
      IsMongoId(s) && !IsHexDigit(s[1])
  {
    var s := "0x0123456789abcdef012345";
    var digits := s[2..];
    assert digits == "0123456789abcdef012345";
    assert forall i :: 0 <= i < |digits| ==> IsHexDigit(digits[i]);
  }

  /** What the server relies on its collaborators for:
      - bcrypt.compare accepts a candidate exactly when it is the password
        that was hashed;
      - a token signed for `id` at time `t` verifies to `id` until one day
        later and is refused from then on (jsonwebtoken rejects once
        now >= exp); it is a non-empty string without spaces (three base64url
        segments joined by dots);
      - the empty string is not a valid ObjectId, and a valid one casts to
        a non-empty id. */
  ghost predicate Sound(env: Env) {
    && (forall candidate: string, password: string :: env.compare(candidate, env.hash(password)) == (candidate == password))
    && (forall id: Id, t: nat, now: nat :: env.verify(env.sign(id, t), now) == if now < t + TOKEN_LIFETIME then Some(id) else None)
    && (forall id: Id, t: nat :: env.sign(id, t) != "" && ' ' !in env.sign(id, t))
    && !env.isObjectId("")
    && (forall s :: env.isObjectId(s) ==> env.castId(s) != "")
  }
}
