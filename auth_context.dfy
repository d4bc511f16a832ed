/** client/src/context/AuthContext.jsx: the client's session, held in three
    pieces of state and mirrored into localStorage so that a reload restores
    it. */
module AuthContext {
  import opened Base

  /** The user object the server returns, as string-valued fields; an
      undefined field is an absent key. */
  type UserData = map<string, string>

  /** JSON.stringify and JSON.parse as the client uses them on a user
      object; parse answers None for the stored text "null" and for
      anything that is not an object. */
  datatype Json = Json(stringify: UserData -> string, parse: string -> Option<UserData>)

  /** What the session relies on JSON for: parsing what stringify wrote
      gives back the same object. */
  ghost predicate JsonRoundTrips(json: Json) {
    forall u: UserData :: json.parse(json.stringify(u)) == Some(u)
  }

  /** localStorage: a string-to-string store. */
  class Storage {
    var items: map<string, string>

    constructor(items: map<string, string>)
      ensures this.items == items
    {
      this.items := items;
    }

    /** getItem(key): the stored string, or null. */
    function GetItem(key: string): (v: Option<string>)
      reads this
      ensures v.Some? <==> key in items
      ensures v.Some? ==> v.value == items[key]
    {
      if key in items then Some(items[key]) else None
    }

    method SetItem(key: string, value: string)
      modifies this
      ensures items == old(items)[key := value]
    {
      items := items[key := value];
    }

    method RemoveItem(key: string)
      modifies this
      ensures items == old(items) - {key}
    {
      items := items - {key};
    }
  }

  /** `{ ...userData, _id: userData._id || userData.id }`: a non-empty _id
      is kept, otherwise _id takes the value of id, and with no id either
      the _id key is dropped (an undefined field is not serialised). Every
      other field is kept as it is. */
  function Normalize(u: UserData): (r: UserData)
    ensures forall k :: k != "_id" ==> (k in r <==> k in u)
    ensures forall k :: k != "_id" && k in u ==> r[k] == u[k]
    ensures ("_id" in r) <==> ("_id" in u && u["_id"] != "") || "id" in u
    ensures "_id" in u && u["_id"] != "" ==> r["_id"] == u["_id"]
    ensures !("_id" in u && u["_id"] != "") && "id" in u ==> r["_id"] == u["id"]
  {
    if "_id" in u && u["_id"] != "" then u
    else if "id" in u then u["_id" := u["id"]]
    else u - {"_id"}
  }

  /** Normalising a normalised user changes nothing. */
  lemma NormalizeIdempotent(u: UserData)
    ensures Normalize(Normalize(u)) == Normalize(u)
  {
    var n := Normalize(u);
    if !("_id" in u && u["_id"] != "") && "id" in u {
      assert n["_id"] == u["id"] && n["id"] == u["id"];
      if n["_id"] == "" {
        assert Normalize(n) == n["_id" := n["id"]];
        assert n["_id" := n["id"]] == n;
      }
    }
  }

  /** A server reply's user ({ id, username, email }) gets an _id equal to
      its id. */
  lemma NormalizeSetsIdFromServerId(u: UserData)
    requires "id" in u && "_id" !in u
    ensures "_id" in Normalize(u) && Normalize(u)["_id"] == u["id"]
  {
  }

  /** The stored text of setItem('token', jwtToken): an undefined token is
      coerced to the string "undefined". */
  function StoredToken(jwtToken: Option<string>): (s: string)
    ensures jwtToken.Some? ==> s == jwtToken.value
    ensures jwtToken.None? ==> s == "undefined"
  {
    jwtToken.GetOr("undefined")
  }

  /** The initial user: JSON.parse(getItem('user')) || null. */
  function InitialUser(json: Json, items: map<string, string>): (u: Option<UserData>)
    ensures "user" !in items ==> u.None?
    ensures "user" in items ==> u == json.parse(items["user"])
  {
    if "user" in items then json.parse(items["user"]) else None
  }

  /** The initial token: getItem('token') || null, so an empty stored token
      is no token. */
  function InitialToken(items: map<string, string>): (t: Option<string>)
    ensures t.Some? <==> "token" in items && items["token"] != ""
    ensures t.Some? ==> t.value == items["token"]
  {
    if "token" in items && items["token"] != "" then Some(items["token"]) else None
  }

  /** localStorage after login(userData, jwtToken). */
  function StorageAfterLogin(json: Json, items: map<string, string>, userData: UserData, jwtToken: Option<string>): (r: map<string, string>)
    ensures "user" in r && r["user"] == json.stringify(Normalize(userData))
    ensures "token" in r && r["token"] == StoredToken(jwtToken)
    ensures forall k :: k != "user" && k != "token" ==> (k in r <==> k in items) && (k in items ==> r[k] == items[k])
  {
    items["user" := json.stringify(Normalize(userData))]["token" := StoredToken(jwtToken)]
  }

  /** localStorage after logout(): only 'user' and 'token' are removed. */
  function StorageAfterLogout(items: map<string, string>): (r: map<string, string>)
    ensures "user" !in r && "token" !in r
    ensures forall k :: k != "user" && k != "token" ==> (k in r <==> k in items) && (k in items ==> r[k] == items[k])
  {
    items - {"user", "token"}
  }

  /** The AuthProvider's state. */
  class Session {
    var user: Option<UserData>
    var token: Option<string>
    var isAuthenticated: bool

    /** The initial state read from storage; authenticated exactly when a
        token was stored, whatever the stored user. */
    constructor(json: Json, storage: Storage)
      ensures user == InitialUser(json, storage.items)
      ensures token == InitialToken(storage.items)
      ensures isAuthenticated <==> token.Some?
    {
      var stored := storage.GetItem("user");
      user := if stored.Some? then json.parse(stored.value) else None;
      var initialToken := InitialToken(storage.items);
      token := initialToken;
      isAuthenticated := initialToken.Some?;
    }

    /** login(userData, jwtToken): the normalised user and the token go
        into the state and into storage, and the session is authenticated. */
    method Login(json: Json, storage: Storage, userData: UserData, jwtToken: Option<string>)
      modifies this, storage
      ensures user == Some(Normalize(userData)) && token == jwtToken && isAuthenticated
      ensures storage.items == StorageAfterLogin(json, old(storage.items), userData, jwtToken)
    {
      var normalized := Normalize(userData);
      user := Some(normalized);
      token := jwtToken;
      isAuthenticated := true;
      storage.SetItem("user", json.stringify(normalized));
      storage.SetItem("token", StoredToken(jwtToken));
    }

    /** logout(): the state is cleared and the two keys are removed. */
    method Logout(storage: Storage)
      modifies this, storage
      ensures user.None? && token.None? && !isAuthenticated
      ensures storage.items == StorageAfterLogout(old(storage.items))
    {
      user := None;
      token := None;
      isAuthenticated := false;
      storage.RemoveItem("user");
      storage.RemoveItem("token");
    }
  }

  /** A reload after a login with a non-empty token restores the same
      user, token and authentication. */
  lemma ReloadAfterLoginRestoresSession(json: Json, items: map<string, string>, userData: UserData, jwtToken: string)
    requires JsonRoundTrips(json) && jwtToken != ""
    ensures var stored := StorageAfterLogin(json, items, userData, Some(jwtToken));
      && InitialUser(json, stored) == Some(Normalize(userData))
      && InitialToken(stored) == Some(jwtToken)
  {
    var n := Normalize(userData);
    assert json.parse(json.stringify(n)) == Some(n);
  }

  /** The exceptions: an empty token leaves the session authenticated until
      a reload, which finds no token; an undefined token is stored as the
      text "undefined", which a reload takes for a token. */
  lemma ReloadAfterLoginWithoutToken(json: Json, items: map<string, string>, userData: UserData)
    ensures InitialToken(StorageAfterLogin(json, items, userData, Some(""))) == None
    ensures InitialToken(StorageAfterLogin(json, items, userData, None)) == Some("undefined")
  {
  }

  /** A reload after logout is logged out, and logout leaves every other
      stored key as it was. */
  lemma ReloadAfterLogoutIsLoggedOut(json: Json, items: map<string, string>)
    ensures InitialUser(json, StorageAfterLogout(items)) == None
    ensures InitialToken(StorageAfterLogout(items)) == None
    ensures forall k :: k in items && k != "user" && k != "token" ==> k in StorageAfterLogout(items) && StorageAfterLogout(items)[k] == items[k]
  {
  }
}
