/** server/middleware/errorHandler.js: the last middleware, which turns an
    error passed to next(err) into a JSON reply. */
module ErrorHandler {
  import opened Base
  import opened Http

  const UNKNOWN_SERVER_ERROR: string := "An unknown server error occurred."
  const INVALID_RESOURCE_ID: string := "Invalid resource ID format."

  /** The parts of a thrown error the handler reads: `name`, `kind` (set on
      mongoose CastErrors), `message`, the messages of `errors` (set on
      mongoose ValidationErrors, in the order the paths failed), `code` (set
      on driver errors such as duplicate keys) and `stack`. */
  datatype JsError = JsError(
    name: string,
    kind: Option<string>,
    message: string,
    fieldMessages: seq<string>,
    code: Option<int>,
    stack: string)

  /** A mongoose ValidationError carrying the failed paths' messages. */
  function ValidationError(messages: seq<string>): (e: JsError)
    ensures e.name == "ValidationError" && e.fieldMessages == messages
  {
    var message := "Validation failed: " + Join(messages, ", ");
    JsError("ValidationError", None, message, messages, None, "ValidationError: " + message)
  }

  /** The MongoServerError a unique index raises on a second equal key. */
  const DUPLICATE_KEY_CODE: int := 11000
  const DUPLICATE_KEY_MESSAGE: string := "E11000 duplicate key error"

  function DuplicateKeyError(): (e: JsError)
    ensures e.name != "ValidationError" && e.name != "CastError"
    ensures e.code == Some(DUPLICATE_KEY_CODE) && e.message != ""
  {
    JsError("MongoServerError", None, DUPLICATE_KEY_MESSAGE, [], Some(DUPLICATE_KEY_CODE),
            "MongoServerError: " + DUPLICATE_KEY_MESSAGE)
  }

  /** The TypeError a handler throws when it reads `req.user._id` while
      `req.user` is null. */
  const NULL_USER_MESSAGE: string := "Cannot read properties of null (reading '_id')"

  function NullUserError(): (e: JsError)
    ensures e.name != "ValidationError" && e.name != "CastError" && e.message != ""
  {
    JsError("TypeError", None, NULL_USER_MESSAGE, [], None, "TypeError: " + NULL_USER_MESSAGE)
  }

  /** The error bcrypt.compare throws when the candidate is undefined. */
  const MISSING_ARGUMENTS_MESSAGE: string := "data and hash arguments required"

  function MissingArgumentsError(): (e: JsError)
    ensures e.name != "ValidationError" && e.name != "CastError" && e.message != ""
  {
    JsError("Error", None, MISSING_ARGUMENTS_MESSAGE, [], None, "Error: " + MISSING_ARGUMENTS_MESSAGE)
  }

  /** errorHandler(err, req, res, next) when the response status is
      `resStatus` and NODE_ENV is 'production' exactly when `production`. */
  function HandleError<T>(err: JsError, resStatus: nat, production: bool): (r: Reply<T>)
    ensures r.body.MessageAndStack?
    ensures r.body.stack.None? <==> production
    ensures !production ==> r.body.stack == Some(err.stack)
    ensures err.name == "ValidationError" ==>
      r.status == 400 && r.body.message == Join(err.fieldMessages, "; ")
    ensures err.name == "CastError" && err.kind == Some("ObjectId") ==>
      r.status == 400 && r.body.message == INVALID_RESOURCE_ID
    ensures err.name != "ValidationError" && !(err.name == "CastError" && err.kind == Some("ObjectId")) ==>
      && r.status == (if resStatus == 200 then 500 else resStatus)
      && r.body.message == (if err.message != "" then err.message else UNKNOWN_SERVER_ERROR)
  {
    var status := if resStatus == 200 then 500 else resStatus;
    var message := if err.message != "" then err.message else UNKNOWN_SERVER_ERROR;
    var (status, message) :=
      if err.name == "CastError" && err.kind == Some("ObjectId") then (400, INVALID_RESOURCE_ID)
      else (status, message);
    var (status, message) :=
      if err.name == "ValidationError" then (400, Join(err.fieldMessages, "; "))
      else (status, message);
    Reply(status, MessageAndStack(message, if production then None else Some(err.stack)))
  }

  /** The reply always carries a message, and an error status: never 2xx
      once the response status has not been set to one. */
  lemma {:induction false} HandledErrorIsClientVisible<T>(err: JsError, resStatus: nat, production: bool)
    requires resStatus == 200 || resStatus >= 400
    requires err.name == "ValidationError" ==> exists i :: 0 <= i < |err.fieldMessages| && err.fieldMessages[i] != ""
    ensures var r: Reply<T> := HandleError(err, resStatus, production);
      && r.status >= 400
      && r.body.message != ""
  {
    var r: Reply<T> := HandleError(err, resStatus, production);
    if err.name == "ValidationError" {
      var i :| 0 <= i < |err.fieldMessages| && err.fieldMessages[i] != "";
      JoinNonEmpty(err.fieldMessages, "; ", i);
    }
  }
}
