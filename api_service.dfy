/** client/src/apiService.js: the request interceptor that attaches the
    stored token, the error-message selector every call wrapper falls back
    on, and the wrappers' resolution with response.data. */
module ApiService {
  import opened Base
  import opened Http
  import opened AuthContext

  const UNAUTHORIZED: string := "Unauthorized: Please log in."
  const NO_RESPONSE: string := "No response from server. Check API connection."
  const REQUEST_FAILED_PREFIX: string := "Request failed with status code "

  /** The Authorization value the client builds: `Bearer ${token}`. */
  function BearerHeader(token: string): (h: string)
    ensures h == "Bearer " + token
    ensures |h| == |token| + 7 && h[7..] == token
  {
    "Bearer " + token
  }

  /** The outgoing request's config; the interceptor writes its headers. */
  class RequestConfig {
    var headers: map<string, string>

    constructor(headers: map<string, string>)
      ensures this.headers == headers
    {
      this.headers := headers;
    }
  }

  /** The headers after the interceptor: Authorization set from a truthy
      stored token, every other header kept; with no token (or an empty
      one) the headers are left as they were. */
  function InterceptedHeaders(items: map<string, string>, headers: map<string, string>): (r: map<string, string>)
    ensures "token" in items && items["token"] != "" ==>
      "Authorization" in r && r["Authorization"] == BearerHeader(items["token"])
    ensures !("token" in items && items["token"] != "") ==> r == headers
    ensures forall k :: k != "Authorization" ==> (k in r <==> k in headers) && (k in headers ==> r[k] == headers[k])
  {
    if "token" in items && items["token"] != "" then headers["Authorization" := BearerHeader(items["token"])]
    else headers
  }

  /** The request interceptor: reads the token from storage and sets the
      header in place; the same config object is passed on. */
  method Intercept(storage: Storage, config: RequestConfig) returns (out: RequestConfig)
    modifies config
    ensures out == config
    ensures config.headers == InterceptedHeaders(storage.items, old(config.headers))
  {
    var token := storage.GetItem("token");
    if token.Some? && token.value != "" {
      config.headers := config.headers["Authorization" := BearerHeader(token.value)];
    }
    out := config;
  }

  /** How a request ended, as axios reports it: a response (with the
      server's status and body), a request that got no response, or an
      error raised before sending. */
  datatype Transport<T> = Answered(reply: Reply<T>) | NoAnswer | NotSent(message: string)

  /** The error axios rejects with: error.response (status and data.message),
      error.request only, or neither. */
  datatype AxiosError = ResponseError(status: nat, dataMessage: Option<string>) | NoResponse | SetupError(message: string)

  /** A settled promise: resolved with a value, or rejected with an Error
      carrying a message. */
  datatype Settled<T> = Resolved(value: T) | Rejected(message: string)

  /** handleAxiosError: the server's message if it sent a non-empty one,
      else a fixed text for 401, else the status; the fixed text for no
      response; the error's own message otherwise. It always rejects. */
  function HandleAxiosError<T>(e: AxiosError): (r: Settled<T>)
    ensures r.Rejected?
    ensures e.ResponseError? && e.dataMessage.Some? && e.dataMessage.value != "" ==> r.message == e.dataMessage.value
    ensures e.ResponseError? && !(e.dataMessage.Some? && e.dataMessage.value != "") && e.status == 401 ==> r.message == UNAUTHORIZED
    ensures e.ResponseError? && !(e.dataMessage.Some? && e.dataMessage.value != "") && e.status != 401 ==>
      r.message == REQUEST_FAILED_PREFIX + NatToString(e.status)
    ensures e.NoResponse? ==> r.message == NO_RESPONSE
    ensures e.SetupError? ==> r.message == e.message
  {
    match e
    case ResponseError(status, dataMessage) =>
      if dataMessage.Some? && dataMessage.value != "" then Rejected(dataMessage.value)
      else if status == 401 then Rejected(UNAUTHORIZED)
      else Rejected(REQUEST_FAILED_PREFIX + NatToString(status))
    case NoResponse => Rejected(NO_RESPONSE)
    case SetupError(message) => Rejected(message)
  }

  /** axios's default validateStatus: only 2xx resolves. */
  predicate IsSuccess(status: nat) {
    200 <= status < 300
  }

  /** One call wrapper (registerUser, loginUser, fetchPosts, ... ,
      createComment): `return response.data` on a 2xx response, otherwise
      `return handleAxiosError(error)`. */
  function Call<T>(t: Transport<T>): (r: Settled<Body<T>>)
    ensures r.Resolved? <==> t.Answered? && IsSuccess(t.reply.status)
    ensures r.Resolved? ==> r.value == t.reply.body
    ensures t.Answered? && !IsSuccess(t.reply.status) ==> r == HandleAxiosError(ResponseError(t.reply.status, MessageOf(t.reply.body)))
    ensures t.NoAnswer? ==> r == Rejected(NO_RESPONSE)
  {
    match t
    case Answered(reply) =>
      if IsSuccess(reply.status) then Resolved(reply.body)
      else HandleAxiosError(ResponseError(reply.status, MessageOf(reply.body)))
    case NoAnswer => HandleAxiosError(NoResponse)
    case NotSent(message) => HandleAxiosError(SetupError(message))
  }

  /** A rejected call's message is never empty when the server sent a
      message-less error body or no response came: the fallback texts are
      always there. */
  lemma {:induction false} FallbackMessagesAreNonEmpty<T>(status: nat, body: Body<T>)
    requires !IsSuccess(status) && MessageOf(body).None?
    ensures Call(Answered(Reply(status, body))).message != ""
  {
    if status != 401 {
      assert (REQUEST_FAILED_PREFIX + NatToString(status))[0] == 'R';
    }
  }

  /** An error reply whose body has no message names its status: the
      status can be read back from the client's message. */
  lemma {:induction false} StatusReadsBackFromMessage<T>(status: nat, body: Body<T>)
    requires !IsSuccess(status) && status != 401 && MessageOf(body).None?
    ensures var m := Call(Answered(Reply(status, body))).message;
      && |m| >= |REQUEST_FAILED_PREFIX|
      && m[..|REQUEST_FAILED_PREFIX|] == REQUEST_FAILED_PREFIX
      && ParseNat(m[|REQUEST_FAILED_PREFIX|..]) == status
  {
    var m := REQUEST_FAILED_PREFIX + NatToString(status);
    assert m[|REQUEST_FAILED_PREFIX|..] == NatToString(status);
    NatToStringRoundTrip(status);
  }
}
