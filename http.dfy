/** The JSON replies the API sends: a status code and one of the body shapes
    the handlers write with res.status(..).json(..) or res.send(). */
module Http {
  import opened Base

  /** One entry of express-validator's errors.array(): the field and the
      message attached with withMessage. */
  datatype FieldError = FieldError(path: string, msg: string)

  datatype Body<T> =
    | Data(value: T)                                           // the resource itself
    | Message(message: string)                                 // { message }
    | Errors(errors: seq<FieldError>)                          // { errors: [...] }
    | MessageAndErrors(message: string, errors: seq<FieldError>) // { message, errors }
    | MessageAndStack(message: string, stack: Option<string>)  // the central error handler's body
    | NoContent                                                // res.status(204).send()

  datatype Reply<T> = Reply(status: nat, body: Body<T>)

  /** `data.message` of a reply body as a client reads it; a resource body
      carries no top-level message. */
  function MessageOf<T>(b: Body<T>): (m: Option<string>)
    ensures m.Some? <==> (b.Message? || b.MessageAndErrors? || b.MessageAndStack?)
  {
    match b
    case Message(msg) => Some(msg)
    case MessageAndErrors(msg, _) => Some(msg)
    case MessageAndStack(msg, _) => Some(msg)
    case _ => None
  }

  /** What an express middleware does: call next(), or answer itself. */
  datatype Step<T> = Next | Respond(reply: Reply<T>)
}
