/**
 What a remote procedure call looks like from each end. A server handler
 produces a `HandlerReply`: a status code, a details text and a response body
 (the code and details are what the handler set on its context). The calling
 side sees an `Outcome`: the body when the status is OK, otherwise a failure.
 */
module Rpc {

  /** The status codes the handlers in this system can set */
  datatype StatusCode = OkCode | NotFoundCode

  datatype HandlerReply<T> = HandlerReply(code: StatusCode, details: string, body: T)

  /**
   The result of one call as the caller's code observes it. `RpcNotFound` and
   `TransportFail` arrive as `grpc.RpcError`; `LocalFail` is any other
   exception raised inside the caller's `try` block around the call (building
   the request message, for instance).
   */
  datatype Outcome<+T> =
    | Ok(value: T)
    | RpcNotFound(details: string)
    | TransportFail(msg: string)
    | LocalFail(msg: string)
  {
    /** Raised as `grpc.RpcError` */
    predicate IsRpcError() {
      RpcNotFound? || TransportFail?
    }

    /** The text `str(e)` of the raised exception, as far as the model keeps it */
    function Message(): string
      requires !Ok?
    {
      match this
      case RpcNotFound(d) => d
      case TransportFail(m) => m
      case LocalFail(m) => m
    }
  }

  /** Whether the remote endpoint can be reached */
  datatype Link = Up | Down(reason: string)

  /** A handler's reply when it leaves the status at its default, OK */
  function Reply<T>(body: T): HandlerReply<T> {
    HandlerReply(OkCode, "", body)
  }

  /**
   The RPC runtime between a handler and its caller: over a working link an OK
   reply delivers its body, and any other status raises an error carrying the
   details (the body is dropped); a broken link fails in transport and no
   handler runs.
   */
  function Deliver<T>(link: Link, reply: HandlerReply<T>): (o: Outcome<T>)
    ensures o.Ok? <==> link.Up? && reply.code == OkCode
    ensures o.Ok? ==> o.value == reply.body
    ensures link.Up? && reply.code == NotFoundCode ==> o == RpcNotFound(reply.details)
    ensures link.Down? ==> o == TransportFail(link.reason)
    ensures !o.Ok? ==> o.IsRpcError()
  {
    match link
    case Down(reason) => TransportFail(reason)
    case Up =>
      match reply.code
      case OkCode => Ok(reply.body)
      case NotFoundCode => RpcNotFound(reply.details)
  }

  /** A reply that leaves the status at OK reaches the caller as its body, unless the link is down */
  lemma DeliverReply<T>(link: Link, body: T)
    ensures link.Up? ==> Deliver(link, Reply(body)) == Ok(body)
    ensures link.Down? ==> Deliver(link, Reply(body)) == TransportFail(link.reason)
  {
  }
}
