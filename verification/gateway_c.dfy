/** The web front end of service C: `POST /api/data` relays one echo call */
module GatewayC {
  import opened Wrappers
  import opened Json
  import opened Rpc
  import opened Echo

  /**
   `call_service`: the name goes unchanged into a `RequestMsg`; a success
   returns the reply's message as is, a failure returns only an error field.
   */
  function CallService(stub: RequestMsg -> Outcome<ReplyMsg>, name: string): (r: Value)
    ensures stub(RequestMsg(name)).Ok? ==>
      Keys(r) == ["message"] && StrAt(r, "message") == Some(stub(RequestMsg(name)).value.message)
    ensures !stub(RequestMsg(name)).Ok? ==>
      Keys(r) == ["error"] && Lookup(r, "message") == None && StrAt(r, "error") == Some(stub(RequestMsg(name)).Message())
  {
    var outcome := stub(RequestMsg(name));
    match outcome
    case Ok(reply) => Object([Field("message", Str(reply.message))])
    case _ => Object([Field("error", Str(outcome.Message()))])
  }
}
