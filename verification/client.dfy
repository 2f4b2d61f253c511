/**
 `UserServiceClient`, the command-line client of service B. Each method sends
 one RPC and returns the response, or None when the call raised
 `grpc.RpcError`; any other exception is not caught and reaches the caller.
 */
module Client {
  import opened Wrappers
  import opened Users
  import opened Rpc

  /** What a client method does: return a value (possibly None) or let an exception through */
  datatype ClientResult<+T> = Returns(result: Option<T>) | Raises(error: string)

  /** The `try ... except grpc.RpcError: return None` around each call */
  function Catch<T>(outcome: Outcome<T>): ClientResult<T> {
    match outcome
    case Ok(response) => Returns(Some(response))
    case LocalFail(msg) => Raises(msg)
    case _ => Returns(None)
  }

  /** `get_user`: the id goes unchanged into a `UserRequest` */
  function GetUser(stub: UserRequest -> Outcome<User>, userId: int): (r: ClientResult<User>)
    ensures stub(UserRequest(userId)).Ok? <==> r.Returns? && r.result.Some?
    ensures r.Returns? && r.result.Some? ==> r.result.value == stub(UserRequest(userId)).value
    ensures r == Returns(None) <==> stub(UserRequest(userId)).IsRpcError()
    ensures r.Raises? <==> stub(UserRequest(userId)).LocalFail?
  {
    Catch(stub(UserRequest(userId)))
  }

  /** `create_user`: name, email and age go unchanged into a `CreateUserRequest` */
  function CreateUser(stub: NewUser -> Outcome<User>, name: string, email: string, age: int): (r: ClientResult<User>)
    ensures stub(NewUser(name, email, age)).Ok? <==> r.Returns? && r.result.Some?
    ensures r.Returns? && r.result.Some? ==> r.result.value == stub(NewUser(name, email, age)).value
    ensures r == Returns(None) <==> stub(NewUser(name, email, age)).IsRpcError()
    ensures r.Raises? <==> stub(NewUser(name, email, age)).LocalFail?
  {
    Catch(stub(NewUser(name, email, age)))
  }

  /** `list_users` (its request is empty) */
  function ListUsers(listing: Outcome<seq<User>>): (r: ClientResult<seq<User>>)
    ensures listing.Ok? <==> r.Returns? && r.result.Some?
    ensures r.Returns? && r.result.Some? ==> r.result.value == listing.value
    ensures r == Returns(None) <==> listing.IsRpcError()
    ensures r.Raises? <==> listing.LocalFail?
  {
    Catch(listing)
  }
}
