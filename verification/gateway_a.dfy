/**
 The web front end of service A (`/api/users` routes). Each handler sends one
 RPC to the user service through a stub, given here as a function from the
 request message to the call's `Outcome`, and folds every failure into an
 ordinary JSON reply: nothing is raised to the HTTP caller.
 */
module GatewayA {
  import opened Wrappers
  import opened Users
  import opened Json
  import opened Rpc
  import opened UserJson

  /** The one error text `get_user` gives, whatever went wrong */
  const UserNotFound: string := "User not found"

  /** `GET /api/users` */
  function ListUsers(listing: Outcome<seq<User>>): (r: Value)
    ensures ListedUsers(r) == Some(if listing.Ok? then listing.value else [])
    ensures Keys(r) == if listing.Ok? then ["users"] else ["users", "error"]
    ensures ItemsAreUserDicts(r)
    ensures !listing.Ok? ==> StrAt(r, "error") == Some(listing.Message())
  {
    ListReply(listing)
  }

  /**
   `GET /api/users/{user_id}`: the id goes unchanged into a `UserRequest`; a
   success is copied field for field, and every failure, a missing user and an
   unreachable service alike, becomes the same constant error reply.
   */
  function GetUser(stub: UserRequest -> Outcome<User>, userId: int): (r: Value)
    ensures stub(UserRequest(userId)).Ok? ==> Decode(r) == Some(stub(UserRequest(userId)).value)
    ensures stub(UserRequest(userId)).Ok? ==> Keys(r) == UserKeys
    ensures !stub(UserRequest(userId)).Ok? ==> Decode(r) == None
    ensures !stub(UserRequest(userId)).Ok? ==> Keys(r) == ["error"] && StrAt(r, "error") == Some(UserNotFound)
  {
    match stub(UserRequest(userId))
    case Ok(response) => Encode(response)
    case _ => Object([Field("error", Str(UserNotFound))])
  }

  /** The reply of `get_user` tells a missing user and a failed call apart in no way */
  lemma GetUserFailuresAlike(stub1: UserRequest -> Outcome<User>, stub2: UserRequest -> Outcome<User>, userId: int)
    requires !stub1(UserRequest(userId)).Ok? && !stub2(UserRequest(userId)).Ok?
    ensures GetUser(stub1, userId) == GetUser(stub2, userId)
  {
  }

  /**
   `POST /api/users`: name, email and age go unchanged into a
   `CreateUserRequest`; a success is copied field for field, a failure leaves
   only an error field.
   */
  function CreateUser(stub: NewUser -> Outcome<User>, name: string, email: string, age: int): (r: Value)
    ensures stub(NewUser(name, email, age)).Ok? ==> Decode(r) == Some(stub(NewUser(name, email, age)).value)
    ensures stub(NewUser(name, email, age)).Ok? ==> Keys(r) == UserKeys
    ensures !stub(NewUser(name, email, age)).Ok? ==>
      Keys(r) == ["error"] && StrAt(r, "error") == Some(stub(NewUser(name, email, age)).Message())
  {
    var outcome := stub(NewUser(name, email, age));
    match outcome
    case Ok(response) => Encode(response)
    case _ => Object([Field("error", Str(outcome.Message()))])
  }
}
