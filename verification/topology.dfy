/**
 The services wired together: each stub a front end or the client calls is the
 corresponding server handler, reached through the RPC runtime over a link
 that is up or down. These lemmas follow a request from the outer boundary to
 the directory store and back.
 */
module Topology {
  import opened Wrappers
  import opened OrderedDict
  import opened Users
  import opened Json
  import opened Rpc
  import Directory
  import Echo
  import UserJson
  import GatewayA
  import GatewayB
  import GatewayC
  import Client

  /** A `GetUser` stub bound to the directory in state s */
  function GetStub(s: Directory.Store, link: Link): UserRequest -> Outcome<User> {
    req => Deliver(link, Directory.GetUser(s, req))
  }

  /** A `CreateUser` stub bound to the directory in state s, with the server's clock reading */
  function CreateStub(s: Directory.Store, link: Link, createdAt: string): NewUser -> Outcome<User> {
    req => Deliver(link, Reply(Directory.CreateUser(s, req, createdAt).user))
  }

  /** The outcome of a `ListUsers` call against the directory in state s */
  function Listing(s: Directory.Store, link: Link): Outcome<seq<User>> {
    Deliver(link, Reply(Directory.ListUsers(s)))
  }

  /** A `GetData` stub bound to the echo service */
  function EchoStub(link: Link): Echo.RequestMsg -> Outcome<Echo.ReplyMsg> {
    req => Deliver(link, Reply(Echo.GetData(req)))
  }

  /** Service A's `get_user` on a stored id yields exactly that record's five fields */
  lemma GatewayGetStored(s: Directory.Store, userId: int)
    requires Directory.Valid(s)
    requires 1 <= userId < s.nextUserId
    ensures UserJson.Decode(GatewayA.GetUser(GetStub(s, Up), userId)) == Some(s.users[userId - 1].value)
    ensures IntAt(GatewayA.GetUser(GetStub(s, Up), userId), UserJson.UserIdKey) == Some(userId)
  {
    Directory.ValidLookup(s, userId);
    var v := GatewayA.GetUser(GetStub(s, Up), userId);
    assert UserJson.Decode(v) == Some(s.users[userId - 1].value);
  }

  /**
   Service A's `get_user` on an id the store lacks gives the same reply as when
   the directory cannot be reached at all: the constant error.
   */
  lemma GatewayGetMissingLikeDown(s: Directory.Store, userId: int, reason: string)
    requires !HasKey(s.users, userId)
    ensures GatewayA.GetUser(GetStub(s, Up), userId) == GatewayA.GetUser(GetStub(s, Down(reason)), userId)
    ensures StrAt(GatewayA.GetUser(GetStub(s, Up), userId), "error") == Some(GatewayA.UserNotFound)
  {
    GatewayA.GetUserFailuresAlike(GetStub(s, Up), GetStub(s, Down(reason)), userId);
  }

  /**
   A user created through service A's front end reads back through the same
   front end with identical fields, under the id the counter held.
   */
  lemma GatewayCreateThenGet(s: Directory.Store, name: string, email: string, age: int, createdAt: string)
    requires Directory.Valid(s)
    ensures
      var created := Directory.CreateUser(s, NewUser(name, email, age), createdAt);
      var reply := GatewayA.CreateUser(CreateStub(s, Up, createdAt), name, email, age);
      && UserJson.Decode(reply) == Some(User(s.nextUserId, name, email, age, createdAt))
      && GatewayA.GetUser(GetStub(created.store, Up), s.nextUserId) == reply
  {
    var created := Directory.CreateUser(s, NewUser(name, email, age), createdAt);
    Directory.ValidLookup(created.store, s.nextUserId);
  }

  /** Service B's connection test, after seeding and any calls, reports 3 users plus one per create */
  lemma ConnectionTestCount(stamp1: string, stamp2: string, stamp3: string, cs: seq<Directory.Call>)
    ensures
      var r := GatewayB.TestGrpc(Listing(Directory.Run(Directory.Init(stamp1, stamp2, stamp3), cs), Up));
      && StrAt(r, "status") == Some("success")
      && GatewayB.ReportedCount(StrAt(r, "message").value) == Some(3 + Directory.Creates(cs))
  {
    Directory.ListAfterRun(stamp1, stamp2, stamp3, cs);
  }

  /** Service B's user list of a store is the store's records, in insertion order */
  lemma GatewayListIsStore(s: Directory.Store)
    ensures UserJson.ListedUsers(GatewayB.ListUsers(Listing(s, Up))) == Some(Values(s.users))
    ensures Lookup(GatewayB.ListUsers(Listing(s, Up)), "error") == None
  {
  }

  /** Through service C's front end, a successful echo reply carries the submitted name */
  lemma EchoThroughGateway(name: string)
    ensures StrAt(GatewayC.CallService(EchoStub(Up), name), "message").Some?
    ensures Echo.Contains(StrAt(GatewayC.CallService(EchoStub(Up), name), "message").value, name)
    ensures Echo.NameOf(StrAt(GatewayC.CallService(EchoStub(Up), name), "message").value) == Some(name)
  {
  }

  /** With the directory unreachable, every client call returns None rather than raising */
  lemma ClientWhenDown(s: Directory.Store, reason: string, createdAt: string, userId: int, req: NewUser)
    ensures Client.GetUser(GetStub(s, Down(reason)), userId) == Client.Returns(None)
    ensures Client.CreateUser(CreateStub(s, Down(reason), createdAt), req.name, req.email, req.age) == Client.Returns(None)
    ensures Client.ListUsers(Listing(s, Down(reason))) == Client.Returns(None)
  {
  }

  /** The store after the client's create call: the seeds plus Alice Williams as user 4 */
  function AfterCreate(stamp1: string, stamp2: string, stamp3: string, stamp4: string): Directory.Store {
    Directory.CreateUser(Directory.Init(stamp1, stamp2, stamp3), NewUser("Alice Williams", "alice@example.com", 28), stamp4).store
  }

  lemma AfterCreateShape(stamp1: string, stamp2: string, stamp3: string, stamp4: string)
    ensures Directory.Valid(AfterCreate(stamp1, stamp2, stamp3, stamp4))
    ensures AfterCreate(stamp1, stamp2, stamp3, stamp4).nextUserId == 5
    ensures AfterCreate(stamp1, stamp2, stamp3, stamp4).users[0].value == User(1, "John Doe", "john@example.com", 30, stamp1)
  {
    var s0 := Directory.Init(stamp1, stamp2, stamp3);
    assert s0.nextUserId == 4 && Directory.Valid(s0);
    var s1 := AfterCreate(stamp1, stamp2, stamp3, stamp4);
    assert !HasKey(s0.users, 4) by { Directory.ValidLookup(s0, 4); }
    assert s1.users == s0.users + [Entry(4, User(4, "Alice Williams", "alice@example.com", 28, stamp4))];
  }

  /** The client's `create_user` returns exactly the record the directory stored */
  lemma ClientCreateReturnsStored(s: Directory.Store, name: string, email: string, age: int, createdAt: string)
    ensures Client.CreateUser(CreateStub(s, Up, createdAt), name, email, age)
      == Client.Returns(Some(Directory.CreateUser(s, NewUser(name, email, age), createdAt).user))
  {
    var stub := CreateStub(s, Up, createdAt);
    assert stub(NewUser(name, email, age)).Ok?;
  }

  /** The client's `get_user` returns the stored record for a present id and None for a missing one */
  lemma ClientGet(s: Directory.Store, userId: int)
    ensures HasKey(s.users, userId) ==> Client.GetUser(GetStub(s, Up), userId) == Client.Returns(Get(s.users, userId))
    ensures !HasKey(s.users, userId) ==> Client.GetUser(GetStub(s, Up), userId) == Client.Returns(None)
  {
    var stub := GetStub(s, Up);
    assert stub(UserRequest(userId)) == Deliver(Up, Directory.GetUser(s, UserRequest(userId)));
  }

  /** main(), first step: listing the fresh directory returns the three seeded users */
  lemma MainFirstList(stamp1: string, stamp2: string, stamp3: string)
    ensures
      var first := Client.ListUsers(Listing(Directory.Init(stamp1, stamp2, stamp3), Up));
      first.Returns? && first.result.Some? && |first.result.value| == 3
  {
    var s0 := Directory.Init(stamp1, stamp2, stamp3);
    assert |Directory.ListUsers(s0)| == 3;
  }

  /** main(), second step: creating Alice Williams returns her record under id 4 */
  lemma MainCreate(stamp1: string, stamp2: string, stamp3: string, stamp4: string)
    ensures
      Client.CreateUser(CreateStub(Directory.Init(stamp1, stamp2, stamp3), Up, stamp4), "Alice Williams", "alice@example.com", 28)
        == Client.Returns(Some(User(4, "Alice Williams", "alice@example.com", 28, stamp4)))
  {
    var s0 := Directory.Init(stamp1, stamp2, stamp3);
    assert s0.nextUserId == 4;
    ClientCreateReturnsStored(s0, "Alice Williams", "alice@example.com", 28, stamp4);
  }

  /** main(), third and fourth steps: user 1 is John Doe, user 999 is None */
  lemma MainGets(stamp1: string, stamp2: string, stamp3: string, stamp4: string)
    ensures
      Client.GetUser(GetStub(AfterCreate(stamp1, stamp2, stamp3, stamp4), Up), 1)
        == Client.Returns(Some(User(1, "John Doe", "john@example.com", 30, stamp1)))
    ensures Client.GetUser(GetStub(AfterCreate(stamp1, stamp2, stamp3, stamp4), Up), 999) == Client.Returns(None)
  {
    var s1 := AfterCreate(stamp1, stamp2, stamp3, stamp4);
    AfterCreateShape(stamp1, stamp2, stamp3, stamp4);
    Directory.ValidLookup(s1, 1);
    Directory.ValidLookup(s1, 999);
    ClientGet(s1, 1);
    ClientGet(s1, 999);
  }

  /** main(), last step: the second listing has ids 1, 2, 3, 4 in that order */
  lemma MainLastList(stamp1: string, stamp2: string, stamp3: string, stamp4: string)
    ensures
      var last := Client.ListUsers(Listing(AfterCreate(stamp1, stamp2, stamp3, stamp4), Up));
      && last.Returns? && last.result.Some? && |last.result.value| == 4
      && (forall i :: 0 <= i < 4 ==> last.result.value[i].userId == i + 1)
  {
    AfterCreateShape(stamp1, stamp2, stamp3, stamp4);
  }
}
