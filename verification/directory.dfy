/**
 The user directory served over RPC by `UserServiceServicer`: a dict from user
 id to record plus the `next_user_id` counter, seeded with three users, and the
 three handlers `GetUser`, `CreateUser` and `ListUsers`. Each handler call is
 one atomic step from a store to a reply (and, for `CreateUser`, a new store);
 the clock reading `datetime.now().isoformat()` is passed in as `createdAt`.
 */
module Directory {
  import opened Wrappers
  import opened OrderedDict
  import opened Users
  import opened Rpc
  import Decimal
  import Affix

  datatype Store = Store(users: Dict<User>, nextUserId: int)

  /** The store after `CreateUser` together with the response it returned */
  datatype Created = Created(store: Store, user: User)

  /** The three records `_add_sample_users` inserts */
  const SampleUsers: seq<NewUser> := [
    NewUser("John Doe", "john@example.com", 30),
    NewUser("Jane Smith", "jane@example.com", 25),
    NewUser("Bob Johnson", "bob@example.com", 35)
  ]

  /**
   The shape of every store the service can reach: the i-th entry in insertion
   order sits under key i+1 and holds user_id i+1, and the counter is one past
   the last id handed out.
   */
  predicate Valid(s: Store) {
    && s.nextUserId == |s.users| + 1
    && forall i :: 0 <= i < |s.users| ==> s.users[i].key == i + 1 && s.users[i].value.userId == i + 1
  }

  /** In a valid store the keys are exactly 1 .. nextUserId-1, the i-th entry holding key i+1 */
  lemma ValidLookup(s: Store, k: int)
    requires Valid(s)
    ensures HasKey(s.users, k) <==> 1 <= k < s.nextUserId
    ensures 1 <= k < s.nextUserId ==> Get(s.users, k) == Some(s.users[k - 1].value)
  {
    assert DistinctKeys(s.users);
    if 1 <= k < s.nextUserId {
      GetAt(s.users, k - 1);
    }
  }

  /** Every key lies between 1 and the counter and names the record's own user_id */
  lemma KeyIsUserId(s: Store, k: int)
    requires Valid(s)
    requires HasKey(s.users, k)
    ensures 1 <= k < s.nextUserId
    ensures Get(s.users, k).value.userId == k
  {
    ValidLookup(s, k);
  }

  /**
   `CreateUser`: take the counter as the new id, advance it by one, store the
   request's fields verbatim under that id and return the stored record. The
   seeding loop of `_add_sample_users` performs the same steps.
   */
  function CreateUser(s: Store, req: NewUser, createdAt: string): (r: Created)
    ensures r.user.userId == s.nextUserId
    ensures r.user.name == req.name && r.user.email == req.email && r.user.age == req.age
    ensures r.user.createdAt == createdAt
    ensures r.store.nextUserId == s.nextUserId + 1
    ensures Get(r.store.users, r.user.userId) == Some(r.user)
    ensures !HasKey(s.users, s.nextUserId) ==> r.store.users == s.users + [Entry(s.nextUserId, r.user)]
    ensures Valid(s) ==> Valid(r.store) && |r.store.users| == |s.users| + 1
  {
    var user := User(s.nextUserId, req.name, req.email, req.age, createdAt);
    CounterIsFresh(s);
    Created(Store(Put(s.users, s.nextUserId, user), s.nextUserId + 1), user)
  }

  /** CreateUser leaves every other key's record as it was */
  lemma CreateUserFrame(s: Store, req: NewUser, createdAt: string, k: int)
    requires k != s.nextUserId
    ensures Get(CreateUser(s, req, createdAt).store.users, k) == Get(s.users, k)
  {
  }

  /** In a valid store the counter is never a key yet */
  lemma CounterIsFresh(s: Store)
    ensures Valid(s) ==> !HasKey(s.users, s.nextUserId)
  {
    if Valid(s) {
      ValidLookup(s, s.nextUserId);
    }
  }

  /** The entries a batch of inserts stores, in order, with ids counted up from `first` */
  function BatchEntries(first: int, batch: seq<(NewUser, string)>): seq<Entry<User>>
    decreases |batch|
  {
    if |batch| == 0 then []
    else
      var (req, createdAt) := batch[0];
      [Entry(first, User(first, req.name, req.email, req.age, createdAt))] + BatchEntries(first + 1, batch[1..])
  }

  /**
   The loop of `_add_sample_users`: each sample, paired with the clock reading
   taken for it, is stored under the next id. On a valid store the records are
   appended in order under consecutive ids.
   */
  function AddUsers(s: Store, batch: seq<(NewUser, string)>): (r: Store)
    ensures r.nextUserId == s.nextUserId + |batch|
    ensures Valid(s) ==> Valid(r) && r.users == s.users + BatchEntries(s.nextUserId, batch)
    decreases |batch|
  {
    if |batch| == 0 then s
    else
      AddOne(s, batch);
      AddUsers(CreateUser(s, batch[0].0, batch[0].1).store, batch[1..])
  }

  /** Storing the first of a batch, then the rest, stores the whole batch */
  lemma AddOne(s: Store, batch: seq<(NewUser, string)>)
    requires |batch| > 0
    ensures
      var next := CreateUser(s, batch[0].0, batch[0].1).store;
      Valid(s) ==> next.users + BatchEntries(next.nextUserId, batch[1..]) == s.users + BatchEntries(s.nextUserId, batch)
  {
    if Valid(s) {
      var e := Entry(s.nextUserId, User(s.nextUserId, batch[0].0.name, batch[0].0.email, batch[0].0.age, batch[0].1));
      var rest := BatchEntries(s.nextUserId + 1, batch[1..]);
      assert (s.users + [e]) + rest == s.users + ([e] + rest);
      var next := CreateUser(s, batch[0].0, batch[0].1).store;
      CounterIsFresh(s);
      assert next.users == s.users + [e];
      assert BatchEntries(s.nextUserId, batch) == [e] + rest;
    }
  }

  /** The freshly constructed servicer: an empty dict, counter 1, then the three samples */
  function Init(stamp1: string, stamp2: string, stamp3: string): (s: Store)
    ensures Valid(s)
    ensures s.nextUserId == 4
    ensures s.users == [
      Entry(1, User(1, "John Doe", "john@example.com", 30, stamp1)),
      Entry(2, User(2, "Jane Smith", "jane@example.com", 25, stamp2)),
      Entry(3, User(3, "Bob Johnson", "bob@example.com", 35, stamp3))
    ]
  {
    var batch := [(SampleUsers[0], stamp1), (SampleUsers[1], stamp2), (SampleUsers[2], stamp3)];
    assert Valid(Store([], 1));
    assert BatchEntries(1, batch) == [BatchEntries(1, batch)[0]] + BatchEntries(2, batch[1..]);
    assert BatchEntries(2, batch[1..]) == [BatchEntries(2, batch[1..])[0]] + BatchEntries(3, batch[2..]);
    assert BatchEntries(3, batch[2..]) == [BatchEntries(3, batch[2..])[0]];
    AddUsers(Store([], 1), batch)
  }

  const NotFoundPrefix: string := "User with ID "
  const NotFoundSuffix: string := " not found"

  /** The details text `GetUser` sets for a missing id */
  function NotFoundDetails(userId: int): string {
    NotFoundPrefix + Decimal.Show(userId) + NotFoundSuffix
  }

  /** The id a NOT_FOUND details text names, if it has that form */
  function MissingId(details: string): Option<int> {
    match Affix.Strip(NotFoundPrefix, NotFoundSuffix, details)
    case Some(digits) => Decimal.Parse(digits)
    case None => None
  }

  /** A details text reads back as an id exactly when it is the text `GetUser` writes for that id */
  lemma MissingIdOfDetails(details: string, userId: int)
    ensures MissingId(details) == Some(userId) <==> details == NotFoundDetails(userId)
  {
    if details == NotFoundDetails(userId) {
      Affix.StripWrap(NotFoundPrefix, Decimal.Show(userId), NotFoundSuffix);
      Decimal.ParseShow(userId);
    }
    if MissingId(details) == Some(userId) {
      var digits := Affix.Strip(NotFoundPrefix, NotFoundSuffix, details).value;
      Decimal.ShowParse(digits, userId);
    }
  }

  /**
   `GetUser`: a present id gets its record with status OK; a missing one gets
   status NOT_FOUND, a details text naming the id and an empty response.
   */
  function GetUser(s: Store, req: UserRequest): (r: HandlerReply<User>)
    ensures r.code == OkCode <==> HasKey(s.users, req.userId)
    ensures r.code == OkCode ==> Get(s.users, req.userId) == Some(r.body)
    ensures r.code == NotFoundCode ==> r.body == EmptyUser && MissingId(r.details) == Some(req.userId)
  {
    match Get(s.users, req.userId)
    case None =>
      MissingIdOfDetails(NotFoundDetails(req.userId), req.userId);
      HandlerReply(NotFoundCode, NotFoundDetails(req.userId), EmptyUser)
    case Some(user) =>
      Reply(User(user.userId, user.name, user.email, user.age, user.createdAt))
  }

  /** `ListUsers`: one response per stored record, in the dict's insertion order */
  function ListUsers(s: Store): (r: seq<User>)
    ensures |r| == |s.users|
    ensures forall i :: 0 <= i < |r| ==> r[i] == s.users[i].value
    ensures Valid(s) ==> forall i :: 0 <= i < |r| ==> r[i].userId == i + 1
  {
    Values(s.users)
  }

  /** In a valid store the list and the lookup agree: the record listed k-th is what GetUser(k) returns */
  lemma ListAgreesWithGet(s: Store, k: int)
    requires Valid(s)
    requires 1 <= k < s.nextUserId
    ensures ListUsers(s)[k - 1] == GetUser(s, UserRequest(k)).body
    ensures GetUser(s, UserRequest(k)).code == OkCode
  {
    ValidLookup(s, k);
  }

  /** One handler call against the store */
  datatype Call =
    | GetCall(userId: int)
    | CreateCall(req: NewUser, createdAt: string)
    | ListCall

  /** The store after one call; only CreateUser changes it */
  function Step(s: Store, c: Call): Store {
    match c
    case CreateCall(req, t) => CreateUser(s, req, t).store
    case _ => s
  }

  /** The store after a sequence of calls, one after another */
  function Run(s: Store, cs: seq<Call>): Store
    decreases |cs|
  {
    if |cs| == 0 then s else Run(Step(s, cs[0]), cs[1..])
  }

  /** The number of CreateUser calls in a sequence */
  function Creates(cs: seq<Call>): nat {
    if |cs| == 0 then 0 else (if cs[0].CreateCall? then 1 else 0) + Creates(cs[1..])
  }

  /** The ids the CreateUser calls of a run hand out, in call order */
  function AssignedIds(s: Store, cs: seq<Call>): seq<int>
    decreases |cs|
  {
    if |cs| == 0 then []
    else
      var first := match cs[0]
        case CreateCall(req, t) => [CreateUser(s, req, t).user.userId]
        case _ => [];
      first + AssignedIds(Step(s, cs[0]), cs[1..])
  }

  /**
   Any run keeps the store valid, advances the counter by exactly the number
   of creates, and only appends: every earlier entry stays where it was,
   unchanged.
   */
  lemma {:induction false} RunPreserves(s: Store, cs: seq<Call>)
    requires Valid(s)
    ensures Valid(Run(s, cs))
    ensures Run(s, cs).nextUserId == s.nextUserId + Creates(cs)
    ensures s.users <= Run(s, cs).users
    decreases |cs|
  {
    if |cs| > 0 {
      RunPreserves(Step(s, cs[0]), cs[1..]);
    }
  }

  /** GetUser and ListUsers calls leave the store exactly as it was */
  lemma {:induction false} ReadOnlyRun(s: Store, cs: seq<Call>)
    requires Creates(cs) == 0
    ensures Run(s, cs) == s
    decreases |cs|
  {
    if |cs| > 0 {
      ReadOnlyRun(s, cs[1..]);
    }
  }

  /** A record once stored reads back identically after any later calls */
  lemma RecordsNeverChange(s: Store, cs: seq<Call>, k: int)
    requires Valid(s)
    requires HasKey(s.users, k)
    ensures GetUser(Run(s, cs), UserRequest(k)) == GetUser(s, UserRequest(k))
  {
    RunPreserves(s, cs);
    var t := Run(s, cs);
    ValidLookup(s, k);
    ValidLookup(t, k);
    assert t.users[k - 1] == s.users[k - 1];
  }

  /**
   The ids handed out are consecutive from the counter's value at the start:
   strictly increasing, and none of them was a key before.
   */
  lemma {:induction false} AssignedIdsConsecutive(s: Store, cs: seq<Call>)
    requires Valid(s)
    ensures |AssignedIds(s, cs)| == Creates(cs)
    ensures forall j :: 0 <= j < |AssignedIds(s, cs)| ==> AssignedIds(s, cs)[j] == s.nextUserId + j
    decreases |cs|
  {
    if |cs| > 0 {
      AssignedIdsConsecutive(Step(s, cs[0]), cs[1..]);
    }
  }

  /** No id is handed out twice, and none collides with a record already stored */
  lemma AssignedIdsFresh(s: Store, cs: seq<Call>)
    requires Valid(s)
    ensures forall i, j :: 0 <= i < j < |AssignedIds(s, cs)| ==> AssignedIds(s, cs)[i] < AssignedIds(s, cs)[j]
    ensures forall j :: 0 <= j < |AssignedIds(s, cs)| ==> !HasKey(s.users, AssignedIds(s, cs)[j])
  {
    AssignedIdsConsecutive(s, cs);
    forall j | 0 <= j < |AssignedIds(s, cs)|
      ensures !HasKey(s.users, AssignedIds(s, cs)[j])
    {
      ValidLookup(s, AssignedIds(s, cs)[j]);
    }
  }

  /** After seeding and any calls, ListUsers returns 3 records plus one per create, ids 1, 2, ... in order */
  lemma ListAfterRun(stamp1: string, stamp2: string, stamp3: string, cs: seq<Call>)
    ensures |ListUsers(Run(Init(stamp1, stamp2, stamp3), cs))| == 3 + Creates(cs)
    ensures forall i :: 0 <= i < 3 + Creates(cs) ==> ListUsers(Run(Init(stamp1, stamp2, stamp3), cs))[i].userId == i + 1
  {
    var s := Init(stamp1, stamp2, stamp3);
    assert Valid(s) && s.nextUserId == 4;
    RunPreserves(s, cs);
    var t := Run(s, cs);
    assert |t.users| == 3 + Creates(cs);
  }
}
