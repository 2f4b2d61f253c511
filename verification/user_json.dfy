/**
 The JSON form the web front ends give a user record: a dict with the keys
 `user_id`, `name`, `email`, `age`, `created_at`, each copied from the
 `UserResponse` field of the same name; and the reply of the `/api/users` list
 handler, which services A and B implement identically.
 */
module UserJson {
  import opened Wrappers
  import opened Users
  import opened Json
  import opened Rpc

  const UserIdKey: string := "user_id"
  const NameKey: string := "name"
  const EmailKey: string := "email"
  const AgeKey: string := "age"
  const CreatedAtKey: string := "created_at"

  const UserKeys: seq<string> := [UserIdKey, NameKey, EmailKey, AgeKey, CreatedAtKey]

  /** Reads the five user fields back out of a reply body; None if any is missing or mistyped */
  function Decode(v: Value): Option<User> {
    match (IntAt(v, UserIdKey), StrAt(v, NameKey), StrAt(v, EmailKey), IntAt(v, AgeKey), StrAt(v, CreatedAtKey))
    case (Some(id), Some(n), Some(e), Some(a), Some(c)) => Some(User(id, n, e, a, c))
    case _ => None
  }

  /** The dict a handler builds from a `UserResponse`: the five fields, copied 1:1 */
  function Encode(u: User): (v: Value)
    ensures Keys(v) == UserKeys
    ensures Decode(v) == Some(u)
  {
    EncodedKeys(u);
    EncodedDecodes(u);
    Object(UserFields(u))
  }

  function UserFields(u: User): seq<Field> {
    [
      Field(UserIdKey, Int(u.userId)),
      Field(NameKey, Str(u.name)),
      Field(EmailKey, Str(u.email)),
      Field(AgeKey, Int(u.age)),
      Field(CreatedAtKey, Str(u.createdAt))
    ]
  }

  lemma EncodedKeys(u: User)
    ensures Keys(Object(UserFields(u))) == UserKeys
  {
  }

  lemma EncodedDecodes(u: User)
    ensures Decode(Object(UserFields(u))) == Some(u)
  {
    var fs := UserFields(u);
    // the five keys are distinct: they have five different lengths
    assert |fs[0].key| == 7 && |fs[1].key| == 4 && |fs[2].key| == 5 && |fs[3].key| == 3 && |fs[4].key| == 10;
    FindInFive(fs);
    assert Find(fs, fs[0].key) == Some(fs[0].value);
    assert Find(fs, fs[1].key) == Some(fs[1].value);
    assert Find(fs, fs[2].key) == Some(fs[2].value);
    assert Find(fs, fs[3].key) == Some(fs[3].value);
    assert Find(fs, fs[4].key) == Some(fs[4].value);
    var v := Object(fs);
    assert IntAt(v, UserIdKey) == Some(u.userId);
    assert StrAt(v, NameKey) == Some(u.name);
    assert StrAt(v, EmailKey) == Some(u.email);
    assert IntAt(v, AgeKey) == Some(u.age);
    assert StrAt(v, CreatedAtKey) == Some(u.createdAt);
  }

  /** In a five-field object with distinct keys, each key finds its own value */
  lemma FindInFive(fs: seq<Field>)
    requires |fs| == 5
    requires forall i, j :: 0 <= j < i < 5 ==> fs[j].key != fs[i].key
    ensures forall i :: 0 <= i < 5 ==> Find(fs, fs[i].key) == Some(fs[i].value)
  {
    forall i | 0 <= i < 5
      ensures Find(fs, fs[i].key) == Some(fs[i].value)
    {
      FindAt(fs, i);
    }
  }

  /** The loop over `response.users`, encoding each user in order */
  function EncodeAll(us: seq<User>): (vs: seq<Value>)
    ensures |vs| == |us|
    ensures forall i :: 0 <= i < |us| ==> Decode(vs[i]) == Some(us[i])
    ensures forall i :: 0 <= i < |us| ==> Keys(vs[i]) == UserKeys
  {
    if |us| == 0 then [] else [Encode(us[0])] + EncodeAll(us[1..])
  }

  function DecodeAll(vs: seq<Value>): Option<seq<User>> {
    if |vs| == 0 then Some([])
    else
      match (Decode(vs[0]), DecodeAll(vs[1..]))
      case (Some(u), Some(rest)) => Some([u] + rest)
      case _ => None
  }

  /** Encoding a list of users and decoding it again gives the same users in the same order */
  lemma {:induction false} DecodeAllEncodeAll(us: seq<User>)
    ensures DecodeAll(EncodeAll(us)) == Some(us)
  {
    if |us| > 0 {
      var vs := EncodeAll(us);
      assert vs[1..] == EncodeAll(us[1..]);
      DecodeAllEncodeAll(us[1..]);
      assert [us[0]] + us[1..] == us;
    }
  }

  /** The users array of a list reply, decoded */
  function ListedUsers(v: Value): Option<seq<User>> {
    match Lookup(v, "users")
    case Some(Array(items)) => DecodeAll(items)
    case _ => None
  }

  /** Every item of the users array is a dict with exactly the five user keys */
  predicate ItemsAreUserDicts(v: Value) {
    match Lookup(v, "users")
    case Some(Array(items)) => forall i :: 0 <= i < |items| ==> Keys(items[i]) == UserKeys
    case _ => false
  }

  /**
   `list_users` of the web front ends: on success every RPC user in order,
   each copied field for field; on any failure an empty list and an error.
   */
  function ListReply(listing: Outcome<seq<User>>): (r: Value)
    ensures ListedUsers(r) == Some(if listing.Ok? then listing.value else [])
    ensures Keys(r) == if listing.Ok? then ["users"] else ["users", "error"]
    ensures ItemsAreUserDicts(r)
    ensures !listing.Ok? ==> StrAt(r, "error") == Some(listing.Message())
  {
    match listing
    case Ok(users) =>
      DecodeAllEncodeAll(users);
      Object([Field("users", Array(EncodeAll(users)))])
    case _ =>
      assert "users"[0] != "error"[0];
      TwoFields("users", Array([]), "error", Str(listing.Message()));
      Object([Field("users", Array([])), Field("error", Str(listing.Message()))])
  }
}
