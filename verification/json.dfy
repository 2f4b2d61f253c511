/**
 The JSON bodies the web front ends return: FastAPI serialises a Python dict
 whose keys keep the order in which the handler wrote them.
 */
module Json {
  import opened Wrappers

  datatype Value =
    | Int(n: int)
    | Str(s: string)
    | Array(items: seq<Value>)
    | Object(fields: seq<Field>)

  datatype Field = Field(key: string, value: Value)

  /** The keys of an object, in order; a non-object has none */
  function Keys(v: Value): seq<string> {
    match v
    case Object(fs) => seq(|fs|, i requires 0 <= i < |fs| => fs[i].key)
    case _ => []
  }

  /** The value of the first field with the given key */
  function Find(fs: seq<Field>, key: string): Option<Value> {
    if |fs| == 0 then None
    else if fs[0].key == key then Some(fs[0].value)
    else Find(fs[1..], key)
  }

  /** Find succeeds exactly for the keys that occur */
  lemma {:induction false} FindSome(fs: seq<Field>, key: string)
    ensures Find(fs, key).Some? <==> exists i :: 0 <= i < |fs| && fs[i].key == key
  {
    if |fs| > 0 && fs[0].key != key {
      FindSome(fs[1..], key);
      assert forall i :: 1 <= i < |fs| ==> fs[i] == fs[1..][i - 1];
    }
  }

  /** Find returns the first field with the key: the one at i when no earlier field has it */
  lemma {:induction false} FindAt(fs: seq<Field>, i: nat)
    requires i < |fs|
    requires forall j :: 0 <= j < i ==> fs[j].key != fs[i].key
    ensures Find(fs, fs[i].key) == Some(fs[i].value)
  {
    if i > 0 {
      assert fs[1..][i - 1] == fs[i];
      FindAt(fs[1..], i - 1);
    }
  }

  /** Both fields of a two-field object with distinct keys can be looked up */
  lemma TwoFields(k1: string, v1: Value, k2: string, v2: Value)
    requires k1 != k2
    ensures Lookup(Object([Field(k1, v1), Field(k2, v2)]), k1) == Some(v1)
    ensures Lookup(Object([Field(k1, v1), Field(k2, v2)]), k2) == Some(v2)
  {
    FindAt([Field(k1, v1), Field(k2, v2)], 1);
  }

  /** `body.get(key)` on a JSON object */
  function Lookup(v: Value, key: string): (r: Option<Value>)
    ensures r.Some? <==> key in Keys(v)
  {
    match v
    case Object(fs) =>
      FindSome(fs, key);
      var ks := Keys(v);
      assert |ks| == |fs| && forall i :: 0 <= i < |fs| ==> ks[i] == fs[i].key;
      assert (exists i :: 0 <= i < |fs| && fs[i].key == key) <==> key in ks;
      Find(fs, key)
    case _ => None
  }

  /** The string held under `key`, if there is one */
  function StrAt(v: Value, key: string): Option<string> {
    match Lookup(v, key)
    case Some(Str(s)) => Some(s)
    case _ => None
  }

  /** The integer held under `key`, if there is one */
  function IntAt(v: Value, key: string): Option<int> {
    match Lookup(v, key)
    case Some(Int(n)) => Some(n)
    case _ => None
  }
}
