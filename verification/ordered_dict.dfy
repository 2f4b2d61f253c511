/**
 Python's built-in `dict`, as far as the directory uses it: a finite mapping
 that remembers the order in which keys were first inserted. It is modelled as
 a sequence of entries in insertion order. Assigning to a key already present
 replaces its value in place (its position is kept); assigning to a new key
 appends an entry. `Values` iterates in insertion order, as `dict.values()` does.
 */
module OrderedDict {
  import opened Wrappers

  datatype Entry<V> = Entry(key: int, value: V)

  type Dict<V> = seq<Entry<V>>

  /** `k in d` */
  predicate HasKey<V>(d: Dict<V>, k: int) {
    exists i :: 0 <= i < |d| && d[i].key == k
  }

  /** No key occurs twice: true of every dict built by `Put` from empty */
  predicate DistinctKeys<V>(d: Dict<V>) {
    forall i, j :: 0 <= i < j < |d| ==> d[i].key != d[j].key
  }

  /** `d.get(k)` */
  function Get<V>(d: Dict<V>, k: int): (r: Option<V>)
    ensures r.Some? <==> HasKey(d, k)
    ensures r.Some? ==> exists i :: 0 <= i < |d| && d[i] == Entry(k, r.value)
  {
    if |d| == 0 then None
    else if d[0].key == k then Some(d[0].value)
    else
      var r := Get(d[1..], k);
      assert r.Some? ==> exists i :: 0 <= i < |d[1..]| && d[1..][i] == Entry(k, r.value);
      assert HasKey(d[1..], k) ==> HasKey(d, k);
      r
  }

  /** `d[k] = v` */
  function Put<V>(d: Dict<V>, k: int, v: V): (r: Dict<V>)
    ensures Get(r, k) == Some(v)
    ensures forall k' :: k' != k ==> Get(r, k') == Get(d, k')
    ensures HasKey(d, k) ==> |r| == |d|
    ensures HasKey(d, k) ==> forall i :: 0 <= i < |d| ==> r[i].key == d[i].key && (d[i].key != k ==> r[i] == d[i])
    ensures !HasKey(d, k) ==> r == d + [Entry(k, v)]
  {
    if |d| == 0 then [Entry(k, v)]
    else if d[0].key == k then [Entry(k, v)] + d[1..]
    else
      var r := [d[0]] + Put(d[1..], k, v);
      assert r[1..] == Put(d[1..], k, v);
      assert HasKey(d, k) ==> HasKey(d[1..], k) by {
        if HasKey(d, k) {
          var i :| 0 <= i < |d| && d[i].key == k;
          assert d[1..][i - 1].key == k;
        }
      }
      r
  }

  /** `list(d.values())`, in insertion order */
  function Values<V>(d: Dict<V>): (vs: seq<V>)
    ensures |vs| == |d|
    ensures forall i :: 0 <= i < |d| ==> vs[i] == d[i].value
  {
    if |d| == 0 then [] else [d[0].value] + Values(d[1..])
  }

  /** In a dict without repeated keys, the entry at position i is what Get finds */
  lemma {:induction false} GetAt<V>(d: Dict<V>, i: nat)
    requires DistinctKeys(d)
    requires i < |d|
    ensures Get(d, d[i].key) == Some(d[i].value)
  {
    if i > 0 {
      assert d[0].key != d[i].key;
      assert d[1..][i - 1] == d[i];
      GetAt(d[1..], i - 1);
    }
  }
}
