/** Shared vocabulary: optional values, the scalar values carried by records,
    and insertion-ordered dictionaries (Python's `dict`). */
module Base {

  datatype Option<+T> = None | Some(value: T) {
    function GetOr(default: T): T {
      match this
      case Some(v) => v
      case None => default
    }
  }

  /** A scalar held by a document or a row. Timestamps are whole numbers of a
      fixed unit; `VNone` is Python's `None`. */
  datatype Value =
    | VNone
    | VStr(s: string)
    | VInt(i: int)
    | VBool(b: bool)
    | VDateTime(t: int)

  /** An insertion-ordered dictionary: an association list. Python iterates a
      dict in insertion order and `d[k] = v` overwrites an existing key in place,
      so the order of entries is part of the value. */
  type Dict<K, V> = seq<(K, V)>

  /** A document or a row: field name to value. */
  type Record = Dict<string, Value>

  /** `list(d.keys())` */
  function Keys<K, V>(d: Dict<K, V>): (ks: seq<K>)
    ensures |ks| == |d|
    ensures forall i :: 0 <= i < |d| ==> ks[i] == d[i].0
  {
    seq(|d|, i requires 0 <= i < |d| => d[i].0)
  }

  /** `list(d.values())` */
  function Values<K, V>(d: Dict<K, V>): (vs: seq<V>)
    ensures |vs| == |d|
    ensures forall i :: 0 <= i < |d| ==> vs[i] == d[i].1
  {
    seq(|d|, i requires 0 <= i < |d| => d[i].1)
  }

  ghost predicate DistinctKeys<K, V>(d: Dict<K, V>) {
    forall i, j :: 0 <= i < j < |d| ==> d[i].0 != d[j].0
  }

  /** `d.get(k)`: the value stored under `k`, if any. */
  function Get<K(==), V>(d: Dict<K, V>, k: K): (r: Option<V>)
    ensures r.Some? ==> (k, r.value) in d
    ensures r.None? ==> forall i :: 0 <= i < |d| ==> d[i].0 != k
  {
    if d == [] then None
    else if d[0].0 == k then Some(d[0].1)
    else Get(d[1..], k)
  }

  predicate Has<K(==), V>(d: Dict<K, V>, k: K) {
    Get(d, k).Some?
  }

  /** `d[k] = v`: overwrite in place when `k` is present, append otherwise. */
  function Put<K(==,!new), V>(d: Dict<K, V>, k: K, v: V): (r: Dict<K, V>)
    ensures Get(r, k) == Some(v)
    ensures forall k' :: k' != k ==> Get(r, k') == Get(d, k')
  {
    if d == [] then [(k, v)]
    else if d[0].0 == k then [(k, v)] + d[1..]
    else [d[0]] + Put(d[1..], k, v)
  }

  /** Assigning to a new key appends one entry at the end. */
  lemma {:induction false} PutNew<K(!new), V>(d: Dict<K, V>, k: K, v: V)
    requires !Has(d, k)
    ensures Put(d, k, v) == d + [(k, v)]
  {
    if d != [] {
      PutNew(d[1..], k, v);
    }
  }

  /** Assigning to a present key keeps every key where it was. */
  lemma {:induction false} PutPresent<K(!new), V>(d: Dict<K, V>, k: K, v: V)
    requires Has(d, k)
    ensures |Put(d, k, v)| == |d|
    ensures forall i :: 0 <= i < |d| ==> Put(d, k, v)[i].0 == d[i].0
  {
    if d[0].0 != k {
      PutPresent(d[1..], k, v);
    }
  }

  /** Assignment never introduces a repeated key. */
  lemma {:induction false} PutDistinct<K(!new), V>(d: Dict<K, V>, k: K, v: V)
    requires DistinctKeys(d)
    ensures DistinctKeys(Put(d, k, v))
  {
    if Has(d, k) {
      PutPresent(d, k, v);
    } else {
      PutNew(d, k, v);
    }
  }

  /** In a dictionary without repeated keys, every entry is what `get` finds. */
  lemma {:induction false} GetAt<K, V>(d: Dict<K, V>, i: int)
    requires DistinctKeys(d) && 0 <= i < |d|
    ensures Get(d, d[i].0) == Some(d[i].1)
  {
    if i > 0 {
      assert d[0].0 != d[i].0;
      GetAt(d[1..], i - 1);
    }
  }

  /** The first entry of an association list whose key is `k` is what `get` finds. */
  lemma {:induction false} GetFirst<K, V>(d: Dict<K, V>, k: K, i: int)
    requires 0 <= i < |d| && d[i].0 == k
    requires forall j :: 0 <= j < i ==> d[j].0 != k
    ensures Get(d, k) == Some(d[i].1)
  {
    if i > 0 {
      GetFirst(d[1..], k, i - 1);
    }
  }
}
