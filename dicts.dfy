/** Python's insertion-ordered `dict`, as the list of its items. A key that
    is assigned again keeps its place; a new key goes to the end. */
module Dicts {
  import opened Wrappers
  import opened Sorting

  type Dict<K, V> = seq<(K, V)>

  /** `list(d.keys())` */
  function Keys<K, V>(d: Dict<K, V>): (r: seq<K>)
    ensures |r| == |d|
    ensures forall i :: 0 <= i < |d| ==> r[i] == d[i].0
  {
    seq(|d|, i requires 0 <= i < |d| => d[i].0)
  }

  /** `list(d.values())` */
  function Values<K, V>(d: Dict<K, V>): (r: seq<V>)
    ensures |r| == |d|
    ensures forall i :: 0 <= i < |d| ==> r[i] == d[i].1
  {
    seq(|d|, i requires 0 <= i < |d| => d[i].1)
  }

  /** Every key occurs once, as in any Python dict. */
  predicate Wf<K(==), V>(d: Dict<K, V>) {
    Distinct(Keys(d))
  }

  /** `d.get(k)` */
  function Get<K(==), V>(d: Dict<K, V>, k: K): (r: Option<V>)
    ensures r.Some? <==> k in Keys(d)
    ensures r.Some? ==> (k, r.value) in d
  {
    if d == [] then None
    else if d[0].0 == k then Some(d[0].1)
    else
      assert Keys(d) == [d[0].0] + Keys(d[1..]);
      Get(d[1..], k)
  }

  /** `d[k] = v` */
  function Put<K(==, !new), V(!new)>(d: Dict<K, V>, k: K, v: V): (r: Dict<K, V>)
    requires Wf(d)
    ensures Wf(r)
    ensures Keys(r) == if k in Keys(d) then Keys(d) else Keys(d) + [k]
  {
    if d == [] then [(k, v)]
    else
      ConsKeys(d);
      if d[0].0 == k then
        var r := [(k, v)] + d[1..];
        ConsKeys(r);
        r
      else
        var rest := Put(d[1..], k, v);
        var r := [d[0]] + rest;
        ConsKeys(r);
        DistinctCons(d[0].0, Keys(rest));
        r
  }

  lemma ConsKeys<K, V>(d: Dict<K, V>)
    requires d != []
    ensures Keys(d) == [d[0].0] + Keys(d[1..])
  {
  }

  lemma DistinctCons<T>(x: T, s: seq<T>)
    requires Distinct(s) && x !in s
    ensures Distinct([x] + s)
  {
  }

  /** `d.pop(k, None)`: removes `k` if present and nothing else. */
  function Pop<K(==, !new), V(!new)>(d: Dict<K, V>, k: K): (r: Dict<K, V>)
    requires Wf(d)
    ensures Wf(r)
    ensures forall j :: j in Keys(r) <==> j in Keys(d) && j != k
    ensures k !in Keys(d) ==> r == d
  {
    if d == [] then []
    else
      ConsKeys(d);
      if d[0].0 == k then
        d[1..]
      else
        var rest := Pop(d[1..], k);
        var r := [d[0]] + rest;
        ConsKeys(r);
        DistinctCons(d[0].0, Keys(rest));
        r
  }

  /** After `d[k] = v`, `k` maps to `v` and every other key to what it
      mapped to before. */
  lemma {:induction false} PutGet<K(!new), V(!new)>(d: Dict<K, V>, k: K, v: V, j: K)
    requires Wf(d)
    ensures Get(Put(d, k, v), j) == if j == k then Some(v) else Get(d, j)
  {
    if d != [] && d[0].0 != k {
      ConsKeys(d);
      PutGet(d[1..], k, v, j);
    }
  }

  /** After `d.pop(k, None)`, `k` is absent and every other key maps to what
      it mapped to before. */
  lemma {:induction false} PopGet<K(!new), V(!new)>(d: Dict<K, V>, k: K, j: K)
    requires Wf(d)
    ensures Get(Pop(d, k), j) == if j == k then None else Get(d, j)
  {
    if d != [] {
      ConsKeys(d);
      if d[0].0 != k {
        PopGet(d[1..], k, j);
      } else if j == k {
        assert k !in Keys(d[1..]);
      }
    }
  }

  /** The key-value view of a dict, forgetting its order. */
  function ToMap<K(==, !new), V(!new)>(d: Dict<K, V>): (m: map<K, V>)
    ensures forall k :: k in m <==> k in Keys(d)
    ensures forall k :: k in m ==> Get(d, k) == Some(m[k])
  {
    if d == [] then map[]
    else
      assert Keys(d) == [d[0].0] + Keys(d[1..]);
      ToMap(d[1..])[d[0].0 := d[0].1]
  }

  /** `d.pop(k)` twice removes no more than once. */
  lemma PopIdempotent<K(!new), V(!new)>(d: Dict<K, V>, k: K)
    requires Wf(d)
    ensures Pop(Pop(d, k), k) == Pop(d, k)
  {
  }
}
