/**
 * A Python `dict` as an insertion-ordered sequence of entries. Assigning `d[k] = v`
 * (or `d.update({k: v})`) overwrites the value in place when k is present and
 * appends a new entry at the end when it is not.
 */
module OrderedDict {
  import opened Wrappers

  datatype Entry<V> = Entry(key: string, value: V)

  type Dict<V> = seq<Entry<V>>

  /** The keys in iteration order. */
  function Keys<V>(d: Dict<V>): seq<string> {
    if d == [] then [] else [d[0].key] + Keys(d[1..])
  }

  predicate Distinct(ks: seq<string>) {
    forall i, j :: 0 <= i < j < |ks| ==> ks[i] != ks[j]
  }

  /** `d.get(k)` */
  function Get<V>(d: Dict<V>, k: string): Option<V> {
    if d == [] then None else if d[0].key == k then Some(d[0].value) else Get(d[1..], k)
  }

  /** `d[k] = v` */
  function Put<V>(d: Dict<V>, k: string, v: V): (r: Dict<V>)
    ensures Get(r, k) == Some(v)
    ensures forall k' :: k' != k ==> Get(r, k') == Get(d, k')
    ensures Keys(r) == if k in Keys(d) then Keys(d) else Keys(d) + [k]
    ensures forall e :: e in r ==> e in d || e == Entry(k, v)
  {
    if d == [] then [Entry(k, v)]
    else if d[0].key == k then [Entry(k, v)] + d[1..]
    else [d[0]] + Put(d[1..], k, v)
  }

  /** A key is present exactly when it is listed among the keys. */
  lemma {:induction false} GetPresent<V>(d: Dict<V>, k: string)
    ensures Get(d, k).Some? <==> k in Keys(d)
  {
    if d != [] && d[0].key != k {
      GetPresent(d[1..], k);
    }
  }

  /** Adding a key that is not yet present keeps the keys distinct. */
  lemma PutKeepsDistinct<V>(d: Dict<V>, k: string, v: V)
    requires Distinct(Keys(d))
    ensures Distinct(Keys(Put(d, k, v)))
  {
  }

  /** A key is listed exactly when some entry carries it. */
  lemma {:induction false} KeysMember<V>(d: Dict<V>, k: string)
    ensures k in Keys(d) <==> exists e :: e in d && e.key == k
  {
    if d != [] {
      KeysMember(d[1..], k);
      assert forall e :: e in d[1..] ==> e in d;
      assert forall e :: e in d ==> e == d[0] || e in d[1..];
    }
  }

  lemma {:induction false} KeysLength<V>(d: Dict<V>)
    ensures |Keys(d)| == |d|
  {
    if d != [] {
      KeysLength(d[1..]);
    }
  }

  /** In a duplicate-free list, an element is absent from everything listed before it. */
  lemma DistinctBefore(ks: seq<string>, k: string, rest: seq<string>)
    requires Distinct(ks + ([k] + rest))
    ensures k !in ks
  {
    var all := ks + ([k] + rest);
    assert all[|ks|] == k;
    forall j | 0 <= j < |ks|
      ensures ks[j] != k
    {
      assert ks[j] == all[j];
    }
  }
}
