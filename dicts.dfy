/** Python dictionaries keep their keys in insertion order, and the database
    file is written back in that order. A dictionary is modelled as a
    sequence of key/value pairs; a lookup returns the first pair with the key,
    which is the only one in every dictionary Python can build. */
module Dicts {
  import opened Wrappers

  /** `d.get(k)`: the value stored under `k`, or None. */
  function Get<K(==), V>(d: seq<(K, V)>, k: K): (r: Option<V>)
    ensures r.Some? <==> exists i :: 0 <= i < |d| && d[i].0 == k
    ensures r.Some? ==> exists i :: 0 <= i < |d| && d[i] == (k, r.value)
  {
    if d == [] then None
    else if d[0].0 == k then Some(d[0].1)
    else Get(d[1..], k)
  }

  /** The keys of `d`, in insertion order. */
  function Keys<K, V>(d: seq<(K, V)>): (ks: seq<K>)
    ensures |ks| == |d|
    ensures forall i :: 0 <= i < |d| ==> ks[i] == d[i].0
  {
    if d == [] then [] else [d[0].0] + Keys(d[1..])
  }

  /** A lookup in two dictionaries written one after the other finds the
      first one's entry when there is one, the second one's otherwise. */
  lemma {:induction false} GetAppend<K, V>(d: seq<(K, V)>, e: seq<(K, V)>, k: K)
    ensures Get(d + e, k) == if Get(d, k).Some? then Get(d, k) else Get(e, k)
  {
    if d == [] {
      assert d + e == e;
    } else {
      assert (d + e)[0] == d[0] && (d + e)[1..] == d[1..] + e;
      GetAppend(d[1..], e, k);
    }
  }
}
