/** Python dictionaries keep insertion order, and the validators and the help
    text depend on it, so a dictionary is modelled as the sequence of its
    items. Lookups return the first item with the key (a real dictionary has
    at most one). */
module Dicts {
  import opened Results

  type Dict<V> = seq<(string, V)>

  /** `d.get(k)`. */
  function Get<V>(d: Dict<V>, k: string): (r: Option<V>)
    ensures r.None? <==> forall i :: 0 <= i < |d| ==> d[i].0 != k
    ensures r.Some? ==> exists i :: 0 <= i < |d| && d[i] == (k, r.value)
  {
    if |d| == 0 then None
    else if d[0].0 == k then Some(d[0].1)
    else
      var r := Get(d[1..], k);
      assert r.Some? ==> d[1..][0].0 == k || exists i :: 1 <= i < |d| && d[i] == (k, r.value) by {
        if r.Some? {
          var i :| 0 <= i < |d[1..]| && d[1..][i] == (k, r.value);
          assert d[i + 1] == (k, r.value);
        }
      }
      r
  }

  /** `k in d`. */
  predicate HasKey<V>(d: Dict<V>, k: string) {
    Get(d, k).Some?
  }

  /** Iterating a dictionary yields its keys in insertion order: one per
      entry, and exactly the keys the dictionary has. */
  function Keys<V>(d: Dict<V>): (ks: seq<string>)
    ensures |ks| == |d|
    ensures forall k :: k in ks <==> HasKey(d, k)
  {
    var ks := seq(|d|, i requires 0 <= i < |d| => d[i].0);
    assert forall i :: 0 <= i < |d| ==> ks[i] == d[i].0;
    ks
  }
}
