/** Python's `dict` as the scripts use it: a sequence of key/value pairs that
    remembers the order in which keys were first inserted. Assigning to a key
    that is already present replaces its value in place. */
module Assoc {
  import opened Values

  type Dict<K, V> = seq<(K, V)>

  function Keys<K, V>(m: Dict<K, V>): set<K> {
    set i | 0 <= i < |m| :: m[i].0
  }

  ghost predicate DistinctKeys<K, V>(m: Dict<K, V>) {
    forall i, j :: 0 <= i < j < |m| ==> m[i].0 != m[j].0
  }

  /** Position of key `k`, or -1. */
  function IndexOfKey<K(==, !new), V>(m: Dict<K, V>, k: K): (r: int)
    ensures r == -1 <==> k !in Keys(m)
    ensures r != -1 ==> 0 <= r < |m| && m[r].0 == k
    ensures r != -1 ==> forall i :: 0 <= i < r ==> m[i].0 != k
    decreases |m|
  {
    if |m| == 0 then -1
    else if m[0].0 == k then 0
    else
      var i := IndexOfKey(m[1..], k);
      assert Keys(m) == {m[0].0} + Keys(m[1..]) by {
        forall x | x in Keys(m) ensures x in {m[0].0} + Keys(m[1..]) {
          var j :| 0 <= j < |m| && m[j].0 == x;
          if j > 0 { assert m[1..][j - 1].0 == x; }
        }
      }
      if i == -1 then -1 else i + 1
  }

  /** `m.get(k)` */
  function Get<K(==, !new), V>(m: Dict<K, V>, k: K): (r: Option<V>)
    ensures r.Some? <==> k in Keys(m)
  {
    var i := IndexOfKey(m, k);
    if i == -1 then None else Some(m[i].1)
  }

  /** `m[k] = v` */
  function Put<K(==, !new), V>(m: Dict<K, V>, k: K, v: V): (r: Dict<K, V>)
    ensures Keys(r) == Keys(m) + {k}
    ensures Get(r, k) == Some(v)
    ensures DistinctKeys(m) ==> DistinctKeys(r)
    ensures DistinctKeys(m) ==> forall k' :: k' != k ==> Get(r, k') == Get(m, k')
    ensures k !in Keys(m) ==> r == m + [(k, v)]
    ensures k in Keys(m) ==> |r| == |m| && forall i :: 0 <= i < |m| ==> r[i].0 == m[i].0
  {
    var i := IndexOfKey(m, k);
    if i == -1 then
      var r := m + [(k, v)];
      assert Keys(r) == Keys(m) + {k} by {
        assert forall x :: x in Keys(r) ==> x in Keys(m) + {k} by {
          forall x | x in Keys(r) ensures x in Keys(m) + {k} {
            var j :| 0 <= j < |r| && r[j].0 == x;
            if j < |m| { assert m[j].0 == x; }
          }
        }
        assert r[|m|].0 == k;
        forall x | x in Keys(m) ensures x in Keys(r) {
          var j :| 0 <= j < |m| && m[j].0 == x;
          assert r[j].0 == x;
        }
      }
      PutLookups(m, k, v, r);
      r
    else
      var r := m[i := (k, v)];
      assert Keys(r) == Keys(m) by {
        forall x | x in Keys(r) ensures x in Keys(m) {
          var j :| 0 <= j < |r| && r[j].0 == x;
          assert m[j].0 == x;
        }
        forall x | x in Keys(m) ensures x in Keys(r) {
          var j :| 0 <= j < |m| && m[j].0 == x;
          assert r[j].0 == x;
        }
      }
      PutLookups(m, k, v, r);
      r
  }

  /** With distinct keys, looking up the key stored at position `j` finds that entry. */
  lemma GetAt<K(!new), V>(m: Dict<K, V>, j: nat)
    requires DistinctKeys(m) && j < |m|
    ensures Get(m, m[j].0) == Some(m[j].1)
  {
    var i := IndexOfKey(m, m[j].0);
    assert i != -1 by { assert m[j].0 in Keys(m); }
  }

  /** The lookups on `r` that `Put` promises, for either shape of `r`. */
  lemma PutLookups<K(!new), V>(m: Dict<K, V>, k: K, v: V, r: Dict<K, V>)
    requires (r == m + [(k, v)] && k !in Keys(m)) || (IndexOfKey(m, k) != -1 && r == m[IndexOfKey(m, k) := (k, v)])
    ensures Get(r, k) == Some(v)
    ensures DistinctKeys(m) ==> DistinctKeys(r)
    ensures DistinctKeys(m) ==> forall k' :: k' != k ==> Get(r, k') == Get(m, k')
  {
    if r == m + [(k, v)] && k !in Keys(m) {
      assert r[|m|].0 == k;
      forall k' | k' != k && DistinctKeys(m) ensures Get(r, k') == Get(m, k') {
        var a, b := IndexOfKey(r, k'), IndexOfKey(m, k');
        if b != -1 { assert r[b].0 == k'; }
        if a != -1 && a < |m| { assert m[a].0 == k'; }
      }
    } else {
      var i := IndexOfKey(m, k);
      var a := IndexOfKey(r, k);
      assert r[i].0 == k;
      forall k' | k' != k && DistinctKeys(m) ensures Get(r, k') == Get(m, k') {
        var a', b := IndexOfKey(r, k'), IndexOfKey(m, k');
        if b != -1 { assert r[b].0 == k'; }
        if a' != -1 { assert m[a'].0 == k'; }
      }
    }
  }
}
