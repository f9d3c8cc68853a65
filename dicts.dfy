/**
 * A Python `dict` as the finder uses it: key/value pairs in insertion order,
 * each key at most once. Assigning to an existing key replaces its value in
 * place; assigning to a new key appends it. A dict built from a list of pairs
 * (a dict comprehension) therefore keeps, for each key, the LAST value given.
 */
module Dicts {
  import opened Types
  import opened Seqs

  type Dict<K, V> = seq<(K, V)>

  function Keys<K, V>(d: Dict<K, V>): (ks: seq<K>)
    ensures |ks| == |d|
    ensures forall i :: 0 <= i < |d| ==> ks[i] == d[i].0
  {
    seq(|d|, i requires 0 <= i < |d| => d[i].0)
  }

  lemma KeysCons<K, V>(p: (K, V), d: Dict<K, V>)
    ensures Keys([p] + d) == [p.0] + Keys(d)
  {
    assert forall i :: 1 <= i <= |d| ==> ([p] + d)[i] == d[i - 1];
  }

  lemma KeysTail<K, V>(d: Dict<K, V>)
    requires d != []
    ensures Keys(d) == [d[0].0] + Keys(d[1..])
  {
    assert [d[0]] + d[1..] == d;
    KeysCons(d[0], d[1..]);
  }

  /** Every key occurs once: the shape every real dict has. */
  predicate Keyed<K(==), V>(d: Dict<K, V>)
  {
    NoDuplicates(Keys(d))
  }

  /** `d[k]`, or None where Python raises KeyError. */
  function Get<K(==), V>(d: Dict<K, V>, k: K): (r: Option<V>)
    ensures r.None? <==> k !in Keys(d)
    ensures r.Some? ==> (k, r.value) in d
  {
    if d == [] then None
    else if d[0].0 == k then Some(d[0].1)
    else
      KeysTail(d);
      Get(d[1..], k)
  }

  /** In a dict whose keys are distinct, the pair stored for a key is the one `Get` finds. */
  lemma {:induction false} GetStored<K, V>(d: Dict<K, V>, k: K, v: V)
    requires Keyed(d)
    requires (k, v) in d
    ensures Get(d, k) == Some(v)
  {
    var i :| 0 <= i < |d| && d[i] == (k, v);
    if i > 0 {
      assert Keys(d)[0] != Keys(d)[i];
      assert d[1..][i - 1] == (k, v);
      forall a, b | 0 <= a < b < |d| - 1
        ensures Keys(d[1..])[a] != Keys(d[1..])[b]
      {
        assert Keys(d)[a + 1] != Keys(d)[b + 1];
      }
      GetStored(d[1..], k, v);
    }
  }

  /** `d[k] = v`: an existing key keeps its position, a new key goes last. */
  function Put<K(==,!new), V>(d: Dict<K, V>, k: K, v: V): (r: Dict<K, V>)
    ensures Keys(r) == if k in Keys(d) then Keys(d) else Keys(d) + [k]
  {
    if d == [] then [(k, v)]
    else if d[0].0 == k then
      KeysTail(d);
      KeysCons((k, v), d[1..]);
      [(k, v)] + d[1..]
    else
      KeysTail(d);
      KeysCons(d[0], Put(d[1..], k, v));
      [d[0]] + Put(d[1..], k, v)
  }

  /** After `d[k] = v`, `k` maps to `v` and every other key is unaffected. */
  lemma {:induction false} GetPut<K(!new), V>(d: Dict<K, V>, k: K, v: V, k': K)
    ensures Get(Put(d, k, v), k') == if k' == k then Some(v) else Get(d, k')
  {
    if d != [] && d[0].0 != k {
      GetPut(d[1..], k, v, k');
    }
  }

  lemma PutKeyed<K(!new), V>(d: Dict<K, V>, k: K, v: V)
    requires Keyed(d)
    ensures Keyed(Put(d, k, v))
  {
  }

  /** `{k: v for (k, v) in ps}`: the pairs assigned one after another. */
  function FromPairs<K(==,!new), V>(ps: seq<(K, V)>): Dict<K, V>
  {
    if ps == [] then []
    else
      var n := |ps| - 1;
      Put(FromPairs(ps[..n]), ps[n].0, ps[n].1)
  }

  /** A dict built from pairs has every key once, however often the pairs repeat a key. */
  lemma {:induction false} FromPairsKeyed<K(!new), V>(ps: seq<(K, V)>)
    ensures Keyed(FromPairs(ps))
  {
    if ps != [] {
      var n := |ps| - 1;
      FromPairsKeyed(ps[..n]);
      PutKeyed(FromPairs(ps[..n]), ps[n].0, ps[n].1);
    }
  }

  /** The value of the last pair in `ps` whose key is `k`. */
  function LastValue<K(==), V>(ps: seq<(K, V)>, k: K): Option<V>
  {
    if ps == [] then None
    else
      var n := |ps| - 1;
      if ps[n].0 == k then Some(ps[n].1) else LastValue(ps[..n], k)
  }

  /** LastValue finds the pair at the highest index with key `k`. */
  lemma {:induction false} LastValueAt<K, V>(ps: seq<(K, V)>, k: K, v: V)
    ensures LastValue(ps, k) == Some(v) <==>
            exists i :: 0 <= i < |ps| && ps[i] == (k, v) && forall j :: i < j < |ps| ==> ps[j].0 != k
  {
    if ps != [] {
      var n := |ps| - 1;
      LastValueAt(ps[..n], k, v);
      if ps[n].0 == k {
        if ps[n] == (k, v) {
          assert ps[n] == (k, v);
        }
      } else {
        if exists i :: 0 <= i < |ps| && ps[i] == (k, v) && forall j :: i < j < |ps| ==> ps[j].0 != k {
          var i :| 0 <= i < |ps| && ps[i] == (k, v) && forall j :: i < j < |ps| ==> ps[j].0 != k;
          assert i < n;
          assert ps[..n][i] == (k, v);
        }
      }
    }
  }

  lemma {:induction false} LastValueNone<K, V>(ps: seq<(K, V)>, k: K)
    ensures LastValue(ps, k).None? <==> forall i :: 0 <= i < |ps| ==> ps[i].0 != k
  {
    if ps != [] {
      var n := |ps| - 1;
      LastValueNone(ps[..n], k);
      assert forall i :: 0 <= i < n ==> ps[..n][i] == ps[i];
    }
  }

  /** Building a dict from pairs keeps, for each key, the last value given. */
  lemma {:induction false} GetFromPairs<K(!new), V>(ps: seq<(K, V)>, k: K)
    ensures Get(FromPairs(ps), k) == LastValue(ps, k)
  {
    if ps != [] {
      var n := |ps| - 1;
      GetFromPairs(ps[..n], k);
      GetPut(FromPairs(ps[..n]), ps[n].0, ps[n].1, k);
    }
  }

  /** The items of `d` with each pair turned around. */
  function Swapped<K, V>(d: Dict<K, V>): (s: seq<(V, K)>)
    ensures |s| == |d|
    ensures forall i :: 0 <= i < |d| ==> s[i] == (d[i].1, d[i].0)
  {
    seq(|d|, i requires 0 <= i < |d| => (d[i].1, d[i].0))
  }

  /** `{v: k for k, v in d.items()}`: the items of `d`, turned around, assigned one after another. */
  function Invert<K, V(==,!new)>(d: Dict<K, V>): Dict<V, K>
  {
    if d == [] then []
    else
      var n := |d| - 1;
      Put(Invert(d[..n]), d[n].1, d[n].0)
  }

  lemma {:induction false} InvertIsFromPairs<K, V(!new)>(d: Dict<K, V>)
    ensures Invert(d) == FromPairs(Swapped(d))
  {
    if d != [] {
      var n := |d| - 1;
      InvertIsFromPairs(d[..n]);
      assert Swapped(d)[..n] == Swapped(d[..n]);
    }
  }
}
