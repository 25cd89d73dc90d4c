/** Python dictionaries as ordered sequences of key/value pairs: iteration order is
    insertion order, assigning to an existing key replaces its value in place, and
    assigning to a new key appends it. */
module Dicts {
  import opened Wrappers

  type Dict<K, V> = seq<(K, V)>

  function Keys<K, V>(d: Dict<K, V>): (ks: seq<K>)
    ensures |ks| == |d|
    ensures forall i :: 0 <= i < |d| ==> ks[i] == d[i].0
  {
    if d == [] then [] else [d[0].0] + Keys(d[1..])
  }

  /** Every key occurs once, as in a Python dict. */
  predicate UniqueKeys<K(==), V>(d: Dict<K, V>) {
    forall i, j :: 0 <= i < j < |d| ==> d[i].0 != d[j].0
  }

  /** `d.get(k)`. */
  function Get<K(==), V>(d: Dict<K, V>, k: K): (r: Option<V>)
    ensures r.None? <==> k !in Keys(d)
    ensures r.Some? ==> (k, r.value) in d
  {
    if d == [] then None
    else if d[0].0 == k then Some(d[0].1)
    else Get(d[1..], k)
  }

  /** `d[k] = v`. */
  function Put<K(==), V>(d: Dict<K, V>, k: K, v: V): (r: Dict<K, V>)
    ensures r != []
    ensures k in Keys(d) ==> Keys(r) == Keys(d)
    ensures k !in Keys(d) ==> Keys(r) == Keys(d) + [k]
  {
    if d == [] then [(k, v)]
    else if d[0].0 == k then [(k, v)] + d[1..]
    else
      var r := [d[0]] + Put(d[1..], k, v);
      assert r[1..] == Put(d[1..], k, v);
      r
  }

  /** After `d[k] = v`, `d.get(k)` is `v` and every other key reads as before. */
  lemma {:induction false} PutGet<K, V>(d: Dict<K, V>, k: K, v: V, k': K)
    ensures Get(Put(d, k, v), k') == if k' == k then Some(v) else Get(d, k')
  {
    if d != [] && d[0].0 != k {
      var r := Put(d, k, v);
      assert r[1..] == Put(d[1..], k, v);
      PutGet(d[1..], k, v, k');
    }
  }

  /** Assigning to a new key appends it with its value. */
  lemma {:induction false} PutFresh<K, V>(d: Dict<K, V>, k: K, v: V)
    requires k !in Keys(d)
    ensures Put(d, k, v) == d + [(k, v)]
  {
    if d != [] {
      assert Keys(d) == [d[0].0] + Keys(d[1..]);
      PutFresh(d[1..], k, v);
    }
  }

  /** Assignment keeps the keys of a dict distinct. */
  lemma PutKeepsKeysUnique<K, V>(d: Dict<K, V>, k: K, v: V)
    requires UniqueKeys(d)
    ensures UniqueKeys(Put(d, k, v))
  {
    var r := Put(d, k, v);
    assert forall i :: 0 <= i < |r| ==> r[i].0 == Keys(r)[i];
    assert forall i :: 0 <= i < |d| ==> d[i].0 == Keys(d)[i];
  }

  /** `dict(ps)`, or a mapping built by assigning the pairs in order (as a YAML
      loader builds one): a repeated key keeps its first position and its last value. */
  function FromPairs<K(==), V>(ps: seq<(K, V)>): Dict<K, V> {
    if ps == [] then []
    else Put(FromPairs(ps[..|ps| - 1]), ps[|ps| - 1].0, ps[|ps| - 1].1)
  }

  /** The keys of `dict(ps)` are distinct, and they are the keys of the pairs. */
  lemma {:induction false} FromPairsKeys<K, V>(ps: seq<(K, V)>)
    ensures UniqueKeys(FromPairs(ps))
    ensures forall k :: k in Keys(FromPairs(ps)) <==> k in Keys(ps)
  {
    if ps != [] {
      var init := ps[..|ps| - 1];
      FromPairsKeys(init);
      PutKeepsKeysUnique(FromPairs(init), ps[|ps| - 1].0, ps[|ps| - 1].1);
      assert Keys(ps) == Keys(init) + [ps[|ps| - 1].0];
    }
  }

  /** The value a key ends up with is the one of its last pair. */
  lemma {:induction false} FromPairsLastWins<K, V>(ps: seq<(K, V)>, i: nat)
    requires i < |ps|
    requires forall j :: i < j < |ps| ==> ps[j].0 != ps[i].0
    ensures Get(FromPairs(ps), ps[i].0) == Some(ps[i].1)
  {
    var last := |ps| - 1;
    var init := ps[..last];
    var (k, v) := ps[last];
    assert FromPairs(ps) == Put(FromPairs(init), k, v);
    if i == last {
      PutGet(FromPairs(init), k, v, k);
    } else {
      assert Get(FromPairs(init), ps[i].0) == Some(ps[i].1) by {
        assert init[i] == ps[i];
        assert forall j :: i < j < |init| ==> init[j] == ps[j];
        FromPairsLastWins(init, i);
      }
      PutGet(FromPairs(init), k, v, ps[i].0);
    }
  }
}
