/** An insertion-ordered dictionary, the way a Python `dict` behaves: a sequence of
    (key, value) pairs whose keys are distinct. Assigning to a key that is already
    present keeps its position; assigning to a new key appends it; popping a key
    removes its pair and keeps the order of the rest. */
module OrderedDict {

  datatype Option<T> = None | Some(value: T)

  /** The keys of `d`, in order. */
  function Keys<K, V>(d: seq<(K, V)>): (ks: seq<K>)
    ensures |ks| == |d|
    ensures forall i :: 0 <= i < |d| ==> ks[i] == d[i].0
  {
    if d == [] then [] else [d[0].0] + Keys(d[1..])
  }

  /** The invariant of every Python dict: no key occurs twice. */
  ghost predicate DistinctKeys<K, V>(d: seq<(K, V)>) {
    forall i, j :: 0 <= i < j < |d| ==> d[i].0 != d[j].0
  }

  /** `ks` with every occurrence of `k` taken out, order kept. */
  function Without<K(==,!new)>(ks: seq<K>, k: K): (r: seq<K>)
    ensures k !in r
    ensures forall x :: x in r <==> x in ks && x != k
    ensures k !in ks ==> r == ks
  {
    if ks == [] then []
    else if ks[0] == k then Without(ks[1..], k)
    else [ks[0]] + Without(ks[1..], k)
  }

  /** Python `d.get(k, None)`: the value stored under `k`, if any. */
  function Get<K(==), V>(d: seq<(K, V)>, k: K): (r: Option<V>)
    ensures r.Some? <==> k in Keys(d)
    ensures r.Some? ==> (k, r.value) in d
  {
    if d == [] then None
    else if d[0].0 == k then Some(d[0].1)
    else Get(d[1..], k)
  }

  /** The position of the first occurrence of `k` in `ks`. */
  function IndexOf<K(==)>(ks: seq<K>, k: K): (i: nat)
    requires k in ks
    ensures i < |ks| && ks[i] == k
  {
    if ks[0] == k then 0 else 1 + IndexOf(ks[1..], k)
  }

  /** Python `d[k] = v`: the pair of a present key is overwritten where it stands; a
      new key is appended at the end. */
  function Assign<K(==,!new), V>(d: seq<(K, V)>, k: K, v: V): (r: seq<(K, V)>)
    requires DistinctKeys(d)
    ensures DistinctKeys(r)
    ensures k in Keys(d) ==> Keys(r) == Keys(d)
    ensures k !in Keys(d) ==> Keys(r) == Keys(d) + [k]
    ensures Get(r, k) == Some(v)
    ensures forall j :: j != k ==> Get(r, j) == Get(d, j)
  {
    if k in Keys(d) then
      var i := IndexOf(Keys(d), k);
      OverwriteFacts(d, i, v);
      d[i := (k, v)]
    else
      AppendFacts(d, k, v);
      d + [(k, v)]
  }

  /** In a dict, the key at position `i` looks up the value at position `i`. */
  lemma {:induction false} GetAt<K, V>(d: seq<(K, V)>, i: nat)
    requires DistinctKeys(d) && i < |d|
    ensures Get(d, d[i].0) == Some(d[i].1)
  {
    if i > 0 {
      NotInLaterKeys(d);
      assert d[1..][i - 1] == d[i];
      GetAt(d[1..], i - 1);
    }
  }

  /** Two dicts that agree at every position where `j` occurs in either agree on `j`. */
  lemma GetAgree<K, V>(d: seq<(K, V)>, r: seq<(K, V)>, j: K)
    requires DistinctKeys(d) && DistinctKeys(r)
    requires j in Keys(r) <==> j in Keys(d)
    requires forall m :: 0 <= m < |d| && d[m].0 == j ==> m < |r| && r[m] == d[m]
    ensures Get(r, j) == Get(d, j)
  {
    if j in Keys(d) {
      var m := IndexOf(Keys(d), j);
      GetAt(d, m);
      GetAt(r, m);
    }
  }

  lemma OverwriteFacts<K, V>(d: seq<(K, V)>, i: nat, v: V)
    requires DistinctKeys(d) && i < |d|
    ensures DistinctKeys(d[i := (d[i].0, v)])
    ensures Keys(d[i := (d[i].0, v)]) == Keys(d)
    ensures Get(d[i := (d[i].0, v)], d[i].0) == Some(v)
    ensures forall j :: j != d[i].0 ==> Get(d[i := (d[i].0, v)], j) == Get(d, j)
  {
    var r := d[i := (d[i].0, v)];
    assert Keys(r) == Keys(d);
    GetAt(r, i);
    forall j | j != d[i].0 ensures Get(r, j) == Get(d, j) {
      GetAgree(d, r, j);
    }
  }

  lemma AppendFacts<K, V>(d: seq<(K, V)>, k: K, v: V)
    requires DistinctKeys(d) && k !in Keys(d)
    ensures DistinctKeys(d + [(k, v)])
    ensures Keys(d + [(k, v)]) == Keys(d) + [k]
    ensures Get(d + [(k, v)], k) == Some(v)
    ensures forall j :: j != k ==> Get(d + [(k, v)], j) == Get(d, j)
  {
    var r := d + [(k, v)];
    assert Keys(r) == Keys(d) + [k];
    forall m | 0 <= m < |d| ensures d[m].0 != k {
      assert Keys(d)[m] == d[m].0;
    }
    GetAt(r, |d|);
    forall j | j != k ensures Get(r, j) == Get(d, j) {
      GetAgree(d, r, j);
    }
  }

  /** Python `d.pop(k)` for a key that is present (the caller checks presence first). */
  function Pop<K(==,!new), V>(d: seq<(K, V)>, k: K): (r: seq<(K, V)>)
    requires DistinctKeys(d) && k in Keys(d)
    ensures DistinctKeys(r)
    ensures Keys(r) == Without(Keys(d), k)
    ensures Get(r, k) == None
    ensures forall j :: j != k ==> Get(r, j) == Get(d, j)
  {
    if d[0].0 == k then
      assert k !in Keys(d[1..]) by { NotInLaterKeys(d); }
      d[1..]
    else
      var rest := Pop(d[1..], k);
      NotInLaterKeys(d);
      ConsKeys(d[0], rest);
      ConsDistinct(d[0], rest);
      [d[0]] + rest
  }

  /** The first key of a dict with distinct keys does not occur again. */
  lemma NotInLaterKeys<K, V>(d: seq<(K, V)>)
    requires DistinctKeys(d) && d != []
    ensures DistinctKeys(d[1..])
    ensures d[0].0 !in Keys(d[1..])
  {
  }

  /** How the dictionary operations see a pair put in front of a dictionary. */
  lemma ConsKeys<K, V>(p: (K, V), d: seq<(K, V)>)
    ensures ([p] + d)[1..] == d
    ensures Keys([p] + d) == [p.0] + Keys(d)
  {
  }

  /** A pair whose key is new may be put in front of a dictionary. */
  lemma ConsDistinct<K, V>(p: (K, V), d: seq<(K, V)>)
    requires DistinctKeys(d) && p.0 !in Keys(d)
    ensures DistinctKeys([p] + d)
  {
    forall i, j | 0 <= i < j < |[p] + d| ensures ([p] + d)[i].0 != ([p] + d)[j].0 {
      if i == 0 {
        assert ([p] + d)[j].0 == Keys(d)[j - 1];
      }
    }
  }

  ghost predicate Distinct<K>(ks: seq<K>) {
    forall i, j :: 0 <= i < j < |ks| ==> ks[i] != ks[j]
  }

  lemma DistinctKeysDistinct<K, V>(d: seq<(K, V)>)
    requires DistinctKeys(d)
    ensures Distinct(Keys(d))
  {
  }

  /** Taking a key out of a list of distinct keys shortens it by one exactly when the
      key is there. */
  lemma {:induction false} WithoutOnce<K(!new)>(ks: seq<K>, k: K)
    requires Distinct(ks)
    ensures |Without(ks, k)| == if k in ks then |ks| - 1 else |ks|
  {
    if ks != [] {
      assert Distinct(ks[1..]);
      WithoutOnce(ks[1..], k);
      if ks[0] == k {
        assert k !in ks[1..];
      } else {
        assert k in ks <==> k in ks[1..];
      }
    }
  }
}
