/** Insertion-ordered maps with string keys (the `IndexMap<String, V>` of the program),
    represented as sequences of key/value pairs. */
module IndexMaps {
  import opened Wrappers

  /** The keys of an ordered map, in order. */
  function Keys<V>(m: seq<(string, V)>): (ks: seq<string>)
    ensures |ks| == |m|
    ensures forall i :: 0 <= i < |m| ==> ks[i] == m[i].0
  {
    if m == [] then [] else [m[0].0] + Keys(m[1..])
  }

  /** Every key occurs once: what `IndexMap` guarantees of its contents. */
  predicate UniqueKeys<V>(m: seq<(string, V)>) {
    forall i, j :: 0 <= i < j < |m| ==> m[i].0 != m[j].0
  }

  /** `IndexMap::get`: the value stored under `k`, if any. */
  function Get<V>(m: seq<(string, V)>, k: string): (r: Option<V>)
    ensures r.None? <==> k !in Keys(m)
  {
    if m == [] then None
    else if m[0].0 == k then Some(m[0].1)
    else Get(m[1..], k)
  }

  /** `IndexMap::insert`: a present key keeps its position and gets the new value;
      an absent key is appended at the end. */
  function Insert<V>(m: seq<(string, V)>, k: string, v: V): (r: seq<(string, V)>)
    ensures k in Keys(m) ==> Keys(r) == Keys(m)
    ensures k !in Keys(m) ==> r == m + [(k, v)]
  {
    if m == [] then [(k, v)]
    else if m[0].0 == k then [(k, v)] + m[1..]
    else [m[0]] + Insert(m[1..], k, v)
  }

  /** A value found by `Get` is stored in the map (used to show that recursion into it terminates). */
  lemma {:induction false} GetFound<V>(m: seq<(string, V)>, k: string)
    requires Get(m, k).Some?
    ensures exists i :: 0 <= i < |m| && m[i] == (k, Get(m, k).value)
  {
    if m[0].0 != k {
      GetFound(m[1..], k);
      var i :| 0 <= i < |m[1..]| && m[1..][i] == (k, Get(m, k).value);
      assert m[i + 1] == m[1..][i];
    }
  }

  lemma GetCons<V>(x: (string, V), m: seq<(string, V)>, k: string)
    ensures Get([x] + m, k) == if x.0 == k then Some(x.1) else Get(m, k)
  {
    assert ([x] + m)[1..] == m;
  }

  /** Lookup in a map that starts with a given pair, for every key at once. */
  lemma GetConsAll<V>(x: (string, V), m: seq<(string, V)>)
    ensures forall k :: Get([x] + m, k) == if x.0 == k then Some(x.1) else Get(m, k)
  {
    forall k ensures Get([x] + m, k) == if x.0 == k then Some(x.1) else Get(m, k) {
      GetCons(x, m, k);
    }
  }

  lemma {:induction false} GetConcat<V>(a: seq<(string, V)>, b: seq<(string, V)>, k: string)
    ensures Get(a + b, k) == if Get(a, k).Some? then Get(a, k) else Get(b, k)
  {
    if a == [] {
      assert a + b == b;
    } else if a[0].0 != k {
      assert (a + b)[1..] == a[1..] + b;
      GetConcat(a[1..], b, k);
    }
  }

  lemma {:induction false} GetUnique<V>(m: seq<(string, V)>, i: nat)
    requires UniqueKeys(m) && i < |m|
    ensures Get(m, m[i].0) == Some(m[i].1)
  {
    if i > 0 {
      assert m[0].0 != m[i].0;
      assert m[1..][i - 1] == m[i];
      GetUnique(m[1..], i - 1);
    }
  }

  lemma {:induction false} GetInsert<V>(m: seq<(string, V)>, k: string, v: V, q: string)
    ensures Get(Insert(m, k, v), q) == if q == k then Some(v) else Get(m, q)
  {
    if m != [] && m[0].0 != k {
      GetInsert(m[1..], k, v, q);
    }
  }
}
