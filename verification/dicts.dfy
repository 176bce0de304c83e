/** Insertion-ordered dictionaries, kept as their entries in iteration
    order. `Set` is the subscript assignment `d[k] = v`: an existing key
    keeps its position and takes the new value, a new key goes last. */
module Dicts {
  import opened Values

  type Dict<K, V> = seq<(K, V)>

  function Keys<K, V>(d: Dict<K, V>): (ks: seq<K>)
    ensures |ks| == |d|
    ensures forall i :: 0 <= i < |d| ==> ks[i] == d[i].0
  {
    seq(|d|, i requires 0 <= i < |d| => d[i].0)
  }

  /** No key occurs twice, as in every dict. */
  predicate DistinctKeys<K(==), V>(d: Dict<K, V>) {
    forall i, j :: 0 <= i < j < |d| ==> d[i].0 != d[j].0
  }

  /** Position of the first occurrence of `k` in `ks`, or -1. */
  function IndexOf<K(==)>(ks: seq<K>, k: K): (i: int)
    ensures -1 <= i < |ks|
    ensures i == -1 <==> k !in ks
    ensures 0 <= i ==> ks[i] == k && k !in ks[..i]
  {
    if ks == [] then -1
    else if ks[0] == k then 0
    else
      var j := IndexOf(ks[1..], k);
      if j == -1 then -1 else
        assert ks[..j + 1] == [ks[0]] + ks[1..][..j];
        j + 1
  }

  /** The first occurrence is the only position with `k` and no `k` before it. */
  lemma {:induction false} IndexOfUnique<K>(ks: seq<K>, k: K, i: nat)
    requires i < |ks| && ks[i] == k && k !in ks[..i]
    ensures IndexOf(ks, k) == i
  {
    if i > 0 {
      assert ks[..i][0] == ks[0];
      assert ks[1..][..i - 1] == ks[1..i];
      assert forall m :: 0 <= m < i - 1 ==> ks[1..i][m] == ks[..i][m + 1];
      IndexOfUnique(ks[1..], k, i - 1);
    }
  }

  lemma IndexOfAppend<K>(ks: seq<K>, k: K, k': K)
    requires k' != k
    ensures IndexOf(ks + [k], k') == IndexOf(ks, k')
  {
    var j := IndexOf(ks, k');
    if 0 <= j {
      assert (ks + [k])[..j] == ks[..j];
      IndexOfUnique(ks + [k], k', j);
    } else {
      assert k' !in ks + [k];
    }
  }

  /** d.get(k) */
  function Get<K(==), V>(d: Dict<K, V>, k: K): (r: Option<V>)
    ensures r.Some? <==> k in Keys(d)
    ensures r.Some? ==> (k, r.value) in d
  {
    var i := IndexOf(Keys(d), k);
    if i < 0 then None else Some(d[i].1)
  }

  /** d[k] = v */
  function Set<K(==,!new), V>(d: Dict<K, V>, k: K, v: V): (r: Dict<K, V>)
    ensures k in Keys(d) ==> Keys(r) == Keys(d)
    ensures k !in Keys(d) ==> r == d + [(k, v)]
    ensures DistinctKeys(d) ==> DistinctKeys(r)
  {
    var i := IndexOf(Keys(d), k);
    if i < 0 then
      assert Keys(d + [(k, v)]) == Keys(d) + [k];
      forall k' | k' != k ensures IndexOf(Keys(d + [(k, v)]), k') == IndexOf(Keys(d), k') {
        IndexOfAppend(Keys(d), k, k');
      }
      d + [(k, v)]
    else
      var r := d[i := (k, v)];
      assert Keys(r) == Keys(d);
      r
  }

  /** After `d[k] = v`, looking up `k` gives `v` and every other key gives
      what it gave before. */
  lemma SetGet<K(!new), V>(d: Dict<K, V>, k: K, v: V)
    ensures Get(Set(d, k, v), k) == Some(v)
    ensures forall k' :: k' != k ==> Get(Set(d, k, v), k') == Get(d, k')
  {
    if k !in Keys(d) {
      assert Keys(d + [(k, v)]) == Keys(d) + [k];
      forall k' | k' != k ensures IndexOf(Keys(d + [(k, v)]), k') == IndexOf(Keys(d), k') {
        IndexOfAppend(Keys(d), k, k');
      }
    }
  }

  /** Folds `Set` over `entries`, in order. */
  function SetAll<K(==,!new), V>(d: Dict<K, V>, entries: Dict<K, V>): (r: Dict<K, V>)
    decreases |entries|
  {
    if entries == [] then d
    else
      var n := |entries| - 1;
      Set(SetAll(d, entries[..n]), entries[n].0, entries[n].1)
  }

  /** Folding one more entry sets it last. */
  lemma SetAllSnoc<K(!new), V>(d: Dict<K, V>, entries: Dict<K, V>, x: (K, V))
    ensures SetAll(d, entries + [x]) == Set(SetAll(d, entries), x.0, x.1)
  {
    assert (entries + [x])[..|entries|] == entries;
  }

  /** Folding `Set` over entries whose keys are new and distinct appends them. */
  lemma {:induction false} SetAllAppends<K(!new), V>(d: Dict<K, V>, entries: Dict<K, V>)
    requires DistinctKeys(d + entries)
    ensures SetAll(d, entries) == d + entries
    decreases |entries|
  {
    if entries != [] {
      var n := |entries| - 1;
      var init := entries[..n];
      var prefix := d + init;
      var x := entries[n];
      assert entries == init + [x];
      assert d + entries == prefix + [x];
      DistinctKeysPrefix(d + entries, |prefix|);
      assert (d + entries)[..|prefix|] == prefix;
      SetAllAppends(d, init);
      SetAllSnoc(d, init, x);
      forall i | 0 <= i < |prefix| ensures Keys(prefix)[i] != x.0 {
        assert prefix[i] == (d + entries)[i];
      }
    }
  }

  /** In a dict with distinct keys, an entry's key reads as its value. */
  lemma GetMember<K, V>(d: Dict<K, V>, k: K, v: V)
    requires DistinctKeys(d) && (k, v) in d
    ensures Get(d, k) == Some(v)
  {
    var p :| 0 <= p < |d| && d[p] == (k, v);
    assert forall m :: 0 <= m < p ==> Keys(d)[..p][m] != k;
    IndexOfUnique(Keys(d), k, p);
  }

  /** Folding never moves a key already there. */
  lemma {:induction false} SetAllKeepsKeys<K(!new), V>(d: Dict<K, V>, entries: Dict<K, V>)
    ensures |SetAll(d, entries)| >= |d|
    ensures Keys(SetAll(d, entries))[..|d|] == Keys(d)
    decreases |entries|
  {
    if entries != [] {
      var n := |entries| - 1;
      SetAllKeepsKeys(d, entries[..n]);
      var prev := SetAll(d, entries[..n]);
      if entries[n].0 !in Keys(prev) {
        assert Keys(prev + [entries[n]])[..|d|] == Keys(prev)[..|d|];
      }
    }
  }

  /** A key other than the last entry's reads as it did before that entry. */
  lemma GetDropLast<K, V>(d: Dict<K, V>, k: K)
    requires d != [] && k != d[|d| - 1].0
    ensures Get(d, k) == Get(d[..|d| - 1], k)
  {
    var n := |d| - 1;
    assert d == d[..n] + [d[n]];
    assert Keys(d) == Keys(d[..n]) + [d[n].0];
    IndexOfAppend(Keys(d[..n]), d[n].0, k);
  }

  /** A prefix of a dict with distinct keys has distinct keys. */
  lemma DistinctKeysPrefix<K, V>(d: Dict<K, V>, n: nat)
    requires DistinctKeys(d) && n <= |d|
    ensures DistinctKeys(d[..n])
  {
    forall i, j | 0 <= i < j < n ensures d[..n][i].0 != d[..n][j].0 {
      assert d[..n][i] == d[i] && d[..n][j] == d[j];
    }
  }

  /** After folding entries whose keys are distinct, a key they hold reads
      as their value and any other key reads as before. */
  lemma {:induction false} SetAllGet<K(!new), V>(d: Dict<K, V>, entries: Dict<K, V>, k: K)
    requires DistinctKeys(entries)
    ensures Get(SetAll(d, entries), k) == if k in Keys(entries) then Get(entries, k) else Get(d, k)
    decreases |entries|
  {
    if entries != [] {
      var n := |entries| - 1;
      DistinctKeysPrefix(entries, n);
      SetAllGet(d, entries[..n], k);
      SetAllGetStep(d, entries, k);
    }
  }

  lemma SetAllGetStep<K(!new), V>(d: Dict<K, V>, entries: Dict<K, V>, k: K)
    requires DistinctKeys(entries) && entries != []
    requires var init := entries[..|entries| - 1];
      Get(SetAll(d, init), k) == if k in Keys(init) then Get(init, k) else Get(d, k)
    ensures Get(SetAll(d, entries), k) == if k in Keys(entries) then Get(entries, k) else Get(d, k)
  {
    var n := |entries| - 1;
    var last := entries[n];
    var prev := SetAll(d, entries[..n]);
    assert SetAll(d, entries) == Set(prev, last.0, last.1);
    SetGet(prev, last.0, last.1);
    if k == last.0 {
      GetMember(entries, k, last.1);
    } else {
      GetDropLast(entries, k);
      assert Keys(entries) == Keys(entries[..n]) + [last.0];
    }
  }

  /** Two dicts with distinct keys and no key in common concatenate to a
      dict with distinct keys. */
  lemma DistinctConcat<K(!new), V>(a: Dict<K, V>, b: Dict<K, V>)
    requires DistinctKeys(a) && DistinctKeys(b)
    requires forall k :: k in Keys(b) ==> k !in Keys(a)
    ensures DistinctKeys(a + b)
  {
    forall i, j | 0 <= i < j < |a + b| ensures (a + b)[i].0 != (a + b)[j].0 {
      if j < |a| {
        assert (a + b)[i] == a[i] && (a + b)[j] == a[j];
      } else if i >= |a| {
        assert (a + b)[i] == b[i - |a|] && (a + b)[j] == b[j - |a|];
      } else {
        assert (a + b)[i] == a[i] && (a + b)[j] == b[j - |a|];
        assert Keys(a)[i] in Keys(a) && Keys(b)[j - |a|] in Keys(b);
      }
    }
  }
}
