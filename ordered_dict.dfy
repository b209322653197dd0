/** Python dictionaries where their order matters, as association lists: the pairs in
    insertion order. Assigning to a present key keeps its position and replaces its value;
    assigning to an absent key appends; `del` removes the pair. */
module OrderedDict {
  import opened Outcomes

  type Assoc<K, V> = seq<(K, V)>

  predicate DistinctKeys<K(==), V>(d: Assoc<K, V>) {
    forall i, j :: 0 <= i < j < |d| ==> d[i].0 != d[j].0
  }

  function Keys<K, V>(d: Assoc<K, V>): (ks: seq<K>)
    ensures |ks| == |d|
    ensures forall i :: 0 <= i < |d| ==> ks[i] == d[i].0
  {
    if d == [] then [] else [d[0].0] + Keys(d[1..])
  }

  /** Python `d.get(k)`. */
  function Get<K(==), V>(d: Assoc<K, V>, k: K): (r: Option<V>) {
    if d == [] then None
    else if d[0].0 == k then Some(d[0].1)
    else Get(d[1..], k)
  }

  /** `d.get(k)` finds nothing exactly when no pair has key `k`. */
  lemma {:induction false} GetNone<K, V>(d: Assoc<K, V>, k: K)
    ensures Get(d, k).None? <==> forall i :: 0 <= i < |d| ==> d[i].0 != k
  {
    if d != [] {
      GetNone(d[1..], k);
      forall i | 0 <= i < |d[1..]| ensures d[1..][i] == d[i + 1] { }
    }
  }

  /** What `d.get(k)` finds is the value of a pair with key `k`. */
  lemma {:induction false} GetSome<K, V>(d: Assoc<K, V>, k: K)
    requires Get(d, k).Some?
    ensures exists i :: 0 <= i < |d| && d[i] == (k, Get(d, k).value)
  {
    if d[0].0 != k {
      GetSome(d[1..], k);
      var i :| 0 <= i < |d[1..]| && d[1..][i] == (k, Get(d, k).value);
      assert d[i + 1] == d[1..][i];
    } else {
      assert d[0] == (k, Get(d, k).value);
    }
  }

  /** With distinct keys, the pair at position `i` is what `d[k]` finds. */
  lemma {:induction false} GetAt<K, V>(d: Assoc<K, V>, i: nat)
    requires DistinctKeys(d) && i < |d|
    ensures Get(d, d[i].0) == Some(d[i].1)
  {
    if i > 0 {
      assert d[0].0 != d[i].0;
      assert d[1..][i - 1] == d[i];
      GetAt(d[1..], i - 1);
    }
  }

  /** Python `d[k] = v`. */
  function Put<K(==,!new), V>(d: Assoc<K, V>, k: K, v: V): (r: Assoc<K, V>)
    ensures Get(r, k) == Some(v)
    ensures forall k' :: k' != k ==> Get(r, k') == Get(d, k')
    ensures Get(d, k).Some? ==> Keys(r) == Keys(d)
    ensures Get(d, k).None? ==> Keys(r) == Keys(d) + [k]
  {
    if d == [] then [(k, v)]
    else if d[0].0 == k then [(k, v)] + d[1..]
    else [d[0]] + Put(d[1..], k, v)
  }

  /** The tail of a dict with distinct keys has distinct keys, none of them the head's. */
  lemma DistinctTail<K, V>(d: Assoc<K, V>)
    requires DistinctKeys(d) && d != []
    ensures DistinctKeys(d[1..])
    ensures forall i :: 0 <= i < |d[1..]| ==> d[1..][i].0 != d[0].0
  {
    var t := d[1..];
    forall i | 0 <= i < |t| ensures t[i].0 != d[0].0 { assert t[i] == d[i + 1]; }
    forall i, j | 0 <= i < j < |t| ensures t[i].0 != t[j].0 { assert t[i] == d[i + 1] && t[j] == d[j + 1]; }
  }

  /** A pair in front of a dict with distinct keys none of which is its own. */
  lemma DistinctCons<K, V>(x: (K, V), rest: Assoc<K, V>)
    requires DistinctKeys(rest)
    requires forall j :: 0 <= j < |rest| ==> rest[j].0 != x.0
    ensures DistinctKeys([x] + rest)
  {
    var r := [x] + rest;
    forall i, j | 0 <= i < j < |r| ensures r[i].0 != r[j].0 {
      assert r[j] == rest[j - 1];
      if i > 0 {
        assert r[i] == rest[i - 1];
      }
    }
  }

  lemma {:induction false} PutDistinct<K(!new), V>(d: Assoc<K, V>, k: K, v: V)
    requires DistinctKeys(d)
    ensures DistinctKeys(Put(d, k, v))
  {
    var r := Put(d, k, v);
    if d != [] && d[0].0 != k {
      var tail := d[1..];
      DistinctTail(d);
      PutDistinct(tail, k, v);
      var rest := Put(tail, k, v);
      assert r == [d[0]] + rest;
      forall j | 0 <= j < |rest| ensures rest[j].0 != d[0].0 {
        assert rest[j].0 == Keys(rest)[j];
        if j < |tail| {
          assert Keys(rest)[j] == Keys(tail)[j] == tail[j].0;
        }
      }
      DistinctCons(d[0], rest);
    } else if d != [] {
      forall i, j | 0 <= i < j < |r| ensures r[i].0 != r[j].0 {
        assert r[i].0 == d[i].0 && r[j].0 == d[j].0;
      }
    }
  }

  /** Python `del d[k]` (and a no-op when `k` is absent). */
  function Remove<K(==,!new), V>(d: Assoc<K, V>, k: K): (r: Assoc<K, V>)
    ensures Get(r, k).None?
    ensures forall k' :: k' != k ==> Get(r, k') == Get(d, k')
    ensures forall i :: 0 <= i < |r| ==> r[i] in d
    ensures Get(d, k).None? ==> r == d
  {
    if d == [] then []
    else if d[0].0 == k then Remove(d[1..], k)
    else [d[0]] + Remove(d[1..], k)
  }

  lemma {:induction false} RemoveDistinct<K(!new), V>(d: Assoc<K, V>, k: K)
    requires DistinctKeys(d)
    ensures DistinctKeys(Remove(d, k))
    ensures Get(d, k).Some? ==> |Remove(d, k)| == |d| - 1
  {
    if d != [] {
      var tail := d[1..];
      DistinctTail(d);
      RemoveDistinct(tail, k);
      var rest := Remove(tail, k);
      if d[0].0 == k {
        GetNone(tail, k);
      } else {
        forall j | 0 <= j < |rest| ensures rest[j].0 != d[0].0 {
          var m :| 0 <= m < |tail| && tail[m] == rest[j];
        }
        DistinctCons(d[0], rest);
      }
    }
  }

  /** Python `{v: k for k, v in d.items()}`: later pairs win, each key kept at the position
      where it was first inserted. */
  function Invert<K, V(==,!new)>(d: Assoc<K, V>): (r: Assoc<V, K>)
    ensures DistinctKeys(r)
  {
    if d == [] then []
    else
      var init := Invert(d[..|d| - 1]);
      PutDistinct(init, d[|d| - 1].1, d[|d| - 1].0);
      Put(init, d[|d| - 1].1, d[|d| - 1].0)
  }

  /** The inversion has an entry for `v` exactly when some pair holds `v`. */
  lemma {:induction false} InvertHas<K, V(!new)>(d: Assoc<K, V>, v: V)
    ensures Get(Invert(d), v).None? <==> forall i :: 0 <= i < |d| ==> d[i].1 != v
  {
    if d != [] {
      var n := |d|;
      var init := d[..n - 1];
      InvertHas(init, v);
      assert Invert(d) == Put(Invert(init), d[n - 1].1, d[n - 1].0);
      if d[n - 1].1 != v {
        assert Get(Invert(d), v) == Get(Invert(init), v);
        forall i | 0 <= i < n - 1 ensures init[i] == d[i] { }
        assert (forall i :: 0 <= i < |d| ==> d[i].1 != v) <==> (forall i :: 0 <= i < |init| ==> init[i].1 != v);
      } else {
        assert Get(Invert(d), v).Some?;
      }
    }
  }

  /** The inversion maps `v` to the key of the LAST pair holding `v`. */
  lemma {:induction false} InvertGet<K, V(!new)>(d: Assoc<K, V>, i: nat)
    requires i < |d|
    requires forall j :: i < j < |d| ==> d[j].1 != d[i].1
    ensures Get(Invert(d), d[i].1) == Some(d[i].0)
  {
    var n := |d|;
    var init := d[..n - 1];
    assert Invert(d) == Put(Invert(init), d[n - 1].1, d[n - 1].0);
    if i < n - 1 {
      assert init[i] == d[i];
      forall j | i < j < n - 1 ensures init[j].1 != init[i].1 {
        assert init[j] == d[j];
      }
      InvertGet(init, i);
    }
  }

  /** Assigning a key that is absent appends its pair. */
  lemma {:induction false} PutAbsent<K(!new), V>(d: Assoc<K, V>, k: K, v: V)
    requires Get(d, k).None?
    ensures Put(d, k, v) == d + [(k, v)]
    decreases |d|
  {
    if d != [] {
      PutAbsent(d[1..], k, v);
      assert d == [d[0]] + d[1..];
    }
  }

  /** A last pair whose index no earlier pair holds is appended, swapped, to the inversion. */
  lemma {:induction false} InvertFreshLast<K, V(!new)>(d: Assoc<K, V>)
    requires d != [] && forall j :: 0 <= j < |d| - 1 ==> d[j].1 != d[|d| - 1].1
    ensures Invert(d) == Invert(d[..|d| - 1]) + [(d[|d| - 1].1, d[|d| - 1].0)]
  {
    var n := |d|;
    var init := d[..n - 1];
    forall j | 0 <= j < |init| ensures init[j].1 != d[n - 1].1 {
      assert init[j] == d[j];
    }
    InvertHas(init, d[n - 1].1);
    PutAbsent(Invert(init), d[n - 1].1, d[n - 1].0);
    assert Invert(d) == Put(Invert(init), d[n - 1].1, d[n - 1].0);
  }

  /** Every pair of `d` turned round, in order. */
  function Swapped<K, V>(d: Assoc<K, V>): Assoc<V, K> {
    seq(|d|, j requires 0 <= j < |d| => (d[j].1, d[j].0))
  }

  /** With no index shared by two classes, the inversion is the pairwise swap, in order. */
  lemma {:induction false} InvertSwaps<K, V(!new)>(d: Assoc<K, V>)
    requires forall a, b :: 0 <= a < b < |d| ==> d[a].1 != d[b].1
    ensures Invert(d) == Swapped(d)
    decreases |d|
  {
    if d != [] {
      var n := |d|;
      var init := d[..n - 1];
      InvertSwaps(init);
      InvertFreshLast(d);
      assert Swapped(d) == Swapped(init) + [(d[n - 1].1, d[n - 1].0)];
    }
  }



  /** With no index shared by two classes, each index maps back to its own class and the
      inversion is the pairwise swap, in the original order. */
  lemma InvertInjective<K, V(!new)>(d: Assoc<K, V>, i: nat)
    requires i < |d|
    requires forall a, b :: 0 <= a < b < |d| ==> d[a].1 != d[b].1
    ensures Get(Invert(d), d[i].1) == Some(d[i].0)
    ensures |Invert(d)| == |d| && forall j :: 0 <= j < |d| ==> Invert(d)[j] == (d[j].1, d[j].0)
  {
    InvertGet(d, i);
    InvertSwaps(d);
  }



  /** The first key of the inversion is the value of the first pair. */
  lemma {:induction false} InvertFirstKey<K, V(!new)>(d: Assoc<K, V>)
    requires |d| > 0
    ensures |Invert(d)| > 0 && Invert(d)[0].0 == d[0].1
  {
    if |d| > 1 {
      var init := d[..|d| - 1];
      assert init[0] == d[0];
      InvertFirstKey(init);
      var r := Invert(d);
      assert Keys(Invert(init))[0] == d[0].1;
      assert Keys(r)[0] == r[0].0;
    }
  }

  /** Dropping the first key of a dict with distinct keys leaves the other pairs. */
  lemma RemoveFirst<K(!new), V>(d: Assoc<K, V>)
    requires DistinctKeys(d) && |d| > 0
    ensures Remove(d, d[0].0) == d[1..]
    ensures DistinctKeys(d[1..])
  {
    DistinctTail(d);
    GetNone(d[1..], d[0].0);
  }
}
