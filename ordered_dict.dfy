/** A Python `dict` with its insertion order: a list of (key, value) pairs
    with distinct keys. Assigning to an existing key keeps its position,
    assigning to a new key appends it, and `del` removes the pair. */
module OrderedDict {
  import opened Wrappers

  type Dict<K, V> = seq<(K, V)>

  function Keys<K, V>(d: Dict<K, V>): (r: seq<K>)
    ensures |r| == |d|
    ensures forall i :: 0 <= i < |d| ==> r[i] == d[i].0
  {
    if d == [] then [] else [d[0].0] + Keys(d[1..])
  }

  ghost predicate Valid<K, V>(d: Dict<K, V>) {
    forall i, j :: 0 <= i < j < |d| ==> d[i].0 != d[j].0
  }

  predicate HasKey<K(==), V>(d: Dict<K, V>, k: K) {
    k in Keys(d)
  }

  /** `d.get(k)` */
  function Find<K(==), V>(d: Dict<K, V>, k: K): (r: Option<V>)
    ensures r.Some? <==> HasKey(d, k)
    ensures r.Some? ==> exists i :: 0 <= i < |d| && d[i] == (k, r.value)
  {
    if d == [] then None
    else if d[0].0 == k then Some(d[0].1)
    else
      var r := Find(d[1..], k);
      assert Keys(d) == [d[0].0] + Keys(d[1..]);
      assert r.Some? ==> exists i :: 0 <= i < |d| && d[i] == (k, r.value) by {
        if r.Some? {
          var i :| 0 <= i < |d[1..]| && d[1..][i] == (k, r.value);
          assert d[i + 1] == d[1..][i];
        }
      }
      r
  }

  /** `d[k] = v` */
  function Put<K(==), V>(d: Dict<K, V>, k: K, v: V): (r: Dict<K, V>)
    ensures HasKey(d, k) ==> |r| == |d| && Keys(r) == Keys(d)
    ensures !HasKey(d, k) ==> r == d + [(k, v)]
  {
    if d == [] then [(k, v)]
    else if d[0].0 == k then [(k, v)] + d[1..]
    else
      assert Keys(d) == [d[0].0] + Keys(d[1..]);
      [d[0]] + Put(d[1..], k, v)
  }

  /** `del d[k]` */
  function Remove<K(==), V>(d: Dict<K, V>, k: K): (r: Dict<K, V>)
    ensures |r| <= |d|
  {
    if d == [] then []
    else if d[0].0 == k then Remove(d[1..], k)
    else [d[0]] + Remove(d[1..], k)
  }

  lemma {:induction false} PutFound<K, V>(d: Dict<K, V>, k: K, v: V)
    ensures Find(Put(d, k, v), k) == Some(v)
    decreases |d|
  {
    if d != [] && d[0].0 != k {
      PutFound(d[1..], k, v);
    }
  }

  lemma {:induction false} PutOther<K, V>(d: Dict<K, V>, k: K, v: V, k': K)
    requires k' != k
    ensures Find(Put(d, k, v), k') == Find(d, k')
    decreases |d|
  {
    if d != [] && d[0].0 != k {
      PutOther(d[1..], k, v, k');
    }
  }

  /** `Put` changes the entry under `k` and no other. */
  lemma PutOthers<K, V>(d: Dict<K, V>, k: K, v: V)
    ensures Find(Put(d, k, v), k) == Some(v)
    ensures forall k' :: k' != k ==> Find(Put(d, k, v), k') == Find(d, k')
  {
    PutFound(d, k, v);
    forall k' | k' != k
      ensures Find(Put(d, k, v), k') == Find(d, k')
    {
      PutOther(d, k, v, k');
    }
  }

  lemma {:induction false} PutValid<K, V>(d: Dict<K, V>, k: K, v: V)
    requires Valid(d)
    ensures Valid(Put(d, k, v))
    decreases |d|
  {
    if d != [] && d[0].0 != k {
      PutValid(d[1..], k, v);
      var r := Put(d, k, v);
      var t := Put(d[1..], k, v);
      assert r == [d[0]] + t;
      forall j | 0 <= j < |t| ensures t[j].0 != d[0].0 {
        PutKeyFrom(d[1..], k, v, j);
      }
    }
  }

  lemma PutKeepsValid<K, V>(d: Dict<K, V>, k: K, v: V)
    ensures Valid(d) ==> Valid(Put(d, k, v))
  {
    if Valid(d) {
      PutValid(d, k, v);
    }
  }

  /** Every key of `Put(d, k, v)` is `k` or a key of `d`. */
  lemma {:induction false} PutKeyFrom<K, V>(d: Dict<K, V>, k: K, v: V, j: nat)
    requires j < |Put(d, k, v)|
    ensures Put(d, k, v)[j].0 == k || (j < |d| && Put(d, k, v)[j].0 == d[j].0)
    decreases |d|
  {
    if d != [] && d[0].0 != k && j > 0 {
      PutKeyFrom(d[1..], k, v, j - 1);
    }
  }

  lemma {:induction false} RemoveMissing<K, V>(d: Dict<K, V>, k: K)
    ensures !HasKey(Remove(d, k), k)
    decreases |d|
  {
    if d != [] {
      RemoveMissing(d[1..], k);
    }
  }

  lemma {:induction false} RemoveOther<K, V>(d: Dict<K, V>, k: K, k': K)
    requires k' != k
    ensures Find(Remove(d, k), k') == Find(d, k')
    decreases |d|
  {
    if d != [] {
      RemoveOther(d[1..], k, k');
    }
  }

  /** Removing a present key from a dict with distinct keys shrinks it by one. */
  lemma {:induction false} RemoveSize<K, V>(d: Dict<K, V>, k: K)
    requires Valid(d) && HasKey(d, k)
    ensures |Remove(d, k)| == |d| - 1
    decreases |d|
  {
    if d[0].0 == k {
      assert Keys(d[1..]) == Keys(d)[1..];
      assert k !in Keys(d[1..]);
      RemoveAbsent(d[1..], k);
    } else {
      assert Keys(d) == [d[0].0] + Keys(d[1..]);
      RemoveSize(d[1..], k);
    }
  }

  lemma {:induction false} RemoveAbsent<K, V>(d: Dict<K, V>, k: K)
    requires !HasKey(d, k)
    ensures Remove(d, k) == d
    decreases |d|
  {
    if d != [] {
      assert Keys(d) == [d[0].0] + Keys(d[1..]);
      RemoveAbsent(d[1..], k);
    }
  }

  lemma {:induction false} RemoveValid<K, V>(d: Dict<K, V>, k: K)
    requires Valid(d)
    ensures Valid(Remove(d, k))
    decreases |d|
  {
    if d != [] {
      RemoveValid(d[1..], k);
      if d[0].0 != k {
        var t := Remove(d[1..], k);
        forall j | 0 <= j < |t| ensures t[j].0 != d[0].0 {
          RemoveKeyFrom(d[1..], k, j);
        }
      }
    }
  }

  /** Every pair left by `Remove` was in `d`. */
  lemma {:induction false} RemoveKeyFrom<K, V>(d: Dict<K, V>, k: K, j: nat)
    requires j < |Remove(d, k)|
    ensures exists i :: j <= i < |d| && Remove(d, k)[j] == d[i]
    decreases |d|
  {
    if d[0].0 == k {
      RemoveKeyFrom(d[1..], k, j);
      var i :| j <= i < |d[1..]| && Remove(d[1..], k)[j] == d[1..][i];
      assert d[i + 1] == d[1..][i];
    } else if j > 0 {
      RemoveKeyFrom(d[1..], k, j - 1);
      var i :| j - 1 <= i < |d[1..]| && Remove(d[1..], k)[j - 1] == d[1..][i];
      assert d[i + 1] == d[1..][i];
    }
  }
}
