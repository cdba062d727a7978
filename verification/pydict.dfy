/** A Python `dict`: an association list kept in insertion order. Assigning
    to a key that is already present replaces its value where it stands;
    assigning a new key appends it. Iteration, `str()` and therefore every
    hash the system computes over a dict follow this order. */
module PyDict {
  import opened Results

  type Dict<K, V> = seq<(K, V)>

  function Keys<K, V>(d: Dict<K, V>): seq<K>
    decreases |d|
  {
    if |d| == 0 then [] else [d[0].0] + Keys(d[1..])
  }

  predicate Distinct<T(==)>(s: seq<T>) {
    forall i, j :: 0 <= i < j < |s| ==> s[i] != s[j]
  }

  /** Every Python dict has pairwise different keys. */
  predicate DistinctKeys<K(==), V>(d: Dict<K, V>) {
    Distinct(Keys(d))
  }

  lemma KeysLength<K, V>(d: Dict<K, V>)
    ensures |Keys(d)| == |d|
    ensures forall i :: 0 <= i < |d| ==> Keys(d)[i] == d[i].0
  {
  }

  /** `d.get(k)`, as an Option. */
  function Get<K(==), V>(d: Dict<K, V>, k: K): Option<V>
    decreases |d|
  {
    if |d| == 0 then None
    else if d[0].0 == k then Some(d[0].1)
    else Get(d[1..], k)
  }

  lemma {:induction false} GetPresent<K, V>(d: Dict<K, V>, k: K)
    ensures Get(d, k).Some? <==> k in Keys(d)
    decreases |d|
  {
    if |d| > 0 {
      GetPresent(d[1..], k);
    }
  }

  /** The first pair with key `k` gives `d.get(k)`. */
  lemma {:induction false} GetFirst<K, V>(d: Dict<K, V>, k: K, i: nat)
    requires i < |d| && d[i].0 == k
    requires forall j :: 0 <= j < i ==> d[j].0 != k
    ensures Get(d, k) == Some(d[i].1)
    decreases i
  {
    if i > 0 {
      GetFirst(d[1..], k, i - 1);
    }
  }

  /** In a dict with distinct keys, the pair at position `i` is what `Get`
      finds for its key. */
  lemma {:induction false} GetAt<K, V>(c: Dict<K, V>, i: nat)
    requires i < |c| && DistinctKeys(c)
    ensures Get(c, c[i].0) == Some(c[i].1)
    decreases i
  {
    KeysLength(c);
    if i > 0 {
      assert Keys(c)[0] != Keys(c)[i];
      KeysLength(c[1..]);
      assert Keys(c[1..]) == Keys(c)[1..];
      GetAt(c[1..], i - 1);
    }
  }

  /** `d.get(k, default)` */
  function GetOr<K(==), V>(d: Dict<K, V>, k: K, default: V): V {
    Get(d, k).GetOr(default)
  }

  /** `d[k] = v`: the new value is visible under `k`, every other key reads
      as before, and the key order changes only by appending a new key. */
  function Put<K(==,!new), V>(d: Dict<K, V>, k: K, v: V): (r: Dict<K, V>)
    ensures Get(r, k) == Some(v)
    ensures forall j :: j != k ==> Get(r, j) == Get(d, j)
    ensures Keys(r) == if k in Keys(d) then Keys(d) else Keys(d) + [k]
    decreases |d|
  {
    if |d| == 0 then [(k, v)]
    else if d[0].0 == k then [(k, v)] + d[1..]
    else [d[0]] + Put(d[1..], k, v)
  }

  lemma PutKeepsDistinct<K(!new), V>(d: Dict<K, V>, k: K, v: V)
    requires DistinctKeys(d)
    ensures DistinctKeys(Put(d, k, v))
  {
  }

  /** `d.pop(k)` on a key that is present, or nothing when it is absent: the
      key disappears and the remaining keys keep their order. */
  function Remove<K(==,!new), V>(d: Dict<K, V>, k: K): (r: Dict<K, V>)
    ensures Get(r, k) == None
    ensures forall j :: j != k ==> Get(r, j) == Get(d, j)
    ensures |r| <= |d|
    decreases |d|
  {
    if |d| == 0 then []
    else if d[0].0 == k then Remove(d[1..], k)
    else [d[0]] + Remove(d[1..], k)
  }

  /** The value the LAST pair with key `k` carries: what a dict built from the
      pairs in order ends up holding. */
  function LastValue<K(==), V>(ps: seq<(K, V)>, k: K): Option<V>
    decreases |ps|
  {
    if |ps| == 0 then None
    else
      var rest := LastValue(ps[1..], k);
      if rest.Some? then rest
      else if ps[0].0 == k then Some(ps[0].1)
      else None
  }

  lemma {:induction false} LastValueAbsent<K, V>(ps: seq<(K, V)>, k: K)
    requires forall j :: 0 <= j < |ps| ==> ps[j].0 != k
    ensures LastValue(ps, k) == None
    decreases |ps|
  {
    if |ps| > 0 {
      LastValueAbsent(ps[1..], k);
    }
  }

  /** Some pair carries the key exactly when the key is among the keys. */
  lemma {:induction false} LastValuePresent<K, V>(ps: seq<(K, V)>, k: K)
    ensures LastValue(ps, k).Some? <==> k in Keys(ps)
    decreases |ps|
  {
    if |ps| > 0 {
      LastValuePresent(ps[1..], k);
    }
  }

  /** A pair no later pair shares its key with gives the key's last value. */
  lemma {:induction false} LastValueLast<K, V>(ps: seq<(K, V)>, i: nat)
    requires i < |ps|
    requires forall j :: i < j < |ps| ==> ps[j].0 != ps[i].0
    ensures LastValue(ps, ps[i].0) == Some(ps[i].1)
    decreases |ps|
  {
    if i == 0 {
      LastValueAbsent(ps[1..], ps[0].0);
    } else {
      assert ps[1..][i - 1] == ps[i];
      LastValueLast(ps[1..], i - 1);
    }
  }

  /** The keys that a dict starting with keys `ks` has after the keys `ns` are
      assigned in order: each new key is appended at its first assignment. */
  function KeysAfter<K(==)>(ks: seq<K>, ns: seq<K>): seq<K>
    decreases |ns|
  {
    if |ns| == 0 then ks
    else if ns[0] in ks then KeysAfter(ks, ns[1..])
    else KeysAfter(ks + [ns[0]], ns[1..])
  }

  /** `d.update(e)` where `e` is given as its sequence of pairs: the last pair
      for a key wins, keys not in `e` read as before, and new keys are
      appended in the order of their first appearance in `e`. */
  function Update<K(==,!new), V>(d: Dict<K, V>, e: seq<(K, V)>): (r: Dict<K, V>)
    ensures forall j :: Get(r, j) == (if LastValue(e, j).Some? then LastValue(e, j) else Get(d, j))
    ensures Keys(r) == KeysAfter(Keys(d), Keys(e))
    decreases |e|
  {
    if |e| == 0 then d
    else Update(Put(d, e[0].0, e[0].1), e[1..])
  }

  /** A dict display or comprehension `{k: v for ...}` over the given pairs. */
  function FromPairs<K(==,!new), V>(ps: seq<(K, V)>): (r: Dict<K, V>)
    ensures forall j :: Get(r, j) == LastValue(ps, j)
    ensures Keys(r) == KeysAfter([], Keys(ps))
  {
    Update([], ps)
  }

  lemma {:induction false} KeysAfterDistinct<K>(ks: seq<K>, ns: seq<K>)
    requires Distinct(ks)
    ensures Distinct(KeysAfter(ks, ns))
    decreases |ns|
  {
    if |ns| > 0 {
      if ns[0] in ks {
        KeysAfterDistinct(ks, ns[1..]);
      } else {
        KeysAfterDistinct(ks + [ns[0]], ns[1..]);
      }
    }
  }

  lemma {:induction false} KeysAfterContents<K>(ks: seq<K>, ns: seq<K>)
    ensures forall x :: x in KeysAfter(ks, ns) <==> x in ks || x in ns
    ensures |KeysAfter(ks, ns)| <= |ks| + |ns|
    decreases |ns|
  {
    if |ns| > 0 {
      if ns[0] in ks {
        KeysAfterContents(ks, ns[1..]);
      } else {
        KeysAfterContents(ks + [ns[0]], ns[1..]);
      }
    }
  }

  /** Position of the first occurrence of `x` in `s`. */
  function FirstIndex<T(==)>(s: seq<T>, x: T): (i: nat)
    requires x in s
    ensures i < |s| && s[i] == x && x !in s[..i]
    decreases |s|
  {
    if s[0] == x then 0
    else
      var i := 1 + FirstIndex(s[1..], x);
      assert s[..i] == [s[0]] + s[1..][..i - 1];
      i
  }

  /** The keys `r` stand in the order in which they first occur in `ns`. */
  predicate InFirstAppearanceOrder<K(==)>(ns: seq<K>, r: seq<K>) {
    forall i, j :: 0 <= i < j < |r| && r[i] in ns && r[j] in ns ==>
      FirstIndex(ns, r[i]) < FirstIndex(ns, r[j])
  }

  lemma FirstIndexUnique<T>(s: seq<T>, x: T, i: nat)
    requires i < |s| && s[i] == x && x !in s[..i]
    ensures FirstIndex(s, x) == i
  {
  }

  lemma {:induction false} KeysAfterOrder<K>(ks: seq<K>, ns: seq<K>, pre: seq<K>)
    requires Distinct(ks)
    requires forall x :: x in ks <==> x in pre
    requires InFirstAppearanceOrder(pre, ks)
    ensures InFirstAppearanceOrder(pre + ns, KeysAfter(ks, ns))
    decreases |ns|
  {
    if |ns| == 0 {
      assert pre + ns == pre;
    } else {
      var x := ns[0];
      var ks' := if x in ks then ks else ks + [x];
      var pre' := pre + [x];
      assert pre + ns == pre' + ns[1..];
      forall y | y in pre
        ensures FirstIndex(pre', y) == FirstIndex(pre, y)
      {
        var f := FirstIndex(pre, y);
        assert pre'[..f] == pre[..f];
        FirstIndexUnique(pre', y, f);
      }
      if x !in ks {
        assert pre'[..|pre|] == pre;
        FirstIndexUnique(pre', x, |pre|);
      }
      assert Distinct(ks');
      KeysAfterOrder(ks', ns[1..], pre');
    }
  }

  /** The keys of a dict built from pairs are the pairs' keys without
      repetition, in order of first appearance. */
  lemma FromPairsKeys<K(!new), V>(ps: seq<(K, V)>)
    ensures Distinct(Keys(FromPairs(ps)))
    ensures forall x :: x in Keys(FromPairs(ps)) <==> x in Keys(ps)
    ensures InFirstAppearanceOrder(Keys(ps), Keys(FromPairs(ps)))
    ensures |FromPairs(ps)| <= |ps|
  {
    var ns := Keys(ps);
    KeysAfterDistinct([], ns);
    KeysAfterContents([], ns);
    KeysAfterOrder([], ns, []);
    assert [] + ns == ns;
    KeysLength(FromPairs(ps));
    KeysLength(ps);
  }

  lemma {:induction false} KeysAppend<K, V>(a: Dict<K, V>, b: Dict<K, V>)
    ensures Keys(a + b) == Keys(a) + Keys(b)
    decreases |a|
  {
    if |a| > 0 {
      assert (a + b)[1..] == a[1..] + b;
      KeysAppend(a[1..], b);
    } else {
      assert a + b == b;
    }
  }

  /** Two repetition-free sequences that share no element join into one. */
  lemma DistinctConcat<T>(a: seq<T>, b: seq<T>)
    requires Distinct(a) && Distinct(b) && forall x :: x in a ==> x !in b
    ensures Distinct(a + b)
  {
    forall i, j | 0 <= i < j < |a + b| ensures (a + b)[i] != (a + b)[j] {
      if j >= |a| && i < |a| {
        assert a[i] in a && b[j - |a|] in b;
      }
    }
  }

  /** The two halves of a repetition-free sequence share no element. */
  lemma DistinctSplit<T>(a: seq<T>, b: seq<T>)
    requires Distinct(a + b)
    ensures forall x :: x in a ==> x !in b
    ensures Distinct(a) && Distinct(b)
  {
    forall x | x in a
      ensures x !in b
    {
      var i :| 0 <= i < |a| && a[i] == x;
      forall j | 0 <= j < |b|
        ensures b[j] != x
      {
        assert (a + b)[i] != (a + b)[|a| + j];
      }
    }
    assert forall i :: 0 <= i < |a| ==> a[i] == (a + b)[i];
    assert forall i :: 0 <= i < |b| ==> b[i] == (a + b)[|a| + i];
  }

  /** Assigning a key the dict does not have appends the pair. */
  lemma {:induction false} PutNew<K(!new), V>(d: Dict<K, V>, k: K, v: V)
    requires k !in Keys(d)
    ensures Put(d, k, v) == d + [(k, v)]
    decreases |d|
  {
    if |d| > 0 {
      PutNew(d[1..], k, v);
      assert d == [d[0]] + d[1..];
    }
  }

  /** Every pair of an assigned dict is an old pair or the assigned one. */
  lemma {:induction false} PutPairs<K(!new), V(!new)>(d: Dict<K, V>, k: K, v: V)
    ensures forall p :: p in Put(d, k, v) ==> p in d || p == (k, v)
    decreases |d|
  {
    if |d| > 0 && d[0].0 != k {
      PutPairs(d[1..], k, v);
    }
  }

  /** `d.update(e)` holds no pair that is in neither `d` nor `e`. */
  lemma {:induction false} UpdatePairs<K(!new), V(!new)>(d: Dict<K, V>, e: seq<(K, V)>)
    ensures forall p :: p in Update(d, e) ==> p in d || p in e
    decreases |e|
  {
    if |e| > 0 {
      PutPairs(d, e[0].0, e[0].1);
      UpdatePairs(Put(d, e[0].0, e[0].1), e[1..]);
    }
  }

  /** Updating with pairs whose keys are new and pairwise different appends them. */
  lemma {:induction false} UpdateFresh<K(!new), V>(d: Dict<K, V>, e: seq<(K, V)>)
    requires DistinctKeys(d + e)
    ensures Update(d, e) == d + e
    decreases |e|
  {
    if |e| > 0 {
      UpdateFreshStep(d, e);
      UpdateFresh(d + [e[0]], e[1..]);
    }
  }

  /** The first fresh pair is appended, and the rest stay fresh. */
  lemma UpdateFreshStep<K(!new), V>(d: Dict<K, V>, e: seq<(K, V)>)
    requires DistinctKeys(d + e) && |e| > 0
    ensures Put(d, e[0].0, e[0].1) == d + [e[0]]
    ensures d + e == (d + [e[0]]) + e[1..]
    ensures DistinctKeys((d + [e[0]]) + e[1..])
  {
    KeysAppend(d, e);
    KeysLength(d);
    KeysLength(e);
    DistinctSplit(Keys(d), Keys(e));
    PutNew(d, e[0].0, e[0].1);
    assert d + e == (d + [e[0]]) + e[1..];
  }

  /** A dict display with pairwise different keys is the list of its pairs. */
  lemma FromPairsDistinct<K(!new), V>(ps: seq<(K, V)>)
    requires DistinctKeys(ps)
    ensures FromPairs(ps) == ps
  {
    assert [] + ps == ps;
    UpdateFresh([], ps);
  }
}
