/** Small shared vocabulary: optional values, results with an error, Python-dict-like
    association lists (insertion order, one entry per key), order-preserving filters
    and subsequences. */
module Basics {

  datatype Option<+T> = None | Some(value: T)

  /** A computation that either yields a value or raises the error `error`. */
  datatype Result<+T, +E> = Ok(value: T) | Err(error: E) {
    predicate IsFailure() { Err? }

    function PropagateFailure<U>(): Result<U, E>
      requires Err?
    {
      Err(error)
    }

    function Extract(): T
      requires Ok?
    {
      value
    }
  }

  // ---------------------------------------------------------------------------
  // Association lists: the model of a Python dict, which keeps insertion order.

  /** The keys of an association list, in order. */
  function Keys<K, V>(kvs: seq<(K, V)>): (ks: seq<K>)
    ensures |ks| == |kvs|
    ensures forall i :: 0 <= i < |kvs| ==> ks[i] == kvs[i].0
  {
    seq(|kvs|, i requires 0 <= i < |kvs| => kvs[i].0)
  }

  predicate HasKey<K(==), V>(kvs: seq<(K, V)>, k: K)
  {
    k in Keys(kvs)
  }

  /** No element occurs twice. */
  predicate Distinct<T(==)>(s: seq<T>)
  {
    forall i, j :: 0 <= i < j < |s| ==> s[i] != s[j]
  }

  /** `d.get(k)`: the value of the first entry with key `k`. */
  function Lookup<K(==), V>(kvs: seq<(K, V)>, k: K): (r: Option<V>)
    ensures r.None? <==> !HasKey(kvs, k)
    ensures r.Some? ==> (k, r.value) in kvs
  {
    if |kvs| == 0 then None
    else if kvs[0].0 == k then Some(kvs[0].1)
    else
      assert Keys(kvs) == [kvs[0].0] + Keys(kvs[1..]);
      Lookup(kvs[1..], k)
  }

  /** With distinct keys, `d.get(k)` finds the one entry that has key `k`. */
  lemma {:induction false} LookupDistinct<K, V>(kvs: seq<(K, V)>, i: nat)
    requires Distinct(Keys(kvs)) && i < |kvs|
    ensures Lookup(kvs, kvs[i].0) == Some(kvs[i].1)
  {
    if i > 0 {
      assert Keys(kvs)[0] != Keys(kvs)[i];
      assert Keys(kvs[1..]) == Keys(kvs)[1..];
      LookupDistinct(kvs[1..], i - 1);
    }
  }

  /** With distinct keys, two different entries have different keys. */
  lemma DistinctKeysAt<K, V>(kvs: seq<(K, V)>, i: nat, j: nat)
    requires Distinct(Keys(kvs)) && i < j < |kvs|
    ensures kvs[i].0 != kvs[j].0
  {
    assert Keys(kvs)[i] != Keys(kvs)[j];
  }

  /** With distinct keys, the key of entry `n - 1` is new to the entries before it. */
  lemma {:induction false} PrefixKeysExtend<K, V>(kvs: seq<(K, V)>, n: nat)
    requires Distinct(Keys(kvs)) && 0 < n <= |kvs|
    ensures Keys(kvs[..n]) == Keys(kvs[..n - 1]) + [kvs[n - 1].0]
    ensures kvs[n - 1].0 !in Keys(kvs[..n - 1])
  {
    var all := Keys(kvs);
    var ks := Keys(kvs[..n - 1]);
    var ks' := Keys(kvs[..n]);
    assert |ks'| == |ks| + 1;
    forall j | 0 <= j < |ks'|
      ensures ks'[j] == (ks + [kvs[n - 1].0])[j]
    {
      assert ks'[j] == kvs[..n][j].0;
    }
    forall j | 0 <= j < |ks|
      ensures ks[j] != kvs[n - 1].0
    {
      assert ks[j] == kvs[..n - 1][j].0 == all[j];
      assert kvs[n - 1].0 == all[n - 1];
    }
  }

  /** `d[k] = v`: an existing key keeps its position and takes the new value,
      a new key is appended. */
  function Put<K(==), V>(kvs: seq<(K, V)>, k: K, v: V): (r: seq<(K, V)>)
  {
    if |kvs| == 0 then [(k, v)]
    else if kvs[0].0 == k then [(k, v)] + kvs[1..]
    else [kvs[0]] + Put(kvs[1..], k, v)
  }

  /** Assigning a key leaves the key order alone, or appends the new key. */
  lemma {:induction false} PutKeys<K, V>(kvs: seq<(K, V)>, k: K, v: V)
    ensures Keys(Put(kvs, k, v)) == if k in Keys(kvs) then Keys(kvs) else Keys(kvs) + [k]
  {
    if |kvs| == 0 {
    } else if kvs[0].0 == k {
      assert Keys(Put(kvs, k, v)) == [k] + Keys(kvs[1..]);
    } else {
      PutKeys(kvs[1..], k, v);
      assert Keys(Put(kvs, k, v)) == [kvs[0].0] + Keys(Put(kvs[1..], k, v));
      assert Keys(kvs) == [kvs[0].0] + Keys(kvs[1..]);
    }
  }

  /** After `d[k] = v`, `d.get(k)` is `v` and every other key reads as before. */
  lemma {:induction false} PutLookup<K, V>(kvs: seq<(K, V)>, k: K, v: V, x: K)
    ensures Lookup(Put(kvs, k, v), x) == if x == k then Some(v) else Lookup(kvs, x)
  {
    if |kvs| != 0 && kvs[0].0 != k {
      PutLookup(kvs[1..], k, v, x);
    }
  }

  /** `{k: v for k, v in pairs}`: a dict built by assigning the pairs in order. */
  function FromPairs<K(==), V>(pairs: seq<(K, V)>): seq<(K, V)>
    decreases |pairs|
  {
    if |pairs| == 0 then []
    else Put(FromPairs(pairs[..|pairs| - 1]), pairs[|pairs| - 1].0, pairs[|pairs| - 1].1)
  }

  /** Distinct keys stay distinct in every prefix. */
  lemma {:induction false} DistinctPrefix<K, V>(kvs: seq<(K, V)>, n: nat)
    requires Distinct(Keys(kvs)) && n <= |kvs|
    ensures Distinct(Keys(kvs[..n]))
  {
    var ks := Keys(kvs[..n]);
    forall i, j | 0 <= i < j < |ks|
      ensures ks[i] != ks[j]
    {
      assert ks[i] == Keys(kvs)[i] && ks[j] == Keys(kvs)[j];
    }
  }

  /** With distinct keys, the dict has the keys of the pairs, in order. */
  lemma {:induction false} FromPairsKeys<K, V>(pairs: seq<(K, V)>)
    requires Distinct(Keys(pairs))
    ensures Keys(FromPairs(pairs)) == Keys(pairs)
    decreases |pairs|
  {
    var n := |pairs|;
    if n > 0 {
      var front := pairs[..n - 1];
      DistinctPrefix(pairs, n - 1);
      FromPairsKeys(front);
      PutKeys(FromPairs(front), pairs[n - 1].0, pairs[n - 1].1);
      PrefixKeysExtend(pairs, n);
      assert pairs[..n] == pairs;
    }
  }

  /** With distinct keys, every key reads the value it was paired with. */
  lemma {:induction false} FromPairsLookup<K, V>(pairs: seq<(K, V)>, j: nat)
    requires Distinct(Keys(pairs)) && j < |pairs|
    ensures Lookup(FromPairs(pairs), pairs[j].0) == Some(pairs[j].1)
    decreases |pairs|
  {
    var n := |pairs|;
    var front := pairs[..n - 1];
    PutLookup(FromPairs(front), pairs[n - 1].0, pairs[n - 1].1, pairs[j].0);
    if j < n - 1 {
      DistinctKeysAt(pairs, j, n - 1);
      DistinctPrefix(pairs, n - 1);
      FromPairsLookup(front, j);
      assert front[j] == pairs[j];
    }
  }

  /** `d.update(other)`: every entry of `other`, in order, through `Put`. */
  function Update<K(==), V>(kvs: seq<(K, V)>, other: seq<(K, V)>): (r: seq<(K, V)>)
    decreases |other|
  {
    if |other| == 0 then kvs
    else Update(Put(kvs, other[0].0, other[0].1), other[1..])
  }

  /** `d.update(other)` leaves every key that `other` lacks as it was. */
  lemma {:induction false} UpdateLookup<K, V>(kvs: seq<(K, V)>, other: seq<(K, V)>, x: K)
    requires !HasKey(other, x)
    ensures Lookup(Update(kvs, other), x) == Lookup(kvs, x)
    decreases |other|
  {
    if |other| > 0 {
      assert Keys(other) == [other[0].0] + Keys(other[1..]);
      PutLookup(kvs, other[0].0, other[0].1, x);
      UpdateLookup(Put(kvs, other[0].0, other[0].1), other[1..], x);
    }
  }

  /** `d.update(other)` and `d[k] = v` never move the first key of a non-empty dict. */
  lemma {:induction false} UpdateFirstKey<K, V>(kvs: seq<(K, V)>, other: seq<(K, V)>)
    requires |kvs| > 0
    ensures |Update(kvs, other)| > 0 && Update(kvs, other)[0].0 == kvs[0].0
    decreases |other|
  {
    if |other| > 0 {
      PutKeys(kvs, other[0].0, other[0].1);
      assert Keys(Put(kvs, other[0].0, other[0].1))[0] == Keys(kvs)[0];
      UpdateFirstKey(Put(kvs, other[0].0, other[0].1), other[1..]);
    }
  }

  // ---------------------------------------------------------------------------
  // Order-preserving filters and subsequences.

  /** `[x for x in s if p(x)]`; defined from the end so that appending one
      element to `s` appends at most one element to the result. */
  function KeepWhere<T(==,!new)>(s: seq<T>, p: T -> bool): (r: seq<T>)
    ensures |r| <= |s|
    ensures forall x :: x in r <==> x in s && p(x)
    ensures IsSubsequence(r, s)
    decreases |s|
  {
    if |s| == 0 then []
    else
      var front := s[..|s| - 1];
      var last := s[|s| - 1];
      var kept := KeepWhere(front, p);
      assert s == front + [last];
      SubsequenceExtend(kept, front, last);
      if p(last) then kept + [last] else kept
  }

  /** The filter keeps every copy of a satisfying element and no copy of any other. */
  lemma {:induction false} KeepWhereCounts<T(!new)>(s: seq<T>, p: T -> bool, x: T)
    ensures multiset(KeepWhere(s, p))[x] == if p(x) then multiset(s)[x] else 0
    decreases |s|
  {
    if |s| != 0 {
      var front := s[..|s| - 1];
      var last := s[|s| - 1];
      KeepWhereCounts(front, p, x);
      assert s == front + [last];
      assert multiset(s) == multiset(front) + multiset{last};
    }
  }

  /** `a` is obtained from `b` by deleting elements, keeping the order. */
  predicate IsSubsequence<T(==)>(a: seq<T>, b: seq<T>)
    decreases |b|
  {
    if |a| == 0 then true
    else if |b| == 0 then false
    else (a[|a| - 1] == b[|b| - 1] && IsSubsequence(a[..|a| - 1], b[..|b| - 1]))
         || IsSubsequence(a, b[..|b| - 1])
  }

  lemma SubsequenceExtend<T>(a: seq<T>, b: seq<T>, x: T)
    requires IsSubsequence(a, b)
    ensures IsSubsequence(a, b + [x])
    ensures IsSubsequence(a + [x], b + [x])
  {
    assert (b + [x])[..|b|] == b;
    assert (a + [x])[..|a|] == a;
  }

  /** The position of the first `Ok(true)` among `tests` from `i` on, in
      order; an error met before it is raised and the tests after it are not
      looked at. */
  function FirstHit<E>(tests: seq<Result<bool, E>>, i: nat): (r: Result<Option<nat>, E>)
    requires i <= |tests|
    ensures r.Ok? && r.value.Some? ==> i <= r.value.value < |tests|
    decreases |tests| - i
  {
    if i == |tests| then Ok(None)
    else
      match tests[i]
      case Err(e) => Err(e)
      case Ok(hit) => if hit then Ok(Some(i)) else FirstHit(tests, i + 1)
  }

  /** Position `k` is the first hit exactly when its test yields true and
      every earlier one yields false. */
  lemma {:induction false} FirstHitSome<E>(tests: seq<Result<bool, E>>, i: nat, k: nat)
    requires i <= |tests|
    ensures FirstHit(tests, i) == Ok(Some(k)) <==>
            i <= k < |tests| && tests[k] == Ok(true) && forall l :: i <= l < k ==> tests[l] == Ok(false)
    decreases |tests| - i
  {
    if i < |tests| && tests[i] == Ok(false) {
      FirstHitSome(tests, i + 1, k);
    }
  }

  /** There is no hit exactly when every test yields false. */
  lemma {:induction false} FirstHitNone<E>(tests: seq<Result<bool, E>>, i: nat)
    requires i <= |tests|
    ensures FirstHit(tests, i) == Ok(None) <==> forall l :: i <= l < |tests| ==> tests[l] == Ok(false)
    decreases |tests| - i
  {
    if i < |tests| && tests[i] == Ok(false) {
      FirstHitNone(tests, i + 1);
    }
  }

  /** The last `n` elements of `s` (all of them when `s` is shorter): `s[-n:]`. */
  function LastN<T>(s: seq<T>, n: nat): (r: seq<T>)
    ensures |r| == if |s| <= n then |s| else n
    ensures forall i :: 0 <= i < |r| ==> r[i] == s[|s| - |r| + i]
  {
    if |s| <= n then s else s[|s| - n..]
  }
}
