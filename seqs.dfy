/** Sequence combinators standing for `Array.prototype.filter` and `reduce`. */
module Seqs {
  import opened Wrappers

  /** `a` occurs in `b` with its elements in the same relative order. */
  predicate IsSubsequence<T(==)>(a: seq<T>, b: seq<T>)
  {
    if a == [] then true
    else if b == [] then false
    else if a[0] == b[0] then IsSubsequence(a[1..], b[1..])
    else IsSubsequence(a, b[1..])
  }

  /** No element occurs twice. */
  predicate Distinct<T(==)>(s: seq<T>)
  {
    forall i, j :: 0 <= i < j < |s| ==> s[i] != s[j]
  }

  /** Number of elements of `s` that satisfy `keep`. */
  function Count<T>(s: seq<T>, keep: T -> bool): nat
  {
    if s == [] then 0 else (if keep(s[0]) then 1 else 0) + Count(s[1..], keep)
  }

  /** `s.filter(keep)`: the elements that satisfy `keep`, in their original order. */
  function Select<T(==,!new)>(s: seq<T>, keep: T -> bool): (r: seq<T>)
    ensures |r| == Count(s, keep)
    ensures forall x :: x in r <==> x in s && keep(x)
    ensures IsSubsequence(r, s)
  {
    if s == [] then []
    else
      var rest := Select(s[1..], keep);
      if keep(s[0]) then
        var r := [s[0]] + rest;
        assert r[1..] == rest;
        r
      else rest
  }

  /** Filtering a list without repeats leaves none. */
  lemma {:induction false} SelectDistinct<T(!new)>(s: seq<T>, keep: T -> bool)
    requires Distinct(s)
    ensures Distinct(Select(s, keep))
  {
    if s != [] {
      assert s == [s[0]] + s[1..];
      DistinctCons(s[0], s[1..]);
      SelectDistinct(s[1..], keep);
      if keep(s[0]) {
        DistinctCons(s[0], Select(s[1..], keep));
      }
    }
  }

  /** Filtering distributes over concatenation. */
  lemma {:induction false} SelectConcat<T(!new)>(a: seq<T>, b: seq<T>, keep: T -> bool)
    ensures Select(a + b, keep) == Select(a, keep) + Select(b, keep)
  {
    if a == [] {
      assert a + b == b;
    } else {
      assert (a + b)[0] == a[0] && (a + b)[1..] == a[1..] + b;
      SelectConcat(a[1..], b, keep);
    }
  }

  /** `s.reduce((acc, x) => acc + f(x), 0)`. */
  function SumOf<T>(s: seq<T>, f: T -> real): real
  {
    if s == [] then 0.0 else f(s[0]) + SumOf(s[1..], f)
  }

  lemma {:induction false} SumOfConcat<T>(a: seq<T>, b: seq<T>, f: T -> real)
    ensures SumOf(a + b, f) == SumOf(a, f) + SumOf(b, f)
  {
    if a == [] {
      assert a + b == b;
    } else {
      assert (a + b)[0] == a[0] && (a + b)[1..] == a[1..] + b;
      SumOfConcat(a[1..], b, f);
    }
  }

  /** The left-to-right reduce: adding the last element last gives the same sum. */
  lemma SumOfSnoc<T>(s: seq<T>, x: T, f: T -> real)
    ensures SumOf(s + [x], f) == SumOf(s, f) + f(x)
  {
    SumOfConcat(s, [x], f);
  }

  /** Summing the kept and the dropped elements separately gives the whole sum. */
  lemma {:induction false} SumOfPartition<T(!new)>(s: seq<T>, keep: T -> bool, f: T -> real)
    ensures SumOf(Select(s, keep), f) + SumOf(Select(s, x => !keep(x)), f) == SumOf(s, f)
  {
    if s != [] {
      SumOfPartition(s[1..], keep, f);
    }
  }

  /** Taking one element out of a sequence takes its value out of the sum. */
  lemma SumOfRemove<T>(b: seq<T>, j: nat, f: T -> real)
    requires j < |b|
    ensures SumOf(b, f) == f(b[j]) + SumOf(b[..j] + b[j + 1..], f)
  {
    var pre, post := b[..j], b[j + 1..];
    assert b == pre + ([b[j]] + post);
    SumOfSplit(pre, b[j], post, f);
  }

  lemma SumOfSplit<T>(pre: seq<T>, x: T, post: seq<T>, f: T -> real)
    ensures SumOf(pre + ([x] + post), f) == f(x) + SumOf(pre + post, f)
  {
    SumOfConcat(pre, [x] + post, f);
    SumOfConcat(pre, post, f);
    SumOfCons(x, post, f);
  }

  lemma SumOfCons<T>(x: T, t: seq<T>, f: T -> real)
    ensures SumOf([x] + t, f) == f(x) + SumOf(t, f)
  {
    assert ([x] + t)[1..] == t;
  }

  lemma MultisetRemove<T>(b: seq<T>, j: nat)
    requires j < |b|
    ensures multiset(b[..j] + b[j + 1..]) == multiset(b) - multiset{b[j]}
  {
    assert b == b[..j] + [b[j]] + b[j + 1..];
  }

  /** Reordering the elements does not change their sum. */
  lemma {:induction false} SumOfPermutation<T>(a: seq<T>, b: seq<T>, f: T -> real)
    requires multiset(a) == multiset(b)
    ensures SumOf(a, f) == SumOf(b, f)
    decreases |a|
  {
    if a == [] {
      assert |b| == |multiset(b)| == 0;
    } else {
      var x := a[0];
      assert x in multiset(b);
      var j :| 0 <= j < |b| && b[j] == x;
      MultisetRemove(b, j);
      assert a == [x] + a[1..];
      assert multiset(a[1..]) == multiset(a) - multiset{x};
      SumOfPermutation(a[1..], b[..j] + b[j + 1..], f);
      SumOfRemove(b, j, f);
    }
  }

  /** Counting is summing ones. */
  lemma {:induction false} CountIsSum<T>(s: seq<T>, keep: T -> bool)
    ensures Count(s, keep) as real == SumOf(s, x => if keep(x) then 1.0 else 0.0)
  {
    if s != [] {
      CountIsSum(s[1..], keep);
    }
  }

  /** Filtering keeps everything when every element passes. */
  lemma {:induction false} SelectAll<T(!new)>(s: seq<T>, keep: T -> bool)
    requires forall x :: x in s ==> keep(x)
    ensures Select(s, keep) == s
  {
    if s != [] {
      SelectAll(s[1..], keep);
    }
  }

  /** Filtering keeps nothing when no element passes. */
  lemma SelectNone<T(!new)>(s: seq<T>, keep: T -> bool)
    requires forall x :: x in s ==> !keep(x)
    ensures Select(s, keep) == []
  {
  }

  /** The kept and the dropped elements together are the original elements. */
  lemma {:induction false} SelectPartitionMultiset<T(!new)>(s: seq<T>, keep: T -> bool, drop: T -> bool)
    requires forall x :: drop(x) <==> !keep(x)
    ensures multiset(Select(s, keep)) + multiset(Select(s, drop)) == multiset(s)
  {
    if s != [] {
      SelectPartitionMultiset(s[1..], keep, drop);
      assert s == [s[0]] + s[1..];
    }
  }

  lemma DistinctCons<T>(h: T, t: seq<T>)
    ensures Distinct([h] + t) <==> h !in t && Distinct(t)
  {
    var s := [h] + t;
    if h !in t && Distinct(t) {
      forall i, j | 0 <= i < j < |s|
        ensures s[i] != s[j]
      {
        if i > 0 {
          assert s[i] == t[i - 1] && s[j] == t[j - 1];
        } else {
          assert s[j] == t[j - 1];
        }
      }
    }
    if Distinct(s) {
      forall i, j | 0 <= i < j < |t|
        ensures t[i] != t[j]
      {
        assert t[i] == s[i + 1] && t[j] == s[j + 1];
      }
      forall j | 0 <= j < |t|
        ensures t[j] != h
      {
        assert t[j] == s[j + 1] && h == s[0];
      }
    }
  }

  /** No element occurs twice exactly when each has multiplicity at most one. */
  lemma {:induction false} DistinctMultiset<T>(s: seq<T>)
    ensures Distinct(s) <==> forall x :: multiset(s)[x] <= 1
  {
    if s != [] {
      var h, t := s[0], s[1..];
      assert s == [h] + t;
      DistinctCons(h, t);
      DistinctMultiset(t);
      assert multiset(s) == multiset{h} + multiset(t);
      if !Distinct(s) && h !in t {
        var x :| multiset(t)[x] > 1;
        assert multiset(s)[x] > 1;
      }
      if !Distinct(s) && h in t {
        assert multiset(s)[h] > 1;
      }
    }
  }

  /** Lists with the same elements counted with multiplicity have the same elements. */
  lemma PermutedMembers<T>(a: seq<T>, b: seq<T>)
    requires multiset(a) == multiset(b)
    ensures forall x :: x in a <==> x in b
  {
    forall x
      ensures x in a <==> x in b
    {
      assert x in a <==> x in multiset(a);
      assert x in b <==> x in multiset(b);
    }
  }

  /** Reordering keeps the elements distinct. */
  lemma DistinctPermutation<T>(a: seq<T>, b: seq<T>)
    requires multiset(a) == multiset(b) && Distinct(a)
    ensures Distinct(b)
  {
    DistinctMultiset(a);
    DistinctMultiset(b);
  }

  /** `s` is in non-decreasing order of `key`. */
  predicate SortedBy<T>(s: seq<T>, key: T -> real)
  {
    forall i, j :: 0 <= i < j < |s| ==> key(s[i]) <= key(s[j])
  }

  lemma SortedTail<T>(s: seq<T>, key: T -> real)
    requires s != [] && SortedBy(s, key)
    ensures SortedBy(s[1..], key)
  {
    var t := s[1..];
    forall i, j | 0 <= i < j < |t|
      ensures key(t[i]) <= key(t[j])
    {
      assert t[i] == s[i + 1] && t[j] == s[j + 1];
    }
  }

  lemma SortedCons<T>(h: T, t: seq<T>, key: T -> real)
    requires SortedBy(t, key) && (t == [] || key(h) <= key(t[0]))
    ensures SortedBy([h] + t, key)
  {
    var s := [h] + t;
    forall i, j | 0 <= i < j < |s|
      ensures key(s[i]) <= key(s[j])
    {
      if i == 0 {
        assert s[j] == t[j - 1];
        if j > 1 {
          assert key(t[0]) <= key(t[j - 1]);
        }
      } else {
        assert s[i] == t[i - 1] && s[j] == t[j - 1];
      }
    }
  }

  /** Inserts `x` before the first element whose key is not smaller. */
  function InsertBy<T>(x: T, s: seq<T>, key: T -> real): (r: seq<T>)
    requires SortedBy(s, key)
    ensures SortedBy(r, key)
    ensures multiset(r) == multiset(s) + multiset{x}
    ensures |r| == |s| + 1 && (r[0] == x || (s != [] && r[0] == s[0]))
  {
    if s == [] then [x]
    else if key(x) <= key(s[0]) then
      SortedCons(x, s, key);
      [x] + s
    else
      SortedTail(s, key);
      var tail := InsertBy(x, s[1..], key);
      InsertAfterHead(x, s, tail, key);
      [s[0]] + tail
  }

  /** Inserting past the head of a sorted list keeps the head in front. */
  lemma InsertAfterHead<T>(x: T, s: seq<T>, tail: seq<T>, key: T -> real)
    requires s != [] && SortedBy(s, key) && key(s[0]) < key(x)
    requires SortedBy(tail, key) && multiset(tail) == multiset(s[1..]) + multiset{x}
    requires tail != [] && (tail[0] == x || (s[1..] != [] && tail[0] == s[1..][0]))
    ensures SortedBy([s[0]] + tail, key)
    ensures multiset([s[0]] + tail) == multiset(s) + multiset{x}
  {
    assert s == [s[0]] + s[1..];
    if tail[0] != x {
      assert key(s[0]) <= key(s[1]);
    }
    SortedCons(s[0], tail, key);
  }

  /** A stable insertion sort by `key`. */
  function SortBy<T>(s: seq<T>, key: T -> real): (r: seq<T>)
    ensures SortedBy(r, key)
    ensures multiset(r) == multiset(s)
  {
    if s == [] then []
    else
      assert s == [s[0]] + s[1..];
      InsertBy(s[0], SortBy(s[1..], key), key)
  }

  /** Filtering keeps every passing element as often as it occurs, and no other. */
  lemma {:induction false} SelectMultiset<T(!new)>(s: seq<T>, keep: T -> bool, x: T)
    ensures multiset(Select(s, keep))[x] == if keep(x) then multiset(s)[x] else 0
  {
    if s != [] {
      SelectMultiset(s[1..], keep, x);
      assert s == [s[0]] + s[1..];
    }
  }

  lemma SelectMultisetAll<T(!new)>(s: seq<T>, keep: T -> bool)
    ensures forall x :: multiset(Select(s, keep))[x] == if keep(x) then multiset(s)[x] else 0
  {
    forall x
      ensures multiset(Select(s, keep))[x] == if keep(x) then multiset(s)[x] else 0
    {
      SelectMultiset(s, keep, x);
    }
  }

  /** `s.map(f)`. */
  function MapSeq<T, U>(s: seq<T>, f: T -> U): (r: seq<U>)
    ensures |r| == |s| && forall i :: 0 <= i < |s| ==> r[i] == f(s[i])
  {
    seq(|s|, i requires 0 <= i < |s| => f(s[i]))
  }

  lemma MapSeqSnoc<T, U>(s: seq<T>, x: T, f: T -> U)
    ensures MapSeq(s + [x], f) == MapSeq(s, f) + [f(x)]
  {
  }

  /** `[...new Set(s)]`: each element once, in the order of its first occurrence. */
  function Dedup<T(==,!new)>(s: seq<T>): (r: seq<T>)
    ensures Distinct(r)
    ensures forall x :: x in r <==> x in s
  {
    if s == [] then []
    else
      var d := Dedup(s[..|s| - 1]);
      var x := s[|s| - 1];
      assert s == s[..|s| - 1] + [x];
      if x in d then d
      else
        assert forall i :: 0 <= i < |d| ==> (d + [x])[i] == d[i];
        d + [x]
  }

  lemma DedupSnoc<T(!new)>(s: seq<T>, x: T)
    ensures Dedup(s + [x]) == if x in Dedup(s) then Dedup(s) else Dedup(s) + [x]
  {
    assert (s + [x])[..|s + [x]| - 1] == s;
  }

  // ---------------------------------------------------------------------------
  // Sums over a partition into classes
  // ---------------------------------------------------------------------------

  /** The elements of class `k`. */
  function InClass<T, K(==)>(cls: T -> K, k: K): T -> bool
  {
    x => cls(x) == k
  }

  /** For each class, the sum of `f` over the elements of `s` in it. */
  function ClassSum<T(==,!new), K(==)>(s: seq<T>, cls: T -> K, f: T -> real): K -> real
  {
    k => SumOf(Select(s, InClass(cls, k)), f)
  }

  /** `v` at `c`, 0 elsewhere. */
  function Indicator<K(==)>(c: K, v: real): K -> real
  {
    k => if k == c then v else 0.0
  }

  /** Summing a pointwise sum is summing each part. */
  lemma {:induction false} SumOfAdd<T>(s: seq<T>, h: T -> real, a: T -> real, b: T -> real)
    requires forall x :: x in s ==> h(x) == a(x) + b(x)
    ensures SumOf(s, h) == SumOf(s, a) + SumOf(s, b)
  {
    if s != [] {
      SumOfAdd(s[1..], h, a, b);
    }
  }

  lemma {:induction false} SumOfZero<T>(s: seq<T>, h: T -> real)
    requires forall x :: x in s ==> h(x) == 0.0
    ensures SumOf(s, h) == 0.0
  {
    if s != [] {
      SumOfZero(s[1..], h);
    }
  }

  /** Over distinct keys, a value placed at one key sums to that value. */
  lemma {:induction false} SumOfIndicator<K>(keys: seq<K>, c: K, v: real)
    requires Distinct(keys)
    ensures SumOf(keys, Indicator(c, v)) == if c in keys then v else 0.0
  {
    if keys != [] {
      assert keys == [keys[0]] + keys[1..];
      DistinctCons(keys[0], keys[1..]);
      SumOfIndicator(keys[1..], c, v);
    }
  }

  /**
   * Splitting `s` into classes and summing the class totals over a list of
   * distinct keys naming every class that occurs gives the sum over `s`:
   * every element is counted once, in its own class.
   */
  lemma {:induction false} SumOfClasses<T(!new), K>(s: seq<T>, cls: T -> K, keys: seq<K>, f: T -> real)
    requires Distinct(keys)
    requires forall x :: x in s ==> cls(x) in keys
    ensures SumOf(keys, ClassSum(s, cls, f)) == SumOf(s, f)
  {
    if s == [] {
      SumOfZero(keys, ClassSum(s, cls, f));
    } else {
      var x, t := s[0], s[1..];
      forall k | k in keys
        ensures ClassSum(s, cls, f)(k) == Indicator(cls(x), f(x))(k) + ClassSum(t, cls, f)(k)
      {
      }
      SumOfAdd(keys, ClassSum(s, cls, f), Indicator(cls(x), f(x)), ClassSum(t, cls, f));
      SumOfIndicator(keys, cls(x), f(x));
      SumOfClasses(t, cls, keys, f);
    }
  }

  /** Two lists whose elements correspond one to one under `f` and `h` have the same sum. */
  lemma {:induction false} SumOfCorrespond<A, B>(a: seq<A>, b: seq<B>, f: A -> real, h: B -> real)
    requires |a| == |b| && forall i :: 0 <= i < |a| ==> f(a[i]) == h(b[i])
    ensures SumOf(a, f) == SumOf(b, h)
  {
    if a != [] {
      SumOfCorrespond(a[1..], b[1..], f, h);
    }
  }

  /** `s.slice(0, n)` after sorting by `key`: the first `n` elements in ascending key order. */
  function TakeSorted<T>(s: seq<T>, key: T -> real, n: nat): (r: seq<T>)
    ensures |r| == if |s| < n then |s| else n
    ensures SortedBy(r, key)
    ensures multiset(r) <= multiset(s)
  {
    var sorted := SortBy(s, key);
    var m := if |sorted| < n then |sorted| else n;
    assert sorted == sorted[..m] + sorted[m..];
    sorted[..m]
  }

  /**
   * Taking the `n` first after sorting a list without repeats gives different
   * elements of the list, and every element left out has a key no smaller
   * than any element taken.
   */
  lemma TakeSortedSpec<T>(s: seq<T>, key: T -> real, n: nat)
    requires Distinct(s)
    ensures var r := TakeSorted(s, key, n);
      && Distinct(r)
      && (forall i :: 0 <= i < |r| ==> r[i] in s)
      && (forall x :: x in s && x !in r ==> forall i :: 0 <= i < |r| ==> key(r[i]) <= key(x))
  {
    var r := TakeSorted(s, key, n);
    var sorted := SortBy(s, key);
    var m := |r|;
    assert r == sorted[..m];
    DistinctPermutation(s, sorted);
    forall i | 0 <= i < |r|
      ensures r[i] in s
    {
      assert r[i] in multiset(sorted);
    }
    forall x | x in s && x !in r
      ensures forall i :: 0 <= i < |r| ==> key(r[i]) <= key(x)
    {
      assert x in multiset(sorted);
      var t :| 0 <= t < |sorted| && sorted[t] == x;
      assert t >= m;
    }
  }

  /** `xs.map(f).filter(Boolean)`: the values `f` produces, in order, skipping the missing ones. */
  function Present<T, U(!new)>(xs: seq<T>, f: T -> Option<U>): (r: seq<U>)
    ensures |r| <= |xs|
    ensures forall u :: u in r <==> exists j :: 0 <= j < |xs| && f(xs[j]) == Some(u)
  {
    if xs == [] then []
    else
      var rest := Present(xs[1..], f);
      assert forall j :: 1 <= j < |xs| ==> xs[j] == xs[1..][j - 1];
      match f(xs[0])
      case None => rest
      case Some(u) => [u] + rest
  }
}
