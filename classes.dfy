/**
 * Splitting a list into classes by a key, as a dictionary from each key to
 * its elements in order, with the keys listed in order of first occurrence.
 */
module Classes {
  import opened Seqs

  /** The keys of the elements of `s`, each once, in order of first occurrence. */
  function ClassKeys<T, K(==,!new)>(s: seq<T>, cls: T -> K): seq<K>
  {
    Dedup(MapSeq(s, cls))
  }

  /** The elements of `s` in class `k`, in order. */
  function ClassMembers<T(==,!new), K(==)>(s: seq<T>, cls: T -> K, k: K): seq<T>
  {
    Select(s, InClass(cls, k))
  }

  /** The dictionary from each key that occurs to its class. */
  function ClassMap<T(==,!new), K(==,!new)>(s: seq<T>, cls: T -> K): (m: map<K, seq<T>>)
    ensures forall k :: k in m <==> k in MapSeq(s, cls)
    ensures forall k :: k in m ==> m[k] == ClassMembers(s, cls, k)
  {
    map k | k in ClassKeys(s, cls) :: ClassMembers(s, cls, k)
  }

  /** Every element's key occurs among the keys. */
  lemma KeyOccurs<T, K>(s: seq<T>, cls: T -> K, x: T)
    requires x in s
    ensures cls(x) in MapSeq(s, cls)
  {
    var j :| 0 <= j < |s| && s[j] == x;
    assert MapSeq(s, cls)[j] == cls(x);
  }

  /** A key that does not occur has an empty class. */
  lemma AbsentKeyEmpty<T(!new), K>(s: seq<T>, cls: T -> K, k: K)
    requires k !in MapSeq(s, cls)
    ensures ClassMembers(s, cls, k) == []
  {
    forall x | x in s
      ensures !InClass(cls, k)(x)
    {
      KeyOccurs(s, cls, x);
    }
    SelectNone(s, InClass(cls, k));
  }

  /** The class of `k` after one more element. */
  lemma ClassMembersSnoc<T(!new), K>(s: seq<T>, cls: T -> K, k: K, x: T)
    ensures ClassMembers(s + [x], cls, k) == ClassMembers(s, cls, k) + (if cls(x) == k then [x] else [])
  {
    SelectConcat(s, [x], InClass(cls, k));
    if cls(x) == k {
      assert Select([x], InClass(cls, k)) == [x];
    } else {
      assert Select([x], InClass(cls, k)) == [];
    }
  }

  /** The dictionary after `x` is pushed onto the class of its key, created empty when the key is new. */
  function Pushed<T, K>(m: map<K, seq<T>>, k: K, x: T): map<K, seq<T>>
  {
    var m' := if k in m then m else m[k := []];
    m'[k := m'[k] + [x]]
  }

  /** Adding one element adds its key to the keys that occur. */
  lemma ClassMapDomainSnoc<T(!new), K(!new)>(s: seq<T>, cls: T -> K, x: T)
    ensures ClassMap(s + [x], cls).Keys == ClassMap(s, cls).Keys + {cls(x)}
  {
    MapSeqSnoc(s, x, cls);
    var a := MapSeq(s, cls);
    assert forall k :: k in a + [cls(x)] <==> k in a || k == cls(x);
  }

  /** One key of the dictionary after adding one element. */
  lemma ClassMapAtSnoc<T(!new), K(!new)>(s: seq<T>, cls: T -> K, x: T, k: K)
    ensures var after, pushed := ClassMap(s + [x], cls), Pushed(ClassMap(s, cls), cls(x), x);
      (k in after <==> k in pushed) && (k in after ==> after[k] == pushed[k])
  {
    ClassMapDomainSnoc(s, cls, x);
    ClassMembersSnoc(s, cls, k, x);
    if k == cls(x) && k !in ClassMap(s, cls) {
      KeyAbsentEmpty(s, cls, x);
    }
  }

  /** Adding one element: its class is created empty when its key is new, then the element is appended. */
  lemma ClassMapSnoc<T(!new), K(!new)>(s: seq<T>, cls: T -> K, x: T)
    ensures ClassMap(s + [x], cls) == Pushed(ClassMap(s, cls), cls(x), x)
  {
    var after := ClassMap(s + [x], cls);
    var pushed := Pushed(ClassMap(s, cls), cls(x), x);
    forall k
      ensures (k in after <==> k in pushed) && (k in after ==> after[k] == pushed[k])
    {
      ClassMapAtSnoc(s, cls, x, k);
    }
    MapsEqual(after, pushed);
  }

  lemma MapsEqual<K, V>(a: map<K, V>, b: map<K, V>)
    requires forall k :: (k in a <==> k in b) && (k in a ==> a[k] == b[k])
    ensures a == b
  {
  }

  lemma KeyAbsentEmpty<T(!new), K(!new)>(s: seq<T>, cls: T -> K, x: T)
    requires cls(x) !in ClassMap(s, cls)
    ensures ClassMembers(s, cls, cls(x)) == []
  {
    AbsentKeyEmpty(s, cls, cls(x));
  }

  /** Adding one element adds its key to the key list when it is new. */
  lemma ClassKeysSnoc<T(!new), K(!new)>(s: seq<T>, cls: T -> K, x: T)
    ensures ClassKeys(s + [x], cls) == if cls(x) in ClassMap(s, cls) then ClassKeys(s, cls) else ClassKeys(s, cls) + [cls(x)]
  {
    MapSeqSnoc(s, x, cls);
    DedupSnoc(MapSeq(s, cls), cls(x));
  }

  /** Each element of a permutation of `b` is some element of `b`. */
  lemma PermutedElement<T>(a: seq<T>, b: seq<T>, i: nat)
    requires multiset(a) == multiset(b) && i < |a|
    ensures exists j :: 0 <= j < |b| && b[j] == a[i]
  {
    assert a[i] in multiset(b);
  }

  lemma MultisetAtTwo<T>(s: seq<T>, i: nat, j: nat)
    requires i < j < |s| && s[i] == s[j]
    ensures multiset(s)[s[i]] >= 2
  {
    assert s == s[..i] + [s[i]] + s[i + 1..j] + [s[j]] + s[j + 1..];
  }

  /** A permutation of a list whose keys are distinct has distinct keys. */
  lemma PermutedKeysDistinct<T, K>(a: seq<T>, b: seq<T>, key: T -> K)
    requires multiset(a) == multiset(b) && Distinct(MapSeq(b, key))
    ensures forall i, j :: 0 <= i < j < |a| ==> key(a[i]) != key(a[j])
  {
    forall i, j | 0 <= i < j < |a|
      ensures key(a[i]) != key(a[j])
    {
      PermutedElement(a, b, i);
      PermutedElement(a, b, j);
      var x :| 0 <= x < |b| && b[x] == a[i];
      var y :| 0 <= y < |b| && b[y] == a[j];
      assert MapSeq(b, key)[x] == key(a[i]) && MapSeq(b, key)[y] == key(a[j]);
      if x == y {
        MultisetAtTwo(a, i, j);
        DistinctMultiset(b);
        assert false;
      }
    }
  }

  /** A permutation of `b` has the same keys as `b`. */
  lemma PermutedKeys<T, K>(a: seq<T>, b: seq<T>, key: T -> K)
    requires multiset(a) == multiset(b)
    ensures forall k :: (exists i :: 0 <= i < |a| && key(a[i]) == k) <==> k in MapSeq(b, key)
  {
    forall k
      ensures (exists i :: 0 <= i < |a| && key(a[i]) == k) <==> k in MapSeq(b, key)
    {
      if i :| 0 <= i < |a| && key(a[i]) == k {
        PermutedElement(a, b, i);
        var x :| 0 <= x < |b| && b[x] == a[i];
        assert MapSeq(b, key)[x] == k;
      }
      if k in MapSeq(b, key) {
        var x :| 0 <= x < |b| && MapSeq(b, key)[x] == k;
        PermutedElement(b, a, x);
        var i :| 0 <= i < |a| && a[i] == b[x];
        assert key(a[i]) == k;
      }
    }
  }

  /** A reordering of the class keys names each class of the dictionary once. */
  lemma PermutedClassKeys<T(!new), K(!new)>(s: seq<T>, cls: T -> K, e: seq<K>)
    requires multiset(e) == multiset(ClassKeys(s, cls))
    ensures Distinct(e)
    ensures forall k :: k in e <==> k in MapSeq(s, cls)
    ensures forall k :: k in e ==> k in ClassMap(s, cls) && ClassMap(s, cls)[k] == ClassMembers(s, cls, k)
  {
    PermutedMembers(e, ClassKeys(s, cls));
    DistinctPermutation(ClassKeys(s, cls), e);
  }

  /** Every class in the dictionary has at least one element. */
  lemma ClassesNonEmpty<T(!new), K(!new)>(s: seq<T>, cls: T -> K)
    ensures forall k :: k in ClassMap(s, cls) ==> ClassMap(s, cls)[k] != []
  {
    forall k | k in ClassMap(s, cls)
      ensures ClassMap(s, cls)[k] != []
    {
      var j :| 0 <= j < |s| && MapSeq(s, cls)[j] == k;
      assert s[j] in ClassMembers(s, cls, k);
    }
  }

  /** The size of each class. */
  function CountMap<K, T>(m: map<K, seq<T>>): map<K, nat>
  {
    map k | k in m :: |m[k]|
  }

  /** `f` of the last element of each non-empty class. */
  function LastMap<K, T, U>(m: map<K, seq<T>>, f: T -> U): map<K, U>
  {
    map k | k in m && m[k] != [] :: f(m[k][|m[k]| - 1])
  }

  /** Pushing onto a class adds one to its size, counting a missing class as 0. */
  lemma CountMapPushed<K, T>(m: map<K, seq<T>>, k: K, x: T)
    ensures var c := CountMap(m);
      CountMap(Pushed(m, k, x)) == c[k := (if k in c then c[k] else 0) + 1]
  {
    var c := CountMap(m);
    var a := CountMap(Pushed(m, k, x));
    var b := c[k := (if k in c then c[k] else 0) + 1];
    forall k'
      ensures (k' in a <==> k' in b) && (k' in a ==> a[k'] == b[k'])
    {
    }
    MapsEqual(a, b);
  }

  /** Pushing `x` onto a class makes `x` its last element. */
  lemma LastMapPushed<K, T, U>(m: map<K, seq<T>>, f: T -> U, k: K, x: T)
    ensures LastMap(Pushed(m, k, x), f) == LastMap(m, f)[k := f(x)]
  {
    var a := LastMap(Pushed(m, k, x), f);
    var b := LastMap(m, f)[k := f(x)];
    forall k'
      ensures (k' in a <==> k' in b) && (k' in a ==> a[k'] == b[k'])
    {
    }
    MapsEqual(a, b);
  }

  /** The sizes of the classes are the numbers of elements with each key that occurs. */
  lemma CountMapMeaning<T(!new), K(!new)>(s: seq<T>, cls: T -> K)
    ensures var c := CountMap(ClassMap(s, cls));
      && (forall k :: k in c <==> k in MapSeq(s, cls))
      && (forall k :: k in c ==> c[k] == |ClassMembers(s, cls, k)|)
  {
  }

  /** `f` of the last element with each key that occurs. */
  lemma LastMapMeaning<T(!new), K(!new), U>(s: seq<T>, cls: T -> K, f: T -> U)
    ensures var l := LastMap(ClassMap(s, cls), f);
      && (forall k :: k in l <==> k in MapSeq(s, cls))
      && (forall k :: k in l ==> ClassMembers(s, cls, k) != [] && l[k] == f(Last(ClassMembers(s, cls, k))))
  {
    ClassesNonEmpty(s, cls);
  }

  function Last<T>(s: seq<T>): T
    requires s != []
  {
    s[|s| - 1]
  }

  /** The key list names each key of the dictionary once. */
  lemma ClassKeysCounted<T(!new), K(!new)>(s: seq<T>, cls: T -> K)
    ensures var keys, c := ClassKeys(s, cls), CountMap(ClassMap(s, cls));
      && Distinct(keys)
      && |keys| == |c|
      && forall k :: k in keys <==> k in c
  {
    var keys := ClassKeys(s, cls);
    var c := CountMap(ClassMap(s, cls));
    assert c.Keys == set k | k in keys;
    DistinctCard(keys);
  }

  /** A list without repeats has as many elements as the set of them. */
  lemma {:induction false} DistinctCard<T>(s: seq<T>)
    requires Distinct(s)
    ensures |set x | x in s| == |s|
  {
    if s != [] {
      DistinctCons(s[0], s[1..]);
      assert s == [s[0]] + s[1..];
      DistinctCard(s[1..]);
      assert (set x | x in s) == (set x | x in s[1..]) + {s[0]};
    }
  }
}
