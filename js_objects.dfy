/**
 * The order in which `Object.values` lists the properties of a plain object
 * built by assignment (OrdinaryOwnPropertyKeys, section 10.1.11.1 of
 * ECMA-262): keys that are array indices first, in ascending numeric order,
 * then every other string key in the order it was first assigned.
 */
module JsObjects {
  import opened Text
  import opened Seqs

  /** The largest array index, 2^32 - 2. */
  const MAX_ARRAY_INDEX: nat := 4294967294

  /** A canonical decimal numeral of an integer from 0 to 2^32 - 2 (section 6.1.7 of ECMA-262). */
  predicate IsArrayIndex(k: string)
  {
    |k| >= 1 && AllDigits(k) && (|k| == 1 || k[0] != '0') && DigitsValue(k) <= MAX_ARRAY_INDEX
  }

  predicate IsNamedKey(k: string)
  {
    !IsArrayIndex(k)
  }

  /** The number an index key names; other keys sort as 0 and are never compared. */
  function IndexValue(k: string): nat
  {
    if AllDigits(k) then DigitsValue(k) else 0
  }

  predicate AllIndexes(s: seq<string>)
  {
    forall i :: 0 <= i < |s| ==> IsArrayIndex(s[i])
  }

  /** The sort key of `Object.values`' index keys. */
  function IndexRank(k: string): real
  {
    IndexValue(k) as real
  }

  /** The index keys in ascending numeric order. */
  function SortIndexes(s: seq<string>): (r: seq<string>)
    ensures SortedBy(r, IndexRank)
    ensures multiset(r) == multiset(s)
  {
    SortBy(s, IndexRank)
  }

  /** Reordering index keys leaves index keys. */
  lemma PermutedIndexes(s: seq<string>, r: seq<string>)
    requires AllIndexes(s) && multiset(r) == multiset(s)
    ensures AllIndexes(r)
  {
    forall i | 0 <= i < |r|
      ensures IsArrayIndex(r[i])
    {
      assert r[i] in multiset(r);
    }
  }

  /** The own keys of an object whose keys were first assigned in the order `order`. */
  function OwnKeys(order: seq<string>): (r: seq<string>)
    ensures multiset(r) == multiset(order)
  {
    var indexes := Select(order, IsArrayIndex);
    SelectPartitionMultiset(order, IsArrayIndex, IsNamedKey);
    SortIndexes(indexes) + Select(order, IsNamedKey)
  }

  /**
   * The index keys come first and ascend; the named keys follow in insertion
   * order; nothing is lost or repeated.
   */
  lemma OwnKeysOrder(order: seq<string>)
    ensures var r := OwnKeys(order);
      var n := Count(order, IsArrayIndex);
      && n <= |r|
      && AllIndexes(r[..n]) && SortedBy(r[..n], IndexRank)
      && r[n..] == Select(order, IsNamedKey)
      && IsSubsequence(r[n..], order)
      && (forall k :: k in r[n..] ==> !IsArrayIndex(k))
  {
    var r := OwnKeys(order);
    var indexes := Select(order, IsArrayIndex);
    var sorted := SortIndexes(indexes);
    PermutedIndexes(indexes, sorted);
    assert r == sorted + Select(order, IsNamedKey);
    assert r[..|sorted|] == sorted;
    assert r[|sorted|..] == Select(order, IsNamedKey);
  }

  /** Keys first assigned once each are listed once each. */
  lemma OwnKeysDistinct(order: seq<string>)
    requires Distinct(order)
    ensures Distinct(OwnKeys(order))
  {
    DistinctPermutation(order, OwnKeys(order));
  }

  /** With no index keys the listing order is the insertion order. */
  lemma OwnKeysInsertionOrder(order: seq<string>)
    requires forall k :: k in order ==> !IsArrayIndex(k)
    ensures OwnKeys(order) == order
  {
    SelectNone(order, IsArrayIndex);
    SelectAll(order, IsNamedKey);
  }

  /** With only index keys the listing is in ascending numeric order. */
  lemma OwnKeysAllIndexes(order: seq<string>)
    requires AllIndexes(order)
    ensures OwnKeys(order) == SortIndexes(order)
  {
    SelectAll(order, IsArrayIndex);
    SelectNone(order, IsNamedKey);
  }
}
