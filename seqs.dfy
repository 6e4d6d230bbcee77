/** Generic operations on the collections: selection, ordering and lookup by key. */
module Seqs {
  import opened Common

  /** The elements of `s` that satisfy `p`, in their original order. */
  function Filter<T(!new)>(s: seq<T>, p: T -> bool): (r: seq<T>)
    ensures forall x :: multiset(r)[x] == if p(x) then multiset(s)[x] else 0
    ensures forall x :: x in r <==> x in s && p(x)
    ensures |r| <= |s|
  {
    if s == [] then []
    else
      assert s == [s[0]] + s[1..];
      if p(s[0]) then [s[0]] + Filter(s[1..], p) else Filter(s[1..], p)
  }

  /** A filter that accepts every element keeps the whole sequence. */
  lemma {:induction false} FilterAll<T(!new)>(s: seq<T>, p: T -> bool)
    requires forall x :: x in s ==> p(x)
    ensures Filter(s, p) == s
  {
    if s != [] {
      assert s == [s[0]] + s[1..];
      FilterAll(s[1..], p);
    }
  }

  ghost predicate SortedBy<T>(s: seq<T>, key: T -> int) {
    forall i, j :: 0 <= i < j < |s| ==> key(s[i]) <= key(s[j])
  }

  function InsertBy<T>(x: T, s: seq<T>, key: T -> int): (r: seq<T>)
    requires SortedBy(s, key)
    ensures SortedBy(r, key)
    ensures multiset(r) == multiset(s) + multiset{x}
    ensures |r| == |s| + 1
  {
    if s == [] || key(x) <= key(s[0]) then [x] + s
    else
      assert s == [s[0]] + s[1..];
      var rest := InsertBy(x, s[1..], key);
      HeadBelowRest(x, s, key, rest);
      [s[0]] + rest
  }

  /** When `x` goes after the head, everything after the head keeps a key at least the head's. */
  lemma HeadBelowRest<T>(x: T, s: seq<T>, key: T -> int, rest: seq<T>)
    requires SortedBy(s, key) && s != [] && key(s[0]) < key(x)
    requires multiset(rest) == multiset(s[1..]) + multiset{x}
    ensures forall j :: 0 <= j < |rest| ==> key(s[0]) <= key(rest[j])
  {
    forall j | 0 <= j < |rest| ensures key(s[0]) <= key(rest[j]) {
      assert rest[j] in multiset(rest);
      if rest[j] != x {
        assert rest[j] in multiset(s[1..]);
        var i :| 0 <= i < |s[1..]| && s[1..][i] == rest[j];
        assert s[i + 1] == rest[j];
      }
    }
  }

  /** Two sequences with the same multiset have the same members. */
  lemma SameMembers<T>(a: seq<T>, b: seq<T>)
    requires multiset(a) == multiset(b)
    ensures forall x :: x in a <==> x in b
  {
    forall x ensures x in a <==> x in b {
      assert x in a <==> x in multiset(a);
      assert x in b <==> x in multiset(b);
    }
  }

  /** The elements of `s` rearranged so that `key` never decreases. */
  function SortBy<T>(s: seq<T>, key: T -> int): (r: seq<T>)
    ensures SortedBy(r, key)
    ensures multiset(r) == multiset(s)
    ensures |r| == |s|
  {
    if s == [] then []
    else
      assert s == [s[0]] + s[1..];
      InsertBy(s[0], SortBy(s[1..], key), key)
  }

  /** The first position whose element carries key `k`, if any. */
  function IndexOf<T>(s: seq<T>, key: T -> nat, k: nat): (r: Option<nat>)
    ensures r.Some? ==> r.value < |s| && key(s[r.value]) == k
    ensures r.Some? ==> forall j :: 0 <= j < r.value ==> key(s[j]) != k
    ensures r.None? <==> forall j :: 0 <= j < |s| ==> key(s[j]) != k
  {
    if s == [] then None
    else if key(s[0]) == k then Some(0)
    else
      match IndexOf(s[1..], key, k)
      case None => None
      case Some(i) => Some(i + 1)
  }

  /** No two elements share a key: the collection is keyed by it. */
  ghost predicate DistinctKeys<T>(s: seq<T>, key: T -> nat) {
    forall a, b :: 0 <= a < b < |s| ==> key(s[a]) != key(s[b])
  }

  /** Every key is below `bound`, the next fresh key. */
  ghost predicate KeysBelow<T>(s: seq<T>, key: T -> nat, bound: nat) {
    forall a :: 0 <= a < |s| ==> key(s[a]) < bound
  }

  /** Appending an element under the fresh key keeps the collection keyed. */
  lemma AppendFresh<T>(s: seq<T>, key: T -> nat, bound: nat, x: T)
    requires DistinctKeys(s, key) && KeysBelow(s, key, bound) && key(x) == bound
    ensures DistinctKeys(s + [x], key) && KeysBelow(s + [x], key, bound + 1)
  {
  }

  /** In a keyed collection, the element found under a key is the only one with that key. */
  lemma IndexOfUnique<T>(s: seq<T>, key: T -> nat, k: nat, j: nat)
    requires DistinctKeys(s, key) && IndexOf(s, key, k).Some? && j < |s|
    ensures key(s[j]) == k <==> j == IndexOf(s, key, k).value
  {
  }

  /** Removing the element at `k` from a keyed collection removes exactly the elements
      with its key, keeps the others in order, and leaves the collection keyed. */
  lemma RemoveAt<T>(s: seq<T>, key: T -> nat, bound: nat, k: nat)
    requires DistinctKeys(s, key) && KeysBelow(s, key, bound) && k < |s|
    ensures var r := s[..k] + s[k + 1..];
      && |r| == |s| - 1
      && DistinctKeys(r, key) && KeysBelow(r, key, bound)
      && (forall j :: 0 <= j < |r| ==> r[j] == s[if j < k then j else j + 1])
      && (forall x :: x in r <==> x in s && key(x) != key(s[k]))
  {
  }
}
