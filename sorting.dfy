/** Enumerable.OrderBy as the controllers use it: a stable sort on an integer key.
    OrderByDescending on a key is OrderBy on the negated key. */
module Sorting {

  predicate SortedBy<T>(s: seq<T>, key: T -> int) {
    forall i, j | 0 <= i < j < |s| :: key(s[i]) <= key(s[j])
  }

  /** The elements of s whose key is k, in their order in s. */
  function Matching<T>(s: seq<T>, key: T -> int, k: int): (r: seq<T>)
    ensures |r| <= |s|
  {
    if s == [] then []
    else (if key(s[0]) == k then [s[0]] else []) + Matching(s[1..], key, k)
  }

  /** Places x in front of the first element whose key is not smaller than its own. */
  function Insert<T>(x: T, s: seq<T>, key: T -> int): seq<T> {
    if s == [] then [x]
    else if key(x) <= key(s[0]) then [x] + s
    else [s[0]] + Insert(x, s[1..], key)
  }

  /** The result of s.OrderBy(key).ToList(). */
  function SortBy<T>(s: seq<T>, key: T -> int): seq<T> {
    if s == [] then [] else Insert(s[0], SortBy(s[1..], key), key)
  }

  predicate AllAtLeast<T>(s: seq<T>, key: T -> int, lo: int) {
    forall i | 0 <= i < |s| :: lo <= key(s[i])
  }

  lemma {:induction false} InsertAtLeast<T>(x: T, s: seq<T>, key: T -> int, lo: int)
    requires AllAtLeast(s, key, lo) && lo <= key(x)
    ensures AllAtLeast(Insert(x, s, key), key, lo)
  {
    if s != [] && key(x) > key(s[0]) {
      InsertAtLeast(x, s[1..], key, lo);
    }
  }

  lemma {:induction false} InsertMultiset<T>(x: T, s: seq<T>, key: T -> int)
    ensures multiset(Insert(x, s, key)) == multiset{x} + multiset(s)
  {
    if s != [] && key(x) > key(s[0]) {
      InsertMultiset(x, s[1..], key);
      assert s == [s[0]] + s[1..];
    }
  }

  lemma {:induction false} InsertSorted<T>(x: T, s: seq<T>, key: T -> int)
    requires SortedBy(s, key)
    ensures SortedBy(Insert(x, s, key), key)
  {
    if s != [] && key(x) > key(s[0]) {
      InsertSorted(x, s[1..], key);
      InsertAtLeast(x, s[1..], key, key(s[0]));
    }
  }

  lemma MatchingCons<T>(y: T, t: seq<T>, key: T -> int, k: int)
    ensures Matching([y] + t, key, k) == (if key(y) == k then [y] else []) + Matching(t, key, k)
  {
    assert ([y] + t)[0] == y && ([y] + t)[1..] == t;
  }

  lemma {:induction false} InsertMatching<T>(x: T, s: seq<T>, key: T -> int, k: int)
    ensures Matching(Insert(x, s, key), key, k)
         == (if key(x) == k then [x] else []) + Matching(s, key, k)
  {
    if s == [] {
    } else if key(x) <= key(s[0]) {
      MatchingCons(x, s, key, k);
    } else {
      var y, t := s[0], Insert(x, s[1..], key);
      InsertMatching(x, s[1..], key, k);
      MatchingCons(y, t, key, k);
      MatchingCons(y, s[1..], key, k);
      assert [y] + s[1..] == s;
      if key(y) == k {
        assert key(x) != k;
      }
    }
  }

  /** OrderBy returns the same elements, in key order. */
  lemma {:induction false} SortByIsSortedPermutation<T>(s: seq<T>, key: T -> int)
    ensures SortedBy(SortBy(s, key), key)
    ensures multiset(SortBy(s, key)) == multiset(s)
  {
    if s != [] {
      SortByIsSortedPermutation(s[1..], key);
      InsertSorted(s[0], SortBy(s[1..], key), key);
      InsertMultiset(s[0], SortBy(s[1..], key), key);
      assert s == [s[0]] + s[1..];
    }
  }

  /** OrderBy is stable: elements with equal keys keep their relative order. */
  lemma {:induction false} SortByIsStable<T>(s: seq<T>, key: T -> int, k: int)
    ensures Matching(SortBy(s, key), key, k) == Matching(s, key, k)
  {
    if s != [] {
      SortByIsStable(s[1..], key, k);
      InsertMatching(s[0], SortBy(s[1..], key), key, k);
    }
  }
}
