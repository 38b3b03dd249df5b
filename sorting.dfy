/**
 * Python's `list.sort(key=...)`: a stable sort by a numeric key. The model
 * is an insertion sort that puts an element before every element of equal
 * or larger key, so elements with equal keys keep their order of arrival.
 * A descending sort (`reverse=True`) is the ascending sort on the negated key.
 */
module Sorting {
  /** Every element's key is at most that of every element after it. */
  ghost predicate SortedBy<T>(s: seq<T>, key: T -> real)
  {
    forall i, j :: 0 <= i < j < |s| ==> key(s[i]) <= key(s[j])
  }

  /** No element occurs twice. */
  ghost predicate Distinct<T>(s: seq<T>)
  {
    forall i, j :: 0 <= i < j < |s| ==> s[i] != s[j]
  }

  /** The tail of a list without repeats has none either, and does not hold the head. */
  lemma DistinctTail<T>(s: seq<T>)
    requires Distinct(s) && s != []
    ensures Distinct(s[1..]) && s[0] !in s[1..]
  {
    assert forall i :: 0 <= i < |s[1..]| ==> s[1..][i] == s[i + 1];
  }

  /** Appending is associative. */
  lemma AppendAssoc<T>(a: seq<T>, b: seq<T>, c: seq<T>)
    ensures (a + b) + c == a + (b + c)
  {
  }

  /** Inserts `x` into a sorted `s`, before the first element whose key is not smaller. */
  function Insert<T>(x: T, s: seq<T>, key: T -> real): (r: seq<T>)
    ensures multiset(r) == multiset(s) + multiset{x}
  {
    if s == [] || key(x) <= key(s[0]) then
      [x] + s
    else
      assert s == [s[0]] + s[1..];
      [s[0]] + Insert(x, s[1..], key)
  }

  /** Inserting into a sorted list keeps it sorted. */
  lemma {:induction false} InsertSorted<T>(x: T, s: seq<T>, key: T -> real)
    requires SortedBy(s, key)
    ensures SortedBy(Insert(x, s, key), key)
  {
    if s != [] && key(x) > key(s[0]) {
      var rest := Insert(x, s[1..], key);
      InsertSorted(x, s[1..], key);
      forall k | 0 <= k < |rest|
        ensures key(s[0]) <= key(rest[k])
      {
        assert rest[k] in multiset(rest);
        if rest[k] != x {
          assert rest[k] in multiset(s[1..]);
          var j :| 0 <= j < |s[1..]| && s[1..][j] == rest[k];
          assert s[j + 1] == rest[k];
        }
      }
      assert Insert(x, s, key) == [s[0]] + rest;
    }
  }

  /** `sorted(s, key=key)`. */
  function SortBy<T>(s: seq<T>, key: T -> real): (r: seq<T>)
    ensures multiset(r) == multiset(s)
    ensures SortedBy(r, key)
  {
    if s == [] then []
    else
      assert s == [s[0]] + s[1..];
      var sorted := SortBy(s[1..], key);
      InsertSorted(s[0], sorted, key);
      Insert(s[0], sorted, key)
  }

  /** The elements of `s` whose key is `k`, in their order in `s`. */
  function WithKey<T>(s: seq<T>, key: T -> real, k: real): (r: seq<T>)
    ensures |r| <= |s|
    ensures forall i :: 0 <= i < |r| ==> key(r[i]) == k
  {
    if s == [] then []
    else (if key(s[0]) == k then [s[0]] else []) + WithKey(s[1..], key, k)
  }

  /**
   * The sort is stable: for every key value, the elements carrying it
   * appear in the result in the same order as in the input.
   */
  lemma {:induction false} SortByStable<T>(s: seq<T>, key: T -> real, k: real)
    ensures WithKey(SortBy(s, key), key, k) == WithKey(s, key, k)
  {
    if s != [] {
      var sorted := SortBy(s[1..], key);
      SortByStable(s[1..], key, k);
      InsertWithKey(s[0], sorted, key, k);
    }
  }

  /** Inserting `x` puts it ahead of every element of its own key. */
  lemma {:induction false} InsertWithKey<T>(x: T, s: seq<T>, key: T -> real, k: real)
    ensures WithKey(Insert(x, s, key), key, k) == (if key(x) == k then [x] else []) + WithKey(s, key, k)
  {
    var r := Insert(x, s, key);
    if s == [] || key(x) <= key(s[0]) {
      assert r[1..] == s;
    } else {
      var rest := Insert(x, s[1..], key);
      assert r[0] == s[0] && r[1..] == rest;
      InsertWithKey(x, s[1..], key, k);
      AppendAssoc(if key(s[0]) == k then [s[0]] else [], if key(x) == k then [x] else [], WithKey(s[1..], key, k));
      AppendAssoc(if key(x) == k then [x] else [], if key(s[0]) == k then [s[0]] else [], WithKey(s[1..], key, k));
    }
  }

  /** Sorting a list without repetitions yields a list without repetitions. */
  lemma {:induction false} SortByDistinct<T>(s: seq<T>, key: T -> real)
    requires Distinct(s)
    ensures Distinct(SortBy(s, key))
  {
    if s != [] {
      assert s == [s[0]] + s[1..];
      SortByDistinct(s[1..], key);
      var sorted := SortBy(s[1..], key);
      assert s[0] !in multiset(s[1..]);
      InsertDistinct(s[0], sorted, key);
    }
  }

  lemma {:induction false} InsertDistinct<T>(x: T, s: seq<T>, key: T -> real)
    requires Distinct(s) && x !in multiset(s)
    ensures Distinct(Insert(x, s, key))
  {
    if s != [] && key(x) > key(s[0]) {
      assert s == [s[0]] + s[1..];
      InsertDistinct(x, s[1..], key);
      var rest := Insert(x, s[1..], key);
      assert s[0] !in multiset(rest);
    }
  }

  /** The sort looks only at the keys of the elements it is given. */
  lemma {:induction false} SortByCongruent<T>(s: seq<T>, k1: T -> real, k2: T -> real)
    requires forall i :: 0 <= i < |s| ==> k1(s[i]) == k2(s[i])
    ensures SortBy(s, k1) == SortBy(s, k2)
  {
    if s != [] {
      SortByCongruent(s[1..], k1, k2);
      var sorted := SortBy(s[1..], k1);
      forall y | y in sorted ensures k1(y) == k2(y) {
        assert y in multiset(s[1..]);
      }
      InsertCongruent(s[0], sorted, k1, k2);
    }
  }

  lemma {:induction false} InsertCongruent<T>(x: T, s: seq<T>, k1: T -> real, k2: T -> real)
    requires k1(x) == k2(x)
    requires forall y :: y in s ==> k1(y) == k2(y)
    ensures Insert(x, s, k1) == Insert(x, s, k2)
  {
    if s != [] {
      assert s[0] in s;
      InsertCongruent(x, s[1..], k1, k2);
    }
  }
}
