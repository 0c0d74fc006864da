/** Nearest-first selection: a stable sort by a distance key, then the first k. */
module Ranking {
  import opened Common

  /** `s` is in ascending order of `key`. */
  ghost predicate SortedBy<T>(s: seq<T>, key: T -> real)
  {
    forall i, j :: 0 <= i <= j < |s| ==> key(s[i]) <= key(s[j])
  }

  /** No element of `s` has a key below `bound`. */
  ghost predicate AtLeast<T>(s: seq<T>, key: T -> real, bound: real)
  {
    forall i :: 0 <= i < |s| ==> bound <= key(s[i])
  }

  /** `x` inserted into the sorted `s` before the first element with a larger
      key, so that it stays ahead of elements with an equal key. */
  function Insert<T>(x: T, s: seq<T>, key: T -> real): (r: seq<T>)
    ensures |r| == |s| + 1
    ensures multiset(r) == multiset(s) + multiset{x}
  {
    if s == [] then [x]
    else if key(x) <= key(s[0]) then [x] + s
    else
      assert s == [s[0]] + s[1..];
      [s[0]] + Insert(x, s[1..], key)
  }

  /** An element no farther than everything in a sorted sequence can head it. */
  lemma ConsSorted<T>(h: T, t: seq<T>, key: T -> real)
    requires SortedBy(t, key) && AtLeast(t, key, key(h))
    ensures SortedBy([h] + t, key)
  {
    var r := [h] + t;
    forall i, j | 0 <= i <= j < |r| ensures key(r[i]) <= key(r[j]) {
      if i > 0 {
        assert r[i] == t[i - 1] && r[j] == t[j - 1];
      } else if j > 0 {
        assert r[j] == t[j - 1];
      }
    }
  }

  /** Inserting an element that respects a lower bound keeps the bound. */
  lemma {:induction false} InsertAtLeast<T>(x: T, s: seq<T>, key: T -> real, bound: real)
    requires AtLeast(s, key, bound) && bound <= key(x)
    ensures AtLeast(Insert(x, s, key), key, bound)
  {
    if s != [] && key(s[0]) < key(x) {
      var t := Insert(x, s[1..], key);
      InsertAtLeast(x, s[1..], key, bound);
      var r := [s[0]] + t;
      forall i | 0 <= i < |r| ensures bound <= key(r[i]) {
        if i > 0 {
          assert r[i] == t[i - 1];
        }
      }
    }
  }

  /** Inserting into a sorted sequence keeps it sorted. */
  lemma {:induction false} InsertSorted<T>(x: T, s: seq<T>, key: T -> real)
    requires SortedBy(s, key)
    ensures SortedBy(Insert(x, s, key), key)
  {
    if s == [] {
    } else if key(x) <= key(s[0]) {
      ConsSorted(x, s, key);
    } else {
      InsertSorted(x, s[1..], key);
      InsertAtLeast(x, s[1..], key, key(s[0]));
      ConsSorted(s[0], Insert(x, s[1..], key), key);
    }
  }

  /** `s` sorted by `key`. Each element is inserted ahead of the later ones
      with an equal key; `SortByEqualKeys` shows that ties keep their order
      when all keys are equal. */
  function SortBy<T>(s: seq<T>, key: T -> real): (r: seq<T>)
    ensures SortedBy(r, key)
    ensures multiset(r) == multiset(s)
  {
    if s == [] then []
    else
      assert s == [s[0]] + s[1..];
      var t := SortBy(s[1..], key);
      InsertSorted(s[0], t, key);
      Insert(s[0], t, key)
  }

  /** When every key is equal, sorting leaves the sequence as it is: ties
      keep their stored order. */
  lemma {:induction false} SortByEqualKeys<T>(s: seq<T>, key: T -> real)
    requires forall i, j :: 0 <= i < |s| && 0 <= j < |s| ==> key(s[i]) == key(s[j])
    ensures SortBy(s, key) == s
  {
    if s != [] {
      SortByEqualKeys(s[1..], key);
      assert s == [s[0]] + s[1..];
      if |s| > 1 {
        assert key(s[0]) == key(s[1..][0]);
      }
    }
  }

  /** In a sorted sequence, nothing after position `n` has a smaller key than
      anything before it. */
  lemma PrefixNoFartherThanRest<T>(sorted: seq<T>, key: T -> real, n: nat)
    requires SortedBy(sorted, key)
    requires n <= |sorted|
    ensures forall x, y :: x in multiset(sorted[n..]) && y in sorted[..n] ==> key(y) <= key(x)
  {
    forall x, y | x in multiset(sorted[n..]) && y in sorted[..n]
      ensures key(y) <= key(x)
    {
      var j :| 0 <= j < |sorted[n..]| && sorted[n..][j] == x;
      var i :| 0 <= i < n && sorted[..n][i] == y;
      assert sorted[i] == y && sorted[n + j] == x;
    }
  }

  /** Splitting a sequence splits its multiset. */
  lemma SplitMultiset<T>(s: seq<T>, n: nat)
    requires n <= |s|
    ensures multiset(s) - multiset(s[..n]) == multiset(s[n..])
    ensures multiset(s[..n]) <= multiset(s)
  {
    assert s == s[..n] + s[n..];
  }

  /** The `k` elements of `s` with the smallest keys, nearest first: all of
      them when `s` has at most `k` elements, and no element left out has a
      smaller key than one that was taken. */
  function Nearest<T>(s: seq<T>, key: T -> real, k: nat): (r: seq<T>)
    ensures |r| == Min(k, |s|)
    ensures SortedBy(r, key)
    ensures multiset(r) <= multiset(s)
    ensures |s| <= k ==> multiset(r) == multiset(s)
    ensures forall x, y :: x in multiset(s) - multiset(r) && y in r ==> key(y) <= key(x)
  {
    var sorted := SortBy(s, key);
    var n := Min(k, |s|);
    SplitMultiset(sorted, n);
    PrefixNoFartherThanRest(sorted, key, n);
    assert |s| <= k ==> sorted[..n] == sorted;
    sorted[..n]
  }
}
