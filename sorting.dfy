/**
 * A stable sort on a numeric key: the order `sort.SliceStable` produces for a
 * "key less than" comparator, and the order JavaScript's `Array.prototype.sort`
 * produces for a comparator returning the difference of two keys.
 */
module Sorting {

  /** Keys never decrease from left to right. */
  ghost predicate SortedBy<T>(s: seq<T>, key: T -> real)
  {
    forall i, j :: 0 <= i < j < |s| ==> key(s[i]) <= key(s[j])
  }

  /** The elements whose key equals `v`, in their order in `s`. */
  function WithKey<T>(s: seq<T>, key: T -> real, v: real): seq<T>
  {
    if s == [] then [] else (if key(s[0]) == v then [s[0]] else []) + WithKey(s[1..], key, v)
  }

  /** Each key is at most the next one. */
  ghost predicate Ascending<T>(s: seq<T>, key: T -> real)
  {
    forall i :: 0 < i < |s| ==> key(s[i - 1]) <= key(s[i])
  }

  lemma {:induction false} AscendingIsSorted<T>(s: seq<T>, key: T -> real)
    requires Ascending(s, key)
    ensures SortedBy(s, key)
  {
    if s != [] {
      AscendingIsSorted(s[1..], key);
      forall j | 0 < j < |s| ensures key(s[0]) <= key(s[j]) {
        if j > 1 {
          assert key(s[1]) <= key(s[j]) by { assert s[1..][0] == s[1] && s[1..][j - 1] == s[j]; }
        }
      }
    }
  }

  /** Places `x` before the first element whose key is not smaller. */
  function Insert<T>(x: T, s: seq<T>, key: T -> real): (r: seq<T>)
    requires Ascending(s, key)
    ensures |r| == |s| + 1 && (r[0] == x || (s != [] && r[0] == s[0]))
    ensures Ascending(r, key)
    ensures multiset(r) == multiset(s) + multiset{x}
  {
    if s == [] then [x]
    else if key(s[0]) < key(x) then
      assert s == [s[0]] + s[1..];
      AscendingTail(s, key);
      var t := Insert(x, s[1..], key);
      AscendingCons(s[0], t, key);
      [s[0]] + t
    else
      AscendingCons(x, s, key);
      [x] + s
  }

  lemma AscendingTail<T>(s: seq<T>, key: T -> real)
    requires s != [] && Ascending(s, key)
    ensures Ascending(s[1..], key)
  {
    forall i | 0 < i < |s| - 1 ensures key(s[1..][i - 1]) <= key(s[1..][i]) {
      assert s[1..][i - 1] == s[i] && s[1..][i] == s[i + 1];
    }
  }

  lemma AscendingCons<T>(h: T, t: seq<T>, key: T -> real)
    requires Ascending(t, key) && (t == [] || key(h) <= key(t[0]))
    ensures Ascending([h] + t, key)
  {
    forall i | 0 < i < |t| + 1 ensures key(([h] + t)[i - 1]) <= key(([h] + t)[i]) {
      if i > 1 {
        assert ([h] + t)[i - 1] == t[i - 2] && ([h] + t)[i] == t[i - 1];
      }
    }
  }

  /** Stable insertion sort, ascending by key. */
  function Sort<T>(s: seq<T>, key: T -> real): (r: seq<T>)
    ensures Ascending(r, key)
    ensures multiset(r) == multiset(s)
  {
    if s == [] then []
    else
      assert s == [s[0]] + s[1..];
      Insert(s[0], Sort(s[1..], key), key)
  }

  /** The sorted sequence is a sorted permutation of its input. */
  lemma SortIsSortedPermutation<T>(s: seq<T>, key: T -> real)
    ensures SortedBy(Sort(s, key), key)
    ensures multiset(Sort(s, key)) == multiset(s)
  {
    AscendingIsSorted(Sort(s, key), key);
  }

  lemma {:induction false} WithKeyAppend<T>(a: seq<T>, b: seq<T>, key: T -> real, v: real)
    ensures WithKey(a + b, key, v) == WithKey(a, key, v) + WithKey(b, key, v)
  {
    if a == [] {
      assert a + b == b;
    } else {
      var head := if key(a[0]) == v then [a[0]] else [];
      assert (a + b)[0] == a[0];
      assert (a + b)[1..] == a[1..] + b;
      WithKeyAppend(a[1..], b, key, v);
      calc {
        WithKey(a + b, key, v);
        head + WithKey(a[1..] + b, key, v);
        head + (WithKey(a[1..], key, v) + WithKey(b, key, v));
        (head + WithKey(a[1..], key, v)) + WithKey(b, key, v);
        WithKey(a, key, v) + WithKey(b, key, v);
      }
    }
  }

  /** Inserting `x` puts it before the elements of its own key that were already there. */
  lemma {:induction false} WithKeyInsert<T>(x: T, s: seq<T>, key: T -> real, v: real)
    requires Ascending(s, key)
    ensures WithKey(Insert(x, s, key), key, v)
         == (if key(x) == v then [x] + WithKey(s, key, v) else WithKey(s, key, v))
  {
    if s == [] {
    } else if key(s[0]) < key(x) {
      var r := Insert(x, s, key);
      WithKeyInsert(x, s[1..], key, v);
      assert r[0] == s[0] && r[1..] == Insert(x, s[1..], key);
    } else {
      assert ([x] + s)[0] == x && ([x] + s)[1..] == s;
    }
  }

  /**
   * Stability: elements that share a key keep their relative order.
   */
  lemma {:induction false} SortIsStable<T>(s: seq<T>, key: T -> real, v: real)
    ensures WithKey(Sort(s, key), key, v) == WithKey(s, key, v)
  {
    if s != [] {
      SortIsStable(s[1..], key, v);
      WithKeyInsert(s[0], Sort(s[1..], key), key, v);
    }
  }

  /** A sequence that is already sorted is left as it is. */
  lemma {:induction false} SortSortedIsIdentity<T>(s: seq<T>, key: T -> real)
    requires Ascending(s, key)
    ensures Sort(s, key) == s
  {
    if s != [] {
      SortSortedIsIdentity(s[1..], key);
      assert Sort(s[1..], key) == s[1..];
      if |s| > 1 {
        assert key(s[0]) <= key(s[1]);
      }
    }
  }
}
