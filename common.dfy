/**
 * Small value types shared by the engine and the front-end models.
 */
module Common {

  /** A value that may be absent: Go's nil pointer, a JavaScript `null` or `undefined`. */
  datatype Option<T> = None | Some(value: T)

  /** Nanoseconds in a minute: times and durations are nanosecond counts. */
  const NanosPerMinute: int := 60_000_000_000

  /** The sum of a sequence of numbers, as `reduce((sum, d) => sum + d, 0)` computes it. */
  function Sum(s: seq<real>): real
  {
    if s == [] then 0.0 else s[0] + Sum(s[1..])
  }

  /** The sum of a sequence of integers. */
  function SumInt(s: seq<int>): int
  {
    if s == [] then 0 else s[0] + SumInt(s[1..])
  }

  lemma {:induction false} SumAppend(s: seq<real>, x: real)
    ensures Sum(s + [x]) == Sum(s) + x
  {
    if s != [] {
      assert (s + [x])[1..] == s[1..] + [x];
      SumAppend(s[1..], x);
    }
  }

  lemma {:induction false} SumIntAppend(s: seq<int>, x: int)
    ensures SumInt(s + [x]) == SumInt(s) + x
  {
    if s != [] {
      assert (s + [x])[1..] == s[1..] + [x];
      SumIntAppend(s[1..], x);
    }
  }

  /** Every element is at least `lo`, so the sum is at least |s|*lo. */
  lemma {:induction false} SumIntAtLeast(s: seq<int>, lo: int)
    requires forall i :: 0 <= i < |s| ==> lo <= s[i]
    ensures |s| * lo <= SumInt(s)
  {
    if s != [] {
      SumIntAtLeast(s[1..], lo);
    }
  }

  /** Every element is at most `hi`, so the sum is at most |s|*hi. */
  lemma {:induction false} SumIntAtMost(s: seq<int>, hi: int)
    requires forall i :: 0 <= i < |s| ==> s[i] <= hi
    ensures SumInt(s) <= |s| * hi
  {
    if s != [] {
      SumIntAtMost(s[1..], hi);
    }
  }

  /** Every element lies between `lo` and `hi`, so the sum lies between |s|*lo and |s|*hi. */
  lemma {:induction false} SumBounds(s: seq<real>, lo: real, hi: real)
    requires forall i :: 0 <= i < |s| ==> lo <= s[i] <= hi
    ensures |s| as real * lo <= Sum(s) <= |s| as real * hi
  {
    if s != [] {
      SumBounds(s[1..], lo, hi);
    }
  }

  /** Number of elements satisfying a predicate. */
  function Count<T>(s: seq<T>, p: T -> bool): nat
  {
    if s == [] then 0 else (if p(s[0]) then 1 else 0) + Count(s[1..], p)
  }

  lemma {:induction false} CountAppend<T>(s: seq<T>, x: T, p: T -> bool)
    ensures Count(s + [x], p) == Count(s, p) + (if p(x) then 1 else 0)
  {
    if s != [] {
      assert (s + [x])[1..] == s[1..] + [x];
      CountAppend(s[1..], x, p);
    }
  }

  /** The elements satisfying a predicate, in their original order (`Array.prototype.filter`). */
  function Filter<T>(s: seq<T>, p: T -> bool): (r: seq<T>)
    ensures |r| <= |s|
    ensures forall x :: x in r ==> x in s && p(x)
    ensures forall x :: x in s && p(x) ==> x in r
  {
    if s == [] then [] else (if p(s[0]) then [s[0]] else []) + Filter(s[1..], p)
  }

  /** The last `n` elements (`slice(-n)`), or all of them when there are fewer. */
  function TakeLast<T>(s: seq<T>, n: nat): (r: seq<T>)
    ensures |r| == if |s| < n then |s| else n
    ensures r == s[|s| - |r|..]
  {
    if |s| <= n then s else s[|s| - n..]
  }

  /** The first `n` elements (`slice(0, n)`), or all of them when there are fewer. */
  function Take<T>(s: seq<T>, n: nat): (r: seq<T>)
    ensures |r| == if |s| < n then |s| else n
    ensures r == s[..|r|]
  {
    if |s| <= n then s else s[..n]
  }

  /**
   * Where key `k` sits in a sequence of pairs, searching from the end: a record's
   * entry, a histogram's bin.
   */
  function KeyIndex<K(==), V>(ps: seq<(K, V)>, k: K): (r: Option<nat>)
    ensures r.Some? ==> r.value < |ps| && ps[r.value].0 == k
    ensures r.None? ==> forall i :: 0 <= i < |ps| ==> ps[i].0 != k
  {
    if ps == [] then None
    else if ps[|ps| - 1].0 == k then Some(|ps| - 1)
    else KeyIndex(ps[..|ps| - 1], k)
  }

  /** The first components of a sequence of pairs, in order: a record's keys, a histogram's bin starts. */
  function Firsts<K, V>(ps: seq<(K, V)>): (ks: seq<K>)
    ensures |ks| == |ps| && forall i :: 0 <= i < |ps| ==> ks[i] == ps[i].0
  {
    seq(|ps|, i requires 0 <= i < |ps| => ps[i].0)
  }
}
