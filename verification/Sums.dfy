/** Smaller and larger, sums over sequences, and sizes of sets. A sum does not depend on the order of its terms. */
module Sums {

  /** Math.min and Math.max of two numbers. */
  function Min(a: real, b: real): real {
    if a <= b then a else b
  }

  function Max(a: real, b: real): real {
    if a >= b then a else b
  }

  lemma SubsetSize<T>(a: set<T>, b: set<T>)
    requires a <= b
    ensures |a| <= |b|
  {
    assert b == a + (b - a);
  }

  function IntSum<T>(s: seq<T>, f: T -> int): int {
    if s == [] then 0 else IntSum(s[..|s| - 1], f) + f(s[|s| - 1])
  }

  function RealSum<T>(s: seq<T>, f: T -> real): real {
    if s == [] then 0.0 else RealSum(s[..|s| - 1], f) + f(s[|s| - 1])
  }

  lemma {:induction false} IntSumRemove<T>(s: seq<T>, k: nat, f: T -> int)
    requires k < |s|
    ensures IntSum(s, f) == IntSum(s[..k] + s[k + 1..], f) + f(s[k])
  {
    var last := |s| - 1;
    if k == last {
      assert s[..k] + s[k + 1..] == s[..last];
    } else {
      IntSumRemove(s[..last], k, f);
      var shorter := s[..k] + s[k + 1..];
      assert shorter[..|shorter| - 1] == s[..last][..k] + s[..last][k + 1..];
    }
  }

  lemma {:induction false} RealSumRemove<T>(s: seq<T>, k: nat, f: T -> real)
    requires k < |s|
    ensures RealSum(s, f) == RealSum(s[..k] + s[k + 1..], f) + f(s[k])
  {
    var last := |s| - 1;
    if k == last {
      assert s[..k] + s[k + 1..] == s[..last];
    } else {
      RealSumRemove(s[..last], k, f);
      var shorter := s[..k] + s[k + 1..];
      assert shorter[..|shorter| - 1] == s[..last][..k] + s[..last][k + 1..];
    }
  }

  /** A permutation of a nonempty sequence with its last element located and taken out. */
  lemma PermutationSplit<T>(a: seq<T>, b: seq<T>) returns (k: nat)
    requires a != [] && multiset(a) == multiset(b)
    ensures k < |b| && b[k] == a[|a| - 1]
    ensures multiset(a[..|a| - 1]) == multiset(b[..k] + b[k + 1..])
  {
    var x := a[|a| - 1];
    assert a == a[..|a| - 1] + [x];
    assert x in multiset(b);
    k :| 0 <= k < |b| && b[k] == x;
    assert b == b[..k] + [x] + b[k + 1..];
    assert multiset(b) == multiset(b[..k] + b[k + 1..]) + multiset{x};
    assert multiset(a) == multiset(a[..|a| - 1]) + multiset{x};
    assert multiset(a[..|a| - 1]) == multiset(a) - multiset{x} == multiset(b[..k] + b[k + 1..]);
  }

  lemma {:induction false} IntSumPermutation<T>(a: seq<T>, b: seq<T>, f: T -> int)
    requires multiset(a) == multiset(b)
    ensures IntSum(a, f) == IntSum(b, f)
  {
    if a == [] {
      assert |multiset(b)| == 0;
    } else {
      var k := PermutationSplit(a, b);
      IntSumRemove(b, k, f);
      IntSumPermutation(a[..|a| - 1], b[..k] + b[k + 1..], f);
    }
  }

  lemma {:induction false} RealSumPermutation<T>(a: seq<T>, b: seq<T>, f: T -> real)
    requires multiset(a) == multiset(b)
    ensures RealSum(a, f) == RealSum(b, f)
  {
    if a == [] {
      assert |multiset(b)| == 0;
    } else {
      var k := PermutationSplit(a, b);
      RealSumRemove(b, k, f);
      RealSumPermutation(a[..|a| - 1], b[..k] + b[k + 1..], f);
    }
  }

  lemma RealSumAppend<T>(s: seq<T>, x: T, f: T -> real)
    ensures RealSum(s + [x], f) == RealSum(s, f) + f(x)
  {
    assert (s + [x])[..|s|] == s;
  }

  lemma {:induction false} RealSumSame<T>(s: seq<T>, f: T -> real, g: T -> real)
    requires forall x :: x in s ==> f(x) == g(x)
    ensures RealSum(s, f) == RealSum(s, g)
  {
    if s != [] {
      assert s[|s| - 1] in s;
      RealSumSame(s[..|s| - 1], f, g);
    }
  }

  lemma {:induction false} RealSumAdd<T>(s: seq<T>, f: T -> real, g: T -> real, h: T -> real)
    requires forall x :: x in s ==> h(x) == f(x) + g(x)
    ensures RealSum(s, h) == RealSum(s, f) + RealSum(s, g)
  {
    if s != [] {
      assert s[|s| - 1] in s;
      RealSumAdd(s[..|s| - 1], f, g, h);
    }
  }

  predicate Distinct<T(==)>(s: seq<T>) {
    forall i, j :: 0 <= i < j < |s| ==> s[i] != s[j]
  }

  /** A sequence without repetition is no longer than a set that holds its elements. */
  lemma {:induction false} DistinctWithin<T>(s: seq<T>, all: set<T>)
    requires Distinct(s) && forall x :: x in s ==> x in all
    ensures |s| <= |all|
  {
    if s != [] {
      var last := s[|s| - 1];
      assert last in s;
      DistinctWithin(s[..|s| - 1], all - {last});
    }
  }

  /** Changing one term of a sum over distinct keys changes the sum by that term. */
  lemma RealSumChange<T>(s: seq<T>, f: T -> real, g: T -> real, k: T)
    requires Distinct(s) && k in s
    requires forall x :: x in s && x != k ==> f(x) == g(x)
    ensures RealSum(s, g) == RealSum(s, f) - f(k) + g(k)
  {
    var i :| 0 <= i < |s| && s[i] == k;
    RealSumRemove(s, i, f);
    RealSumRemove(s, i, g);
    RealSumSame(s[..i] + s[i + 1..], f, g);
  }
}
