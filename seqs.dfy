/**
 * Sequence operations that the components use over and over: `filter`, `reduce` with `+`,
 * and the distinct values of a list in first-appearance order (`Array.from(new Set(...))`).
 */
module Seqs {

  /** The elements of `xs` for which `keep(x, arg)` holds, in their original order. */
  function Filter<T(==), A>(xs: seq<T>, keep: (T, A) -> bool, arg: A): (r: seq<T>)
    ensures |r| <= |xs|
    ensures forall i :: 0 <= i < |r| ==> r[i] in xs && keep(r[i], arg)
    ensures forall i :: 0 <= i < |xs| && keep(xs[i], arg) ==> xs[i] in r
  {
    if xs == [] then []
    else (if keep(xs[0], arg) then [xs[0]] else []) + Filter(xs[1..], keep, arg)
  }

  /**
   * The filter keeps every element that passes the test as many times as it occurs, and drops
   * every other one.
   */
  lemma {:induction false} FilterCounts<T(!new), A>(xs: seq<T>, keep: (T, A) -> bool, arg: A)
    ensures forall x :: multiset(Filter(xs, keep, arg))[x] == if keep(x, arg) then multiset(xs)[x] else 0
  {
    if xs != [] {
      FilterCounts(xs[1..], keep, arg);
      var rest := Filter(xs[1..], keep, arg);
      assert xs == [xs[0]] + xs[1..];
      if keep(xs[0], arg) {
        assert Filter(xs, keep, arg) == [xs[0]] + rest;
      } else {
        assert Filter(xs, keep, arg) == rest;
      }
    }
  }

  /** `xs.map(f)`: `f` applied to each element, in order. */
  function Map<T, U>(xs: seq<T>, f: T -> U): (r: seq<U>)
    ensures |r| == |xs|
    ensures forall i :: 0 <= i < |xs| ==> r[i] == f(xs[i])
  {
    seq(|xs|, i requires 0 <= i < |xs| => f(xs[i]))
  }

  /** `r` is obtained from `xs` by deleting some elements, keeping the order of the rest. */
  predicate IsSubsequence<T(==)>(r: seq<T>, xs: seq<T>)
  {
    r == [] ||
    (xs != [] && ((r[0] == xs[0] && IsSubsequence(r[1..], xs[1..])) || IsSubsequence(r, xs[1..])))
  }

  lemma {:induction false} FilterIsSubsequence<T, A>(xs: seq<T>, keep: (T, A) -> bool, arg: A)
    ensures IsSubsequence(Filter(xs, keep, arg), xs)
  {
    if xs != [] {
      FilterIsSubsequence(xs[1..], keep, arg);
      var rest := Filter(xs[1..], keep, arg);
      if keep(xs[0], arg) {
        assert Filter(xs, keep, arg) == [xs[0]] + rest;
        assert ([xs[0]] + rest)[1..] == rest;
      } else {
        assert Filter(xs, keep, arg) == rest;
      }
    }
  }

  lemma {:induction false} FilterAppend<T, A>(a: seq<T>, b: seq<T>, keep: (T, A) -> bool, arg: A)
    ensures Filter(a + b, keep, arg) == Filter(a, keep, arg) + Filter(b, keep, arg)
  {
    if a == [] {
      assert a + b == b;
    } else {
      assert (a + b)[0] == a[0];
      assert (a + b)[1..] == a[1..] + b;
      FilterAppend(a[1..], b, keep, arg);
    }
  }

  /** When every element is kept, filtering changes nothing. */
  lemma {:induction false} FilterKeepsAll<T, A>(xs: seq<T>, keep: (T, A) -> bool, arg: A)
    requires forall i :: 0 <= i < |xs| ==> keep(xs[i], arg)
    ensures Filter(xs, keep, arg) == xs
  {
    if xs != [] {
      FilterKeepsAll(xs[1..], keep, arg);
    }
  }

  /** Two tests that agree on every element select the same elements. */
  lemma {:induction false} FilterSameTest<T, A, B>(xs: seq<T>, keep: (T, A) -> bool, a: A, keep': (T, B) -> bool, b: B)
    requires forall i :: 0 <= i < |xs| ==> (keep(xs[i], a) <==> keep'(xs[i], b))
    ensures Filter(xs, keep, a) == Filter(xs, keep', b)
  {
    if xs != [] {
      FilterSameTest(xs[1..], keep, a, keep', b);
    }
  }

  /** Filtering twice with the same test is filtering once. */
  lemma FilterIdempotent<T, A>(xs: seq<T>, keep: (T, A) -> bool, arg: A)
    ensures Filter(Filter(xs, keep, arg), keep, arg) == Filter(xs, keep, arg)
  {
    var r := Filter(xs, keep, arg);
    forall i | 0 <= i < |r| ensures keep(r[i], arg) {
      assert r[i] in r;
    }
    FilterKeepsAll(r, keep, arg);
  }

  /** The sum of `f` over `xs`: `xs.reduce((sum, x) => sum + f(x), 0)`. */
  function SumOf<T>(xs: seq<T>, f: T -> real): real
  {
    if xs == [] then 0.0 else f(xs[0]) + SumOf(xs[1..], f)
  }

  lemma {:induction false} SumAppend<T>(a: seq<T>, b: seq<T>, f: T -> real)
    ensures SumOf(a + b, f) == SumOf(a, f) + SumOf(b, f)
  {
    if a == [] {
      assert a + b == b;
    } else {
      assert (a + b)[0] == a[0];
      assert (a + b)[1..] == a[1..] + b;
      SumAppend(a[1..], b, f);
    }
  }

  /** Taking one term out of a sum. */
  lemma SumRemoveAt<T>(b: seq<T>, i: nat, f: T -> real)
    requires i < |b|
    ensures SumOf(b, f) == f(b[i]) + SumOf(b[..i] + b[i+1..], f)
  {
    var pre, post := b[..i], b[i+1..];
    var tail := [b[i]] + post;
    assert b == pre + tail;
    assert tail[0] == b[i] && tail[1..] == post;
    assert SumOf(tail, f) == f(b[i]) + SumOf(post, f);
    SumAppend(pre, tail, f);
    SumAppend(pre, post, f);
  }

  /** Removing the head of `a` and its counterpart `b[i]` keeps the two multisets equal. */
  lemma MultisetRemoveHead<T>(a: seq<T>, b: seq<T>, i: nat)
    requires a != [] && i < |b| && b[i] == a[0] && multiset(a) == multiset(b)
    ensures multiset(a[1..]) == multiset(b[..i] + b[i+1..])
  {
    assert a == [a[0]] + a[1..];
    assert b == b[..i] + [b[i]] + b[i+1..];
    calc {
      multiset(a[1..]);
      multiset(a) - multiset{a[0]};
      multiset(b) - multiset{b[i]};
      multiset(b[..i] + b[i+1..]);
    }
  }

  /** A sum does not depend on the order of its terms. */
  lemma {:induction false} SumPermutation<T>(a: seq<T>, b: seq<T>, f: T -> real)
    requires multiset(a) == multiset(b)
    ensures SumOf(a, f) == SumOf(b, f)
  {
    if a == [] {
      assert |b| == |multiset(b)| == 0;
    } else {
      var x := a[0];
      assert x in multiset(b);
      var i :| 0 <= i < |b| && b[i] == x;
      var rest := b[..i] + b[i+1..];
      MultisetRemoveHead(a, b, i);
      SumPermutation(a[1..], rest, f);
      SumRemoveAt(b, i, f);
    }
  }

  /** The filtered sum grows by the last term exactly when the last element is kept. */
  lemma FilterSumLast<T, A>(xs: seq<T>, keep: (T, A) -> bool, arg: A, f: T -> real)
    requires xs != []
    ensures SumOf(Filter(xs, keep, arg), f)
         == SumOf(Filter(xs[..|xs| - 1], keep, arg), f) + (if keep(xs[|xs| - 1], arg) then f(xs[|xs| - 1]) else 0.0)
  {
    var n := |xs| - 1;
    assert xs == xs[..n] + [xs[n]];
    FilterAppend(xs[..n], [xs[n]], keep, arg);
    SumAppend(Filter(xs[..n], keep, arg), Filter([xs[n]], keep, arg), f);
  }

  /** With non-negative terms, the sum over a filtered list is at most the sum over the whole list. */
  lemma {:induction false} SumFilterAtMost<T, A>(xs: seq<T>, keep: (T, A) -> bool, arg: A, f: T -> real)
    requires forall i :: 0 <= i < |xs| ==> f(xs[i]) >= 0.0
    ensures SumOf(Filter(xs, keep, arg), f) <= SumOf(xs, f)
  {
    if xs != [] {
      SumFilterAtMost(xs[1..], keep, arg, f);
      var rest := Filter(xs[1..], keep, arg);
      if keep(xs[0], arg) {
        assert Filter(xs, keep, arg) == [xs[0]] + rest;
        assert ([xs[0]] + rest)[1..] == rest;
      } else {
        assert Filter(xs, keep, arg) == rest;
      }
    }
  }

  /** The distinct elements of `xs`, each once, in the order of their first appearance. */
  function Distinct<T(==)>(xs: seq<T>): (r: seq<T>)
    ensures forall i, j :: 0 <= i < j < |r| ==> r[i] != r[j]
    ensures forall i :: 0 <= i < |r| ==> r[i] in xs
    ensures forall i :: 0 <= i < |xs| ==> xs[i] in r
  {
    if xs == [] then []
    else
      var d := Distinct(xs[..|xs| - 1]);
      var last := xs[|xs| - 1];
      assert xs == xs[..|xs| - 1] + [last];
      if last in d then d else d + [last]
  }

  /** The position of the first occurrence of `x` in `xs`. */
  function FirstIndex<T(==)>(xs: seq<T>, x: T): (k: nat)
    requires x in xs
    ensures k < |xs| && xs[k] == x && x !in xs[..k]
  {
    if xs[0] == x then 0
    else
      var k := 1 + FirstIndex(xs[1..], x);
      assert xs[..k] == [xs[0]] + xs[1..][..k - 1];
      k
  }

  lemma {:induction false} FirstIndexInPrefix<T>(xs: seq<T>, n: nat, x: T)
    requires n <= |xs| && x in xs[..n]
    ensures FirstIndex(xs, x) == FirstIndex(xs[..n], x)
  {
    var k := FirstIndex(xs[..n], x);
    var m := FirstIndex(xs, x);
    assert xs[..n][..k] == xs[..k];
  }

  /** `Distinct` keeps first-appearance order: earlier in the result means first seen earlier in `xs`. */
  lemma {:induction false} DistinctFirstAppearance<T>(xs: seq<T>)
    ensures forall i, j :: 0 <= i < j < |Distinct(xs)| ==>
      FirstIndex(xs, Distinct(xs)[i]) < FirstIndex(xs, Distinct(xs)[j])
  {
    if xs != [] {
      var n := |xs| - 1;
      var p := xs[..n];
      var d := Distinct(p);
      var last := xs[n];
      DistinctFirstAppearance(p);
      assert xs[..n] == p;
      forall y | y in d ensures FirstIndex(xs, y) == FirstIndex(p, y) {
        FirstIndexInPrefix(xs, n, y);
      }
      if last !in d {
        assert last !in p;
        assert FirstIndex(xs, last) == n;
        assert Distinct(xs) == d + [last];
        FirstSeenAppend(xs, d, last);
      }
    }
  }

  /** Appending an element first seen after everything in `d` keeps `d` in first-appearance order. */
  lemma FirstSeenAppend<T>(xs: seq<T>, d: seq<T>, last: T)
    requires last in xs
    requires forall i :: 0 <= i < |d| ==> d[i] in xs && FirstIndex(xs, d[i]) < FirstIndex(xs, last)
    requires forall i, j :: 0 <= i < j < |d| ==> FirstIndex(xs, d[i]) < FirstIndex(xs, d[j])
    ensures forall i, j :: 0 <= i < j < |d + [last]| ==>
      FirstIndex(xs, (d + [last])[i]) < FirstIndex(xs, (d + [last])[j])
  {
    var r := d + [last];
    forall i, j | 0 <= i < j < |r|
      ensures FirstIndex(xs, r[i]) < FirstIndex(xs, r[j])
    {
      assert r[i] == d[i];
      if j < |d| {
        assert r[j] == d[j];
      }
    }
  }
}
