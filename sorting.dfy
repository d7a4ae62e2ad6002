/**
 * A stable sort, as `Array.prototype.sort` is: elements are ordered by a comparator-induced
 * relation `leq(x, y, arg)` ("x may come before y"), and elements that compare equal keep
 * their input order. It is written as insertion sort over a sequence.
 */
module Sorting {

  ghost predicate TotalPreorder<T(!new), A>(leq: (T, T, A) -> bool, arg: A)
  {
    && (forall x, y :: leq(x, y, arg) || leq(y, x, arg))
    && (forall x, y, z :: leq(x, y, arg) && leq(y, z, arg) ==> leq(x, z, arg))
  }

  predicate Sorted<T, A>(s: seq<T>, leq: (T, T, A) -> bool, arg: A)
  {
    forall i, j :: 0 <= i < j < |s| ==> leq(s[i], s[j], arg)
  }

  /** x and y compare equal: the comparator returns 0 for them. */
  predicate Tied<T, A>(x: T, y: T, leq: (T, T, A) -> bool, arg: A)
  {
    leq(x, y, arg) && leq(y, x, arg)
  }

  /** Inserts `x` after every element of `s` that may precede it. */
  function Insert<T, A>(x: T, s: seq<T>, leq: (T, T, A) -> bool, arg: A): (r: seq<T>)
    ensures multiset(r) == multiset(s) + multiset{x}
  {
    if s == [] then [x]
    else if leq(s[0], x, arg) then
      assert s == [s[0]] + s[1..];
      [s[0]] + Insert(x, s[1..], leq, arg)
    else [x] + s
  }

  function SortBy<T, A>(xs: seq<T>, leq: (T, T, A) -> bool, arg: A): (r: seq<T>)
    ensures multiset(r) == multiset(xs)
  {
    if xs == [] then []
    else
      assert xs == xs[..|xs| - 1] + [xs[|xs| - 1]];
      Insert(xs[|xs| - 1], SortBy(xs[..|xs| - 1], leq, arg), leq, arg)
  }

  lemma {:induction false} InsertSorted<T(!new), A>(x: T, s: seq<T>, leq: (T, T, A) -> bool, arg: A)
    requires TotalPreorder(leq, arg) && Sorted(s, leq, arg)
    ensures Sorted(Insert(x, s, leq, arg), leq, arg)
  {
    if s != [] {
      var r := Insert(x, s, leq, arg);
      if leq(s[0], x, arg) {
        var t := Insert(x, s[1..], leq, arg);
        InsertSorted(x, s[1..], leq, arg);
        assert r == [s[0]] + t;
        forall j | 0 <= j < |t| ensures leq(s[0], t[j], arg) {
          assert t[j] in multiset(t);
          assert t[j] == x || t[j] in multiset(s[1..]);
          if t[j] != x {
            var k :| 0 <= k < |s[1..]| && s[1..][k] == t[j];
            assert s[k + 1] == t[j];
          }
        }
      } else {
        assert leq(x, s[0], arg);
        assert r == [x] + s;
      }
    }
  }

  lemma {:induction false} SortBySorted<T(!new), A>(xs: seq<T>, leq: (T, T, A) -> bool, arg: A)
    requires TotalPreorder(leq, arg)
    ensures Sorted(SortBy(xs, leq, arg), leq, arg)
  {
    if xs != [] {
      SortBySorted(xs[..|xs| - 1], leq, arg);
      InsertSorted(xs[|xs| - 1], SortBy(xs[..|xs| - 1], leq, arg), leq, arg);
    }
  }

  /** The elements of `s` tied with `x`, in the order they appear in `s`. */
  function Ties<T, A>(s: seq<T>, x: T, leq: (T, T, A) -> bool, arg: A): seq<T>
  {
    if s == [] then []
    else if Tied(s[0], x, leq, arg) then [s[0]] + Ties(s[1..], x, leq, arg)
    else Ties(s[1..], x, leq, arg)
  }

  /** `Ties` keeps only elements of `s`, and only those tied with `x`. */
  lemma {:induction false} TiesMembers<T, A>(s: seq<T>, x: T, leq: (T, T, A) -> bool, arg: A)
    ensures forall i :: 0 <= i < |Ties(s, x, leq, arg)| ==>
              Ties(s, x, leq, arg)[i] in s && Tied(Ties(s, x, leq, arg)[i], x, leq, arg)
  {
    if s != [] {
      TiesMembers(s[1..], x, leq, arg);
    }
  }

  lemma {:induction false} TiesAppend<T, A>(a: seq<T>, b: seq<T>, x: T, leq: (T, T, A) -> bool, arg: A)
    ensures Ties(a + b, x, leq, arg) == Ties(a, x, leq, arg) + Ties(b, x, leq, arg)
  {
    if a == [] {
      assert a + b == b;
    } else {
      assert (a + b)[0] == a[0];
      assert (a + b)[1..] == a[1..] + b;
      TiesAppend(a[1..], b, x, leq, arg);
    }
  }

  /** Nothing in a sorted `s` can tie with an `e` that the head of `s` may not precede. */
  lemma NoTiesAfterGreaterHead<T(!new), A>(e: T, s: seq<T>, x: T, leq: (T, T, A) -> bool, arg: A)
    requires TotalPreorder(leq, arg) && Sorted(s, leq, arg)
    requires s != [] && !leq(s[0], e, arg) && Tied(e, x, leq, arg)
    ensures Ties(s, x, leq, arg) == []
  {
    TiesMembers(s, x, leq, arg);
    forall i | 0 <= i < |s| ensures !Tied(s[i], x, leq, arg) {
      if i > 0 {
        assert leq(s[0], s[i], arg);
      }
    }
  }

  lemma TiesSingle<T, A>(e: T, x: T, leq: (T, T, A) -> bool, arg: A)
    ensures Ties([e], x, leq, arg) == if Tied(e, x, leq, arg) then [e] else []
  {
    assert [e][1..] == [];
  }

  lemma InsertBehindHead<T, A>(e: T, s: seq<T>, leq: (T, T, A) -> bool, arg: A)
    requires s != [] && leq(s[0], e, arg)
    ensures Insert(e, s, leq, arg) == [s[0]] + Insert(e, s[1..], leq, arg)
  {
  }

  /** Inserting behind the head of `s`: the head's tie status is prepended on both sides. */
  lemma InsertTiesBehindHead<T, A>(e: T, s: seq<T>, x: T, leq: (T, T, A) -> bool, arg: A)
    requires s != [] && leq(s[0], e, arg)
    requires Ties(Insert(e, s[1..], leq, arg), x, leq, arg)
          == Ties(s[1..], x, leq, arg) + (if Tied(e, x, leq, arg) then [e] else [])
    ensures Ties(Insert(e, s, leq, arg), x, leq, arg)
         == Ties(s, x, leq, arg) + (if Tied(e, x, leq, arg) then [e] else [])
  {
    InsertBehindHead(e, s, leq, arg);
    TiesConsStep(s[0], s[1..], Insert(e, s[1..], leq, arg), if Tied(e, x, leq, arg) then [e] else [], x, leq, arg);
    assert s == [s[0]] + s[1..];
  }

  /** `Ties` distributes over putting one element in front. */
  lemma TiesConsStep<T, A>(h: T, rest: seq<T>, t: seq<T>, extra: seq<T>, x: T, leq: (T, T, A) -> bool, arg: A)
    requires Ties(t, x, leq, arg) == Ties(rest, x, leq, arg) + extra
    ensures Ties([h] + t, x, leq, arg) == Ties([h] + rest, x, leq, arg) + extra
  {
    var th := Ties([h], x, leq, arg);
    TiesAppend([h], t, x, leq, arg);
    TiesAppend([h], rest, x, leq, arg);
    AppendAssoc(th, Ties(rest, x, leq, arg), extra);
  }

  lemma AppendAssoc<T>(a: seq<T>, b: seq<T>, c: seq<T>)
    ensures a + (b + c) == (a + b) + c
  {
  }

  /** Inserting in front of `s`: `e` comes first, which is harmless when nothing in `s` ties with it. */
  lemma InsertTiesInFront<T, A>(e: T, s: seq<T>, x: T, leq: (T, T, A) -> bool, arg: A)
    requires s != [] && !leq(s[0], e, arg)
    requires Tied(e, x, leq, arg) ==> Ties(s, x, leq, arg) == []
    ensures Ties(Insert(e, s, leq, arg), x, leq, arg)
         == Ties(s, x, leq, arg) + (if Tied(e, x, leq, arg) then [e] else [])
  {
    assert Insert(e, s, leq, arg) == [e] + s;
    TiesAppend([e], s, x, leq, arg);
    TiesSingle(e, x, leq, arg);
  }

  lemma {:induction false} InsertTies<T(!new), A>(e: T, s: seq<T>, x: T, leq: (T, T, A) -> bool, arg: A)
    requires TotalPreorder(leq, arg) && Sorted(s, leq, arg)
    ensures Ties(Insert(e, s, leq, arg), x, leq, arg)
         == Ties(s, x, leq, arg) + (if Tied(e, x, leq, arg) then [e] else [])
  {
    if s == [] {
    } else if leq(s[0], e, arg) {
      assert Sorted(s[1..], leq, arg);
      InsertTies(e, s[1..], x, leq, arg);
      InsertTiesBehindHead(e, s, x, leq, arg);
    } else {
      if Tied(e, x, leq, arg) {
        NoTiesAfterGreaterHead(e, s, x, leq, arg);
      }
      InsertTiesInFront(e, s, x, leq, arg);
    }
  }

  /** Sorting `p + [e]` inserts `e` into the sorted `p`. */
  lemma SortBySnoc<T, A>(p: seq<T>, e: T, leq: (T, T, A) -> bool, arg: A)
    ensures SortBy(p + [e], leq, arg) == Insert(e, SortBy(p, leq, arg), leq, arg)
  {
    assert (p + [e])[..|p|] == p;
  }

  /** Stability: the elements tied with any `x` come out in the order they went in. */
  lemma {:induction false} SortByStable<T(!new), A>(xs: seq<T>, x: T, leq: (T, T, A) -> bool, arg: A)
    requires TotalPreorder(leq, arg)
    ensures Ties(SortBy(xs, leq, arg), x, leq, arg) == Ties(xs, x, leq, arg)
  {
    if xs != [] {
      var p, e := xs[..|xs| - 1], xs[|xs| - 1];
      var q := SortBy(p, leq, arg);
      assert xs == p + [e];
      SortByStable(p, x, leq, arg);
      SortBySorted(p, leq, arg);
      InsertTies(e, q, x, leq, arg);
      SortBySnoc(p, e, leq, arg);
      TiesAppend(p, [e], x, leq, arg);
      TiesSingle(e, x, leq, arg);
    }
  }

  /** A comparator that ties everything (a `return 0` comparator) leaves the input order unchanged. */
  lemma {:induction false} SortByAllTied<T(!new), A>(xs: seq<T>, leq: (T, T, A) -> bool, arg: A)
    requires forall x, y :: leq(x, y, arg)
    ensures SortBy(xs, leq, arg) == xs
  {
    if xs != [] {
      var p, e := xs[..|xs| - 1], xs[|xs| - 1];
      SortByAllTied(p, leq, arg);
      InsertAtEnd(e, p, leq, arg);
      assert xs == p + [e];
    }
  }

  lemma {:induction false} InsertAtEnd<T, A>(e: T, s: seq<T>, leq: (T, T, A) -> bool, arg: A)
    requires forall i :: 0 <= i < |s| ==> leq(s[i], e, arg)
    ensures Insert(e, s, leq, arg) == s + [e]
  {
    if s != [] {
      InsertAtEnd(e, s[1..], leq, arg);
      assert s == [s[0]] + s[1..];
    }
  }
}
