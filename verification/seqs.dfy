/**
  The array operations the pages use, on immutable sequences: `filter`,
  `slice(0, n)`, a sum `reduce`, and the stable `sort` with a comparator.
 */
module Seqs {

  function Min(a: int, b: int): int {
    if a <= b then a else b
  }

  /** `xs.filter(p)`: the elements satisfying `p`, in their original order. */
  function Filter<T>(xs: seq<T>, p: T -> bool): (r: seq<T>)
    ensures |r| <= |xs|
    ensures forall i :: 0 <= i < |r| ==> p(r[i]) && r[i] in xs
    ensures forall i :: 0 <= i < |xs| && p(xs[i]) ==> xs[i] in r
  {
    if |xs| == 0 then []
    else
      var rest := Filter(xs[1..], p);
      assert xs == [xs[0]] + xs[1..];
      if p(xs[0]) then [xs[0]] + rest else rest
  }

  /** A filter keeps something exactly when some element passes. */
  lemma FilterNonEmptyIff<T>(xs: seq<T>, p: T -> bool)
    ensures |Filter(xs, p)| > 0 <==> exists i :: 0 <= i < |xs| && p(xs[i])
  {
    var r := Filter(xs, p);
    if |r| > 0 {
      var i :| 0 <= i < |xs| && xs[i] == r[0];
    }
  }

  /** Filtering never adds an element, nor another copy of one. */
  lemma {:induction false} FilterSubMultiset<T>(xs: seq<T>, p: T -> bool)
    ensures multiset(Filter(xs, p)) <= multiset(xs)
  {
    if |xs| > 0 {
      FilterSubMultiset(xs[1..], p);
      assert xs == [xs[0]] + xs[1..];
      assert multiset(xs) == multiset([xs[0]]) + multiset(xs[1..]);
    }
  }

  /** Filtering a concatenation filters each part: the kept elements keep their order. */
  lemma {:induction false} FilterAppend<T>(a: seq<T>, b: seq<T>, p: T -> bool)
    ensures Filter(a + b, p) == Filter(a, p) + Filter(b, p)
  {
    if |a| == 0 {
      assert a + b == b;
    } else {
      var ab := a + b;
      assert ab[0] == a[0] && ab[1..] == a[1..] + b;
      FilterAppend(a[1..], b, p);
      var rest := Filter(a[1..], p);
      if p(a[0]) {
        assert Filter(ab, p) == [a[0]] + (rest + Filter(b, p));
        assert Filter(a, p) == [a[0]] + rest;
      } else {
        assert Filter(ab, p) == rest + Filter(b, p);
        assert Filter(a, p) == rest;
      }
    }
  }

  /** A filter that every element passes keeps the sequence as it is. */
  lemma {:induction false} FilterKeepsAll<T>(xs: seq<T>, p: T -> bool)
    requires forall i :: 0 <= i < |xs| ==> p(xs[i])
    ensures Filter(xs, p) == xs
  {
    if |xs| > 0 {
      FilterKeepsAll(xs[1..], p);
    }
  }

  /** A filter that no element passes leaves nothing. */
  lemma {:induction false} FilterDropsAll<T>(xs: seq<T>, p: T -> bool)
    requires forall i :: 0 <= i < |xs| ==> !p(xs[i])
    ensures Filter(xs, p) == []
  {
    if |xs| > 0 {
      FilterDropsAll(xs[1..], p);
    }
  }

  /** How many elements satisfy `p`, counted one by one. */
  function CountIf<T>(xs: seq<T>, p: T -> bool): nat {
    if |xs| == 0 then 0 else (if p(xs[0]) then 1 else 0) + CountIf(xs[1..], p)
  }

  /** `xs.filter(p).length` is the number of elements satisfying `p`. */
  lemma {:induction false} FilterCount<T>(xs: seq<T>, p: T -> bool)
    ensures |Filter(xs, p)| == CountIf(xs, p)
  {
    if |xs| > 0 {
      FilterCount(xs[1..], p);
    }
  }

  /** `xs.slice(0, n)` for a non-negative `n`. */
  function Take<T>(xs: seq<T>, n: nat): (r: seq<T>)
    ensures |r| == Min(n, |xs|)
    ensures forall i :: 0 <= i < |r| ==> r[i] == xs[i]
  {
    if n <= |xs| then xs[..n] else xs
  }

  /** `xs.reduce((sum, x) => sum + x, 0)`. */
  function Sum(xs: seq<int>): int {
    if |xs| == 0 then 0 else xs[0] + Sum(xs[1..])
  }

  lemma {:induction false} SumAppend(a: seq<int>, b: seq<int>)
    ensures Sum(a + b) == Sum(a) + Sum(b)
  {
    if |a| == 0 {
      assert a + b == b;
    } else {
      assert (a + b)[1..] == a[1..] + b;
      SumAppend(a[1..], b);
    }
  }

  /** `le` is total and transitive: a comparator that never reports
      inconsistent answers. */
  ghost predicate TotalPreorder<T(!new)>(le: (T, T) -> bool) {
    && (forall a, b :: le(a, b) || le(b, a))
    && (forall a, b, c :: le(a, b) && le(b, c) ==> le(a, c))
  }

  /** Every element comes no later under `le` than every element after it. */
  ghost predicate Sorted<T>(xs: seq<T>, le: (T, T) -> bool) {
    forall i, j :: 0 <= i < j < |xs| ==> le(xs[i], xs[j])
  }

  /** Places `x` in front of the first element it may precede; `x` stays
      ahead of the elements it ties with. */
  function Insert<T>(x: T, xs: seq<T>, le: (T, T) -> bool): (r: seq<T>)
    ensures multiset(r) == multiset(xs) + multiset{x}
    ensures |r| == |xs| + 1
  {
    if |xs| == 0 then [x]
    else if le(x, xs[0]) then [x] + xs
    else
      assert xs == [xs[0]] + xs[1..];
      [xs[0]] + Insert(x, xs[1..], le)
  }

  /** The stable sort with comparator `le`: the head is inserted ahead of the
      tail's elements it ties with, so ties keep their original order. */
  function SortBy<T>(xs: seq<T>, le: (T, T) -> bool): (r: seq<T>)
    ensures multiset(r) == multiset(xs)
    ensures |r| == |xs|
  {
    if |xs| == 0 then []
    else
      assert xs == [xs[0]] + xs[1..];
      Insert(xs[0], SortBy(xs[1..], le), le)
  }

  lemma {:induction false} InsertSorted<T(!new)>(x: T, xs: seq<T>, le: (T, T) -> bool)
    requires TotalPreorder(le)
    requires Sorted(xs, le)
    ensures Sorted(Insert(x, xs, le), le)
  {
    if |xs| > 0 && !le(x, xs[0]) {
      var rest := Insert(x, xs[1..], le);
      InsertSorted(x, xs[1..], le);
      assert le(xs[0], x);
      forall j | 0 <= j < |rest|
        ensures le(xs[0], rest[j])
      {
        assert rest[j] in multiset(rest);
        if rest[j] != x {
          assert rest[j] in multiset(xs[1..]);
          var k :| 0 <= k < |xs[1..]| && xs[1..][k] == rest[j];
          assert rest[j] == xs[k + 1];
        }
      }
      assert Insert(x, xs, le) == [xs[0]] + rest;
    }
  }

  /** Under a consistent comparator the sort's output is ordered. */
  lemma {:induction false} SortBySorted<T(!new)>(xs: seq<T>, le: (T, T) -> bool)
    requires TotalPreorder(le)
    ensures Sorted(SortBy(xs, le), le)
  {
    if |xs| > 0 {
      SortBySorted(xs[1..], le);
      InsertSorted(xs[0], SortBy(xs[1..], le), le);
    }
  }

  /** An element that may precede everything after it stays in front. */
  lemma SortByLeastFirst<T>(x: T, xs: seq<T>, le: (T, T) -> bool)
    requires forall i :: 0 <= i < |xs| ==> le(x, xs[i])
    ensures SortBy([x] + xs, le) == [x] + SortBy(xs, le)
  {
    var s := [x] + xs;
    assert s[0] == x && s[1..] == xs;
    var sorted := SortBy(xs, le);
    if |sorted| > 0 {
      assert sorted[0] in multiset(xs);
      var k :| 0 <= k < |xs| && xs[k] == sorted[0];
    }
  }

  /** Filtering an ordered sequence leaves it ordered. */
  lemma {:induction false} FilterKeepsSorted<T>(xs: seq<T>, p: T -> bool, le: (T, T) -> bool)
    requires Sorted(xs, le)
    ensures Sorted(Filter(xs, p), le)
  {
    if |xs| > 0 {
      assert Sorted(xs[1..], le) by {
        forall i, j | 0 <= i < j < |xs[1..]|
          ensures le(xs[1..][i], xs[1..][j])
        {
          assert xs[1..][i] == xs[i + 1] && xs[1..][j] == xs[j + 1];
        }
      }
      FilterKeepsSorted(xs[1..], p, le);
      var rest := Filter(xs[1..], p);
      if p(xs[0]) {
        forall j | 0 <= j < |rest|
          ensures le(xs[0], rest[j])
        {
          var k :| 0 <= k < |xs[1..]| && xs[1..][k] == rest[j];
          assert xs[k + 1] == rest[j];
        }
        assert Filter(xs, p) == [xs[0]] + rest;
      }
    }
  }

  /** A rearrangement holds exactly the elements of the original. */
  lemma SameMembers<T>(r: seq<T>, xs: seq<T>)
    requires multiset(r) == multiset(xs)
    ensures forall x :: x in r <==> x in xs
  {
    forall x
      ensures x in r <==> x in xs
    {
      assert x in r <==> x in multiset(r);
      assert x in xs <==> x in multiset(xs);
    }
  }

}
