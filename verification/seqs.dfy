/** Order-preserving sequence combinators: the `filter`, `map` and `distinct`
    steps of Java streams, each collected with `toList()`. */
module Seqs {

  /** `a` is `b` with some elements dropped and the rest kept in order. */
  predicate IsSubsequence<T(==)>(a: seq<T>, b: seq<T>)
    decreases |b|
  {
    if a == [] then true
    else if b == [] then false
    else if a[0] == b[0] then IsSubsequence(a[1..], b[1..])
    else IsSubsequence(a, b[1..])
  }

  predicate NoDuplicates<T(==)>(xs: seq<T>) {
    forall i, j :: 0 <= i < j < |xs| ==> xs[i] != xs[j]
  }

  /** Index of the first occurrence of `x` in `xs` (Java's `List.indexOf`),
      `|xs|` when there is none. */
  function IndexOf<T(==)>(xs: seq<T>, x: T): (r: nat)
    ensures r <= |xs|
    ensures r < |xs| <==> x in xs
    ensures r < |xs| ==> xs[r] == x
    ensures forall j :: 0 <= j < r ==> xs[j] != x
  {
    if xs == [] then 0
    else if xs[0] == x then 0
    else 1 + IndexOf(xs[1..], x)
  }

  /** `stream().filter(keep)`: every element `keep` accepts, as many times
      as it occurs, in the original order. */
  function Filter<T(!new)>(xs: seq<T>, keep: T -> bool): (r: seq<T>)
    ensures |r| <= |xs|
    ensures forall x :: x in r <==> x in xs && keep(x)
  {
    if xs == [] then []
    else
      assert xs == [xs[0]] + xs[1..];
      (if keep(xs[0]) then [xs[0]] else []) + Filter(xs[1..], keep)
  }

  /** `stream().map(f)`. */
  function Map<T, U>(xs: seq<T>, f: T -> U): (r: seq<U>)
    ensures |r| == |xs|
    ensures forall i :: 0 <= i < |xs| ==> r[i] == f(xs[i])
  {
    seq(|xs|, i requires 0 <= i < |xs| => f(xs[i]))
  }

  /** `stream().distinct()`: the first occurrence of every element, in the
      order of first occurrence. */
  function Distinct<T(==,!new)>(xs: seq<T>): (r: seq<T>)
    ensures NoDuplicates(r)
    ensures forall x :: x in r <==> x in xs
  {
    if xs == [] then []
    else
      var d := Distinct(xs[..|xs| - 1]);
      var last := xs[|xs| - 1];
      assert xs == xs[..|xs| - 1] + [last];
      if last in d then d else d + [last]
  }

  lemma {:induction false} SubsequenceOfEmpty<T>(b: seq<T>)
    ensures IsSubsequence([], b)
  {
  }

  lemma {:induction false} SubsequenceElements<T>(a: seq<T>, b: seq<T>)
    requires IsSubsequence(a, b)
    ensures forall x :: x in a ==> x in b
    decreases |b|
  {
    if a == [] {
    } else if b == [] {
    } else if a[0] == b[0] {
      SubsequenceElements(a[1..], b[1..]);
      assert a == [a[0]] + a[1..];
    } else {
      SubsequenceElements(a, b[1..]);
    }
  }

  lemma {:induction false} SubsequenceReflexive<T>(a: seq<T>)
    ensures IsSubsequence(a, a)
    decreases |a|
  {
    if a != [] {
      SubsequenceReflexive(a[1..]);
    }
  }

  /** Prepending the same element to both sides keeps the relation. */
  lemma {:induction false} SubsequenceCons<T>(x: T, a: seq<T>, b: seq<T>)
    requires IsSubsequence(a, b)
    ensures IsSubsequence([x] + a, [x] + b)
  {
    assert ([x] + a)[1..] == a;
    assert ([x] + b)[1..] == b;
  }

  /** Prepending an element to the larger side keeps the relation. */
  lemma {:induction false} SubsequenceSkip<T>(x: T, a: seq<T>, b: seq<T>)
    requires IsSubsequence(a, b)
    ensures IsSubsequence(a, [x] + b)
    decreases |b|, 1
  {
    assert ([x] + b)[1..] == b;
    if a != [] && a[0] == x {
      // The greedy match pairs `x` with `a[0]`, so the tail must fit in `b`.
      SubsequenceTailWeaken(a, b);
    }
  }

  /** Dropping the head of the smaller side keeps the relation. */
  lemma {:induction false} SubsequenceTailWeaken<T>(a: seq<T>, b: seq<T>)
    requires a != []
    requires IsSubsequence(a, b)
    ensures IsSubsequence(a[1..], b)
    decreases |b|, 0
  {
    assert [b[0]] + b[1..] == b;
    if a[0] == b[0] {
      SubsequenceSkip(b[0], a[1..], b[1..]);
    } else {
      SubsequenceTailWeaken(a, b[1..]);
      SubsequenceSkip(b[0], a[1..], b[1..]);
    }
  }

  lemma {:induction false} SubsequenceTransitive<T>(a: seq<T>, b: seq<T>, c: seq<T>)
    requires IsSubsequence(a, b) && IsSubsequence(b, c)
    ensures IsSubsequence(a, c)
    decreases |c|
  {
    if a == [] {
    } else if b[0] == c[0] {
      if a[0] == b[0] {
        SubsequenceTransitive(a[1..], b[1..], c[1..]);
      } else {
        SubsequenceTransitive(a, b[1..], c[1..]);
        SubsequenceSkip(c[0], a, c[1..]);
        assert [c[0]] + c[1..] == c;
      }
    } else {
      SubsequenceTransitive(a, b, c[1..]);
      SubsequenceSkip(c[0], a, c[1..]);
      assert [c[0]] + c[1..] == c;
    }
  }

  /** A filter keeps order: its result is a subsequence of its input. */
  lemma {:induction false} FilterIsSubsequence<T(!new)>(xs: seq<T>, keep: T -> bool)
    ensures IsSubsequence(Filter(xs, keep), xs)
    decreases |xs|
  {
    if xs != [] {
      var rest := Filter(xs[1..], keep);
      FilterIsSubsequence(xs[1..], keep);
      if keep(xs[0]) {
        assert Filter(xs, keep) == [xs[0]] + rest;
        SubsequenceCons(xs[0], rest, xs[1..]);
      } else {
        assert Filter(xs, keep) == rest;
        SubsequenceSkip(xs[0], rest, xs[1..]);
      }
      assert [xs[0]] + xs[1..] == xs;
    }
  }

  /** A filter that accepts every element is the identity. */
  lemma {:induction false} FilterKeepsAll<T(!new)>(xs: seq<T>, keep: T -> bool)
    requires forall i :: 0 <= i < |xs| ==> keep(xs[i])
    ensures Filter(xs, keep) == xs
    decreases |xs|
  {
    if xs != [] {
      FilterKeepsAll(xs[1..], keep);
      assert [xs[0]] + xs[1..] == xs;
    }
  }

  /** A filter depends only on the verdicts on the elements present. */
  lemma {:induction false} FilterCongruent<T(!new)>(xs: seq<T>, p: T -> bool, q: T -> bool)
    requires forall i :: 0 <= i < |xs| ==> p(xs[i]) == q(xs[i])
    ensures Filter(xs, p) == Filter(xs, q)
    decreases |xs|
  {
    if xs != [] {
      FilterCongruent(xs[1..], p, q);
    }
  }

  /** A stricter filter keeps a subsequence of what a looser one keeps. */
  lemma {:induction false} FilterMonotone<T(!new)>(xs: seq<T>, p: T -> bool, q: T -> bool)
    requires forall i :: 0 <= i < |xs| && p(xs[i]) ==> q(xs[i])
    ensures IsSubsequence(Filter(xs, p), Filter(xs, q))
    decreases |xs|
  {
    if xs != [] {
      var a, b := Filter(xs[1..], p), Filter(xs[1..], q);
      FilterMonotone(xs[1..], p, q);
      if p(xs[0]) {
        assert Filter(xs, p) == [xs[0]] + a;
        assert Filter(xs, q) == [xs[0]] + b;
        SubsequenceCons(xs[0], a, b);
      } else if q(xs[0]) {
        assert Filter(xs, p) == a;
        assert Filter(xs, q) == [xs[0]] + b;
        SubsequenceSkip(xs[0], a, b);
      } else {
        assert Filter(xs, p) == a;
        assert Filter(xs, q) == b;
      }
    }
  }

  /** Mapping keeps the subsequence relation. */
  lemma {:induction false} MapSubsequence<T, U>(a: seq<T>, b: seq<T>, f: T -> U)
    requires IsSubsequence(a, b)
    ensures IsSubsequence(Map(a, f), Map(b, f))
    decreases |b|
  {
    if a == [] {
    } else if b == [] {
    } else {
      assert Map(a, f)[1..] == Map(a[1..], f);
      assert Map(b, f)[1..] == Map(b[1..], f);
      if a[0] == b[0] {
        MapSubsequence(a[1..], b[1..], f);
      } else {
        MapSubsequence(a, b[1..], f);
        if f(a[0]) == f(b[0]) {
          // Matching the heads instead is equally good.
          SubsequenceTailWeaken(Map(a, f), Map(b[1..], f));
          assert Map(a, f)[0] == Map(b, f)[0];
        }
      }
    }
  }

  /** Every element of `Distinct(xs)` is listed in the order in which it
      first occurs in `xs`. */
  lemma {:induction false} DistinctFirstSeenOrder<T(!new)>(xs: seq<T>)
    ensures forall i, j :: 0 <= i < j < |Distinct(xs)| ==>
      IndexOf(xs, Distinct(xs)[i]) < IndexOf(xs, Distinct(xs)[j])
    decreases |xs|
  {
    if xs != [] {
      var pre := xs[..|xs| - 1];
      var last := xs[|xs| - 1];
      var d := Distinct(pre);
      DistinctFirstSeenOrder(pre);
      assert xs == pre + [last];
      forall y | y in pre
        ensures IndexOf(xs, y) == IndexOf(pre, y)
      {
        IndexOfPrefix(pre, last, y);
      }
      if last !in d {
        assert last !in pre;
        IndexOfAppendedNew(pre, last);
        var r := d + [last];
        forall i, j | 0 <= i < j < |r|
          ensures IndexOf(xs, r[i]) < IndexOf(xs, r[j])
        {
          assert r[i] in d;
          assert r[i] in pre;
          if j < |d| {
            assert r[j] in pre;
          }
        }
      } else {
        forall i, j | 0 <= i < j < |d|
          ensures IndexOf(xs, d[i]) < IndexOf(xs, d[j])
        {
          assert d[i] in pre && d[j] in pre;
        }
      }
    }
  }

  /** `Distinct` keeps order: its result is a subsequence of its input. */
  lemma {:induction false} DistinctIsSubsequence<T(!new)>(xs: seq<T>)
    ensures IsSubsequence(Distinct(xs), xs)
    decreases |xs|
  {
    if xs != [] {
      var pre := xs[..|xs| - 1];
      var last := xs[|xs| - 1];
      DistinctIsSubsequence(pre);
      assert xs == pre + [last];
      SubsequenceAppend(Distinct(pre), pre, last);
    }
  }

  lemma {:induction false} SubsequenceAppend<T>(a: seq<T>, b: seq<T>, x: T)
    requires IsSubsequence(a, b)
    ensures IsSubsequence(a, b + [x]) && IsSubsequence(a + [x], b + [x])
    decreases |b|
  {
    if b == [] {
      assert a == [];
      assert [x][1..] == [];
    } else {
      assert (b + [x])[1..] == b[1..] + [x];
      if a == [] {
        SubsequenceAppend(a, b[1..], x);
        assert [x] == [] + [x];
        SubsequenceSkip(b[0], [x], b[1..] + [x]);
        assert [b[0]] + (b[1..] + [x]) == b + [x];
      } else if a[0] == b[0] {
        SubsequenceAppend(a[1..], b[1..], x);
        assert (a + [x])[1..] == a[1..] + [x];
      } else {
        SubsequenceAppend(a, b[1..], x);
      }
    }
  }

  lemma {:induction false} IndexOfPrefix<T>(pre: seq<T>, last: T, y: T)
    requires y in pre
    ensures IndexOf(pre + [last], y) == IndexOf(pre, y)
    decreases |pre|
  {
    if pre[0] != y {
      assert (pre + [last])[1..] == pre[1..] + [last];
      IndexOfPrefix(pre[1..], last, y);
    }
  }

  lemma {:induction false} IndexOfAppendedNew<T>(pre: seq<T>, last: T)
    requires last !in pre
    ensures IndexOf(pre + [last], last) == |pre|
    decreases |pre|
  {
    if pre != [] {
      assert (pre + [last])[1..] == pre[1..] + [last];
      IndexOfAppendedNew(pre[1..], last);
    }
  }

  /** Appending one element extends the filter's result by that element
      exactly when it is kept: the filter keeps order and duplicates. */
  lemma {:induction false} FilterAppend<T(!new)>(xs: seq<T>, x: T, keep: T -> bool)
    ensures Filter(xs + [x], keep) == Filter(xs, keep) + (if keep(x) then [x] else [])
    decreases |xs|
  {
    var tail: seq<T> := if keep(x) then [x] else [];
    if xs == [] {
      assert xs + [x] == [x];
      assert Filter([x], keep) == tail + Filter([x][1..], keep);
      assert [x][1..] == [];
    } else {
      var ys := xs + [x];
      var head: seq<T> := if keep(xs[0]) then [xs[0]] else [];
      assert ys[0] == xs[0];
      assert ys[1..] == xs[1..] + [x];
      FilterAppend(xs[1..], x, keep);
      calc {
        Filter(ys, keep);
        head + Filter(xs[1..] + [x], keep);
        head + (Filter(xs[1..], keep) + tail);
        (head + Filter(xs[1..], keep)) + tail;
        Filter(xs, keep) + tail;
      }
    }
  }

  lemma MapAppend<T, U>(xs: seq<T>, x: T, f: T -> U)
    ensures Map(xs + [x], f) == Map(xs, f) + [f(x)]
  {
  }

  /** A filter keeps every accepted element as many times as it occurs and
      drops every rejected one entirely. */
  lemma {:induction false} FilterCounts<T(!new)>(xs: seq<T>, keep: T -> bool)
    ensures forall x :: multiset(Filter(xs, keep))[x] == if keep(x) then multiset(xs)[x] else 0
    decreases |xs|
  {
    if xs != [] {
      FilterCounts(xs[1..], keep);
      assert xs == [xs[0]] + xs[1..];
      assert multiset(xs) == multiset{xs[0]} + multiset(xs[1..]);
      var head: seq<T> := if keep(xs[0]) then [xs[0]] else [];
      assert Filter(xs, keep) == head + Filter(xs[1..], keep);
      assert multiset(Filter(xs, keep)) == multiset(head) + multiset(Filter(xs[1..], keep));
    }
  }

  /** `filter` on a list of three, spelled out. */
  lemma FilterThree<T(!new)>(a: T, b: T, c: T, keep: T -> bool)
    ensures Filter([a, b, c], keep) ==
      (if keep(a) then [a] else []) + (if keep(b) then [b] else []) + (if keep(c) then [c] else [])
  {
    var ka: seq<T> := if keep(a) then [a] else [];
    var kb: seq<T> := if keep(b) then [b] else [];
    var kc: seq<T> := if keep(c) then [c] else [];
    assert Filter([c], keep) == kc by {
      assert [c][1..] == [];
    }
    assert Filter([b, c], keep) == kb + kc by {
      assert [b, c][1..] == [c];
    }
    assert [a, b, c][1..] == [b, c];
    assert ka + (kb + kc) == ka + kb + kc;
  }

  /** `distinct` drops the repeat in `x, x, y`. */
  lemma DistinctThree<T(!new)>(x: T, y: T)
    requires x != y
    ensures Distinct([x, x, y]) == [x, y]
  {
    var s1, s2, s3 := [x], [x, x], [x, x, y];
    assert s1[..0] == [] && s2[..1] == s1 && s3[..2] == s2;
    assert Distinct(s1) == [x];
    assert Distinct(s2) == [x];
  }

  /** `filter`, `map`, `distinct` over three accepted elements whose first
      two map to the same value. */
  lemma PipelineThree<T(!new), U(!new)>(a: T, b: T, c: T, keep: T -> bool, f: T -> U)
    requires keep(a) && keep(b) && keep(c) && f(a) == f(b) && f(a) != f(c)
    ensures Distinct(Map(Filter([a, b, c], keep), f)) == [f(a), f(c)]
  {
    assert Filter([a, b, c], keep) == [a, b, c] by {
      FilterThree(a, b, c, keep);
      assert [a] + [b] + [c] == [a, b, c];
    }
    assert Map([a, b, c], f) == [f(a), f(a), f(c)];
    DistinctThree(f(a), f(c));
  }
}
