/** Sequence folds used by every page and handler: `filter`, `reduce` sums and sorting by a key. */
module Seqs {

  /** `a` is obtained from `b` by deleting elements (an order-preserving selection). */
  predicate IsSubsequence<T(==,!new)>(a: seq<T>, b: seq<T>)
    decreases |b|
  {
    if a == [] then true
    else if b == [] then false
    else if a[0] == b[0] then IsSubsequence(a[1..], b[1..])
    else IsSubsequence(a, b[1..])
  }

  /** Array.prototype.filter: the elements satisfying `p`, in their original order. */
  function Filter<T(==,!new)>(s: seq<T>, p: T -> bool): (r: seq<T>)
    ensures |r| <= |s|
    ensures forall x :: x in r <==> x in s && p(x)
    decreases |s|
  {
    if s == [] then []
    else if p(s[0]) then [s[0]] + Filter(s[1..], p)
    else Filter(s[1..], p)
  }

  /** A filter keeps the order of the elements it keeps. */
  lemma {:induction false} FilterIsSubsequence<T(!new)>(s: seq<T>, p: T -> bool)
    ensures IsSubsequence(Filter(s, p), s)
    decreases |s|
  {
    if s != [] {
      FilterIsSubsequence(s[1..], p);
    }
  }

  lemma {:induction false} FilterAppend<T(!new)>(a: seq<T>, b: seq<T>, p: T -> bool)
    ensures Filter(a + b, p) == Filter(a, p) + Filter(b, p)
    decreases |a|
  {
    if a == [] {
      assert a + b == b;
    } else {
      assert (a + b)[1..] == a[1..] + b;
      FilterAppend(a[1..], b, p);
    }
  }

  /** Two successive filters are one filter by the conjunction. */
  lemma {:induction false} FilterFilter<T(!new)>(s: seq<T>, p: T -> bool, q: T -> bool, pq: T -> bool)
    requires forall x :: pq(x) == (p(x) && q(x))
    ensures Filter(Filter(s, p), q) == Filter(s, pq)
    decreases |s|
  {
    if s != [] {
      FilterFilter(s[1..], p, q, pq);
    }
  }

  /** Filters by predicates that agree everywhere give the same result. */
  lemma {:induction false} FilterExt<T(!new)>(s: seq<T>, p: T -> bool, q: T -> bool)
    requires forall x :: p(x) == q(x)
    ensures Filter(s, p) == Filter(s, q)
    decreases |s|
  {
    if s != [] {
      FilterExt(s[1..], p, q);
    }
  }

  /** A filter of a three-element sequence, written out. */
  lemma FilterThree<T(!new)>(a: T, b: T, c: T, p: T -> bool)
    ensures Filter([a, b, c], p) == (if p(a) then [a] else []) + (if p(b) then [b] else []) + (if p(c) then [c] else [])
  {
    assert [a, b, c][1..] == [b, c];
    assert Filter([b, c], p) == (if p(b) then [b] else []) + Filter([c], p) by {
      assert [b, c][1..] == [c];
    }
    assert Filter([c], p) == (if p(c) then [c] else []) by {
      assert [c][1..] == [];
    }
  }

  /** A filter whose predicate holds everywhere keeps everything. */
  lemma {:induction false} FilterAll<T(!new)>(s: seq<T>, p: T -> bool)
    requires forall x :: x in s ==> p(x)
    ensures Filter(s, p) == s
    decreases |s|
  {
    if s != [] {
      FilterAll(s[1..], p);
    }
  }

  /** Array.prototype.reduce((sum, x) => sum + f(x), 0): a left fold. */
  function Sum<T>(s: seq<T>, f: T -> real): real
    decreases |s|
  {
    if s == [] then 0.0 else Sum(s[..|s| - 1], f) + f(s[|s| - 1])
  }

  lemma {:induction false} SumAppend<T>(a: seq<T>, b: seq<T>, f: T -> real)
    ensures Sum(a + b, f) == Sum(a, f) + Sum(b, f)
    decreases |b|
  {
    if b == [] {
      assert a + b == a;
    } else {
      assert (a + b)[..|a + b| - 1] == a + b[..|b| - 1];
      SumAppend(a, b[..|b| - 1], f);
    }
  }

  lemma SumCons<T>(x: T, s: seq<T>, f: T -> real)
    ensures Sum([x] + s, f) == f(x) + Sum(s, f)
  {
    SumAppend([x], s, f);
    assert [x][..0] == [];
  }

  lemma {:induction false} SumNonNegative<T>(s: seq<T>, f: T -> real)
    requires forall i :: 0 <= i < |s| ==> f(s[i]) >= 0.0
    ensures Sum(s, f) >= 0.0
    decreases |s|
  {
    if s != [] {
      SumNonNegative(s[..|s| - 1], f);
    }
  }

  /** A fold of `f + g` is the sum of the two folds. */
  lemma {:induction false} SumAdd<T>(s: seq<T>, f: T -> real, g: T -> real, fg: T -> real)
    requires forall x :: fg(x) == f(x) + g(x)
    ensures Sum(s, fg) == Sum(s, f) + Sum(s, g)
    decreases |s|
  {
    if s != [] {
      SumAdd(s[..|s| - 1], f, g, fg);
    }
  }

  /** Folds of two functions that agree on the elements are equal. */
  lemma {:induction false} SumPointwise<T>(s: seq<T>, f: T -> real, g: T -> real)
    requires forall i :: 0 <= i < |s| ==> f(s[i]) == g(s[i])
    ensures Sum(s, f) == Sum(s, g)
    decreases |s|
  {
    if s != [] {
      SumPointwise(s[..|s| - 1], f, g);
    }
  }

  /** Folds of two sequences that agree position by position are equal. */
  lemma {:induction false} SumCorresponding<T, U>(a: seq<T>, b: seq<U>, f: T -> real, g: U -> real)
    requires |a| == |b|
    requires forall i :: 0 <= i < |a| ==> f(a[i]) == g(b[i])
    ensures Sum(a, f) == Sum(b, g)
    decreases |a|
  {
    if a != [] {
      SumCorresponding(a[..|a| - 1], b[..|b| - 1], f, g);
    }
  }

  /** Taking out the element at `k`, as a multiset. */
  lemma MultisetRemoveAt<T>(b: seq<T>, k: int)
    requires 0 <= k < |b|
    ensures multiset(b[..k] + b[k + 1..]) == multiset(b) - multiset{b[k]}
  {
    assert b == b[..k] + [b[k]] + b[k + 1..];
  }

  /** Taking out the element at `k`, in a fold. */
  lemma SumRemoveAt<T>(b: seq<T>, k: int, f: T -> real)
    requires 0 <= k < |b|
    ensures Sum(b, f) == Sum(b[..k] + b[k + 1..], f) + f(b[k])
  {
    var pre, x, post := b[..k], b[k], b[k + 1..];
    assert b == (pre + [x]) + post;
    SumAppend(pre + [x], post, f);
    assert Sum(pre + [x], f) == Sum(pre, f) + f(x) by {
      assert (pre + [x])[..|pre + [x]| - 1] == pre;
    }
    SumAppend(pre, post, f);
  }

  /** A fold does not depend on the order of the elements. */
  lemma {:induction false} SumPermutation<T>(a: seq<T>, b: seq<T>, f: T -> real)
    requires multiset(a) == multiset(b)
    ensures Sum(a, f) == Sum(b, f)
    decreases |a|
  {
    if a == [] {
      assert |multiset(b)| == 0;
    } else {
      var x := a[|a| - 1];
      var init := a[..|a| - 1];
      assert a == init + [x];
      assert multiset(init) == multiset(a) - multiset{x};
      assert x in multiset(b);
      var k :| 0 <= k < |b| && b[k] == x;
      MultisetRemoveAt(b, k);
      SumRemoveAt(b, k, f);
      SumPermutation(init, b[..k] + b[k + 1..], f);
    }
  }

  lemma SumThree<T>(a: T, b: T, c: T, f: T -> real)
    ensures Sum([a, b, c], f) == f(a) + f(b) + f(c)
  {
    assert Sum([a], f) == f(a) by {
      assert [a][..0] == [];
    }
    assert Sum([a, b], f) == f(a) + f(b) by {
      assert [a, b][..1] == [a];
    }
    assert [a, b, c][..2] == [a, b];
  }

  /** Raising the value of one element that occurs once raises the fold by the same amount. */
  lemma {:induction false} SumBump<T(!new)>(s: seq<T>, f: T -> real, g: T -> real, k: T, d: real)
    requires Distinct(s) && k in s
    requires forall i :: 0 <= i < |s| ==> g(s[i]) == f(s[i]) + (if s[i] == k then d else 0.0)
    ensures Sum(s, g) == Sum(s, f) + d
    decreases |s|
  {
    var init := s[..|s| - 1];
    if s[|s| - 1] == k {
      assert k !in init;
      SumPointwise(init, f, g);
    } else {
      assert k in init;
      SumBump(init, f, g, k, d);
    }
  }

  /** Over non-negative values, a filter by a weaker predicate sums to at least as much. */
  lemma {:induction false} SumFilterMonotone<T(!new)>(s: seq<T>, p: T -> bool, q: T -> bool, f: T -> real)
    requires forall x :: x in s ==> f(x) >= 0.0
    requires forall x :: p(x) ==> q(x)
    ensures Sum(Filter(s, p), f) <= Sum(Filter(s, q), f)
    decreases |s|
  {
    if s != [] {
      SumFilterMonotone(s[1..], p, q, f);
      if p(s[0]) {
        SumCons(s[0], Filter(s[1..], p), f);
        SumCons(s[0], Filter(s[1..], q), f);
      } else if q(s[0]) {
        SumCons(s[0], Filter(s[1..], q), f);
      }
    }
  }

  /** Elements are pairwise different. */
  predicate Distinct<T(==,!new)>(s: seq<T>) {
    forall i, j :: 0 <= i < j < |s| ==> s[i] != s[j]
  }

  predicate SortedByKey<T>(s: seq<T>, key: T -> int) {
    forall i, j :: 0 <= i < j < |s| ==> key(s[i]) <= key(s[j])
  }

  predicate StrictlySortedByKey<T>(s: seq<T>, key: T -> int) {
    forall i, j :: 0 <= i < j < |s| ==> key(s[i]) < key(s[j])
  }

  /** No two elements share a key. */
  predicate DistinctKeys<T>(s: seq<T>, key: T -> int) {
    forall i, j :: 0 <= i < j < |s| ==> key(s[i]) != key(s[j])
  }

  function InsertByKey<T(==,!new)>(x: T, s: seq<T>, key: T -> int): (r: seq<T>)
    requires SortedByKey(s, key)
    ensures SortedByKey(r, key)
    ensures multiset(r) == multiset(s) + multiset{x}
    ensures forall y :: y in r <==> y in s || y == x
    decreases |s|
  {
    if s == [] then [x]
    else if key(x) <= key(s[0]) then [x] + s
    else
      var rest := InsertByKey(x, s[1..], key);
      InsertByKeyStep(s, x, rest, key);
      [s[0]] + rest
  }

  lemma InsertByKeyStep<T(!new)>(s: seq<T>, x: T, rest: seq<T>, key: T -> int)
    requires s != [] && SortedByKey(s, key) && key(s[0]) < key(x)
    requires SortedByKey(rest, key)
    requires multiset(rest) == multiset(s[1..]) + multiset{x}
    requires forall y :: y in rest <==> y in s[1..] || y == x
    ensures SortedByKey([s[0]] + rest, key)
    ensures multiset([s[0]] + rest) == multiset(s) + multiset{x}
  {
    assert s == [s[0]] + s[1..];
    var r := [s[0]] + rest;
    forall i, j | 0 <= i < j < |r| ensures key(r[i]) <= key(r[j]) {
      if i == 0 {
        assert r[j] in rest;
      } else {
        assert r[i] == rest[i - 1] && r[j] == rest[j - 1];
      }
    }
  }

  /** Inserting an element whose key is new keeps a strictly sorted sequence strictly sorted. */
  lemma {:induction false} InsertByKeyStrict<T(!new)>(x: T, s: seq<T>, key: T -> int)
    requires StrictlySortedByKey(s, key)
    requires forall y :: y in s ==> key(y) != key(x)
    ensures StrictlySortedByKey(InsertByKey(x, s, key), key)
    decreases |s|
  {
    if s != [] && key(x) > key(s[0]) {
      InsertByKeyStrict(x, s[1..], key);
      var rest := InsertByKey(x, s[1..], key);
      assert forall y :: y in rest ==> key(s[0]) < key(y);
      assert InsertByKey(x, s, key) == [s[0]] + rest;
    }
  }

  /** A stable sort by `key`, ascending (insertion sort). */
  function SortByKey<T(==,!new)>(s: seq<T>, key: T -> int): (r: seq<T>)
    ensures SortedByKey(r, key)
    ensures multiset(r) == multiset(s)
    ensures |r| == |s|
    ensures forall y :: y in r <==> y in s
    decreases |s|
  {
    if s == [] then []
    else
      assert s == [s[0]] + s[1..];
      InsertByKey(s[0], SortByKey(s[1..], key), key)
  }

  /** Sorting elements whose keys are pairwise different gives a strictly increasing sequence. */
  lemma {:induction false} SortByKeyStrict<T(!new)>(s: seq<T>, key: T -> int)
    requires DistinctKeys(s, key)
    ensures StrictlySortedByKey(SortByKey(s, key), key)
    decreases |s|
  {
    if s != [] {
      assert DistinctKeys(s[1..], key);
      SortByKeyStrict(s[1..], key);
      var rest := SortByKey(s[1..], key);
      forall y | y in rest ensures key(y) != key(s[0]) {
        var k :| 1 <= k < |s| && s[k] == y;
      }
      InsertByKeyStrict(s[0], rest, key);
    }
  }

  lemma {:induction false} SumInsertByKey<T(!new)>(x: T, s: seq<T>, key: T -> int, f: T -> real)
    requires SortedByKey(s, key)
    ensures Sum(InsertByKey(x, s, key), f) == f(x) + Sum(s, f)
    decreases |s|
  {
    if s == [] {
      SumCons(x, s, f);
    } else if key(x) <= key(s[0]) {
      SumCons(x, s, f);
    } else {
      SumInsertByKey(x, s[1..], key, f);
      SumCons(s[0], InsertByKey(x, s[1..], key), f);
      SumCons(s[0], s[1..], f);
      assert s == [s[0]] + s[1..];
    }
  }

  /** Sorting does not change a sum. */
  lemma {:induction false} SumSortByKey<T(!new)>(s: seq<T>, key: T -> int, f: T -> real)
    ensures Sum(SortByKey(s, key), f) == Sum(s, f)
    decreases |s|
  {
    if s != [] {
      SumSortByKey(s[1..], key, f);
      SumInsertByKey(s[0], SortByKey(s[1..], key), key, f);
      SumCons(s[0], s[1..], f);
      assert s == [s[0]] + s[1..];
    }
  }
}
