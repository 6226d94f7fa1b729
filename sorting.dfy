/**
 * `Array.prototype.sort` with a comparator, which ECMAScript requires to be stable. The
 * comparator is given as `after(a, b)`: the comparator's result for `a` and `b` is positive,
 * so `a` belongs after `b`. The sort is an insertion sort, proved stable by `SortStable`.
 */
module Sorting {
  import opened Seqs

  /** `x` placed at the end of `s`, then moved left past every element that belongs after it. */
  function Insert<T>(s: seq<T>, x: T, after: (T, T) -> bool): (r: seq<T>)
    ensures |r| == |s| + 1
    ensures multiset(r) == multiset(s) + multiset{x}
  {
    if s == [] then [x]
    else
      var n := |s| - 1;
      assert s == s[..n] + [s[n]];
      if after(s[n], x) then Insert(s[..n], x, after) + [s[n]] else s + [x]
  }

  /** The elements of `xs` in the comparator's order, equal elements in their original order. */
  function Sort<T>(xs: seq<T>, after: (T, T) -> bool): (r: seq<T>)
    ensures |r| == |xs|
    ensures multiset(r) == multiset(xs)
  {
    if xs == [] then []
    else
      var n := |xs| - 1;
      assert xs == xs[..n] + [xs[n]];
      Insert(Sort(xs[..n], after), xs[n], after)
  }

  /** No element of `s` belongs after an element further right. */
  predicate SortedBy<T>(s: seq<T>, after: (T, T) -> bool) {
    forall i, j :: 0 <= i < j < |s| ==> !after(s[i], s[j])
  }

  /**
   * On the elements of `dom` the comparator is consistent: it never puts two elements each
   * after the other, and "not after" is transitive.
   */
  predicate Consistent<T>(dom: multiset<T>, after: (T, T) -> bool) {
    && (forall a, b :: a in dom && b in dom && after(a, b) ==> !after(b, a))
    && (forall a, b, c :: a in dom && b in dom && c in dom && !after(a, b) && !after(b, c) ==> !after(a, c))
  }

  /** An element that belongs after none of a sorted sequence's elements can go at its end. */
  lemma AppendSorted<T>(s: seq<T>, x: T, after: (T, T) -> bool)
    requires SortedBy(s, after)
    requires forall i :: 0 <= i < |s| ==> !after(s[i], x)
    ensures SortedBy(s + [x], after)
  {
    forall i, j | 0 <= i < j < |s| + 1
      ensures !after((s + [x])[i], (s + [x])[j])
    {
      assert (s + [x])[i] == s[i];
      if j < |s| {
        assert (s + [x])[j] == s[j];
      }
    }
  }

  /** The first `n` elements of a sorted sequence are sorted. */
  lemma PrefixSorted<T>(s: seq<T>, n: nat, after: (T, T) -> bool)
    requires SortedBy(s, after) && n <= |s|
    ensures SortedBy(s[..n], after)
  {
    forall i, j | 0 <= i < j < n
      ensures !after(s[..n][i], s[..n][j])
    {
      assert s[..n][i] == s[i] && s[..n][j] == s[j];
    }
  }

  /** No element before the last one of a sorted sequence belongs after the last one. */
  lemma LastBound<T>(prefix: seq<T>, last: T, after: (T, T) -> bool)
    requires SortedBy(prefix + [last], after)
    ensures forall a :: a in multiset(prefix) ==> !after(a, last)
  {
    var s := prefix + [last];
    forall a | a in multiset(prefix)
      ensures !after(a, last)
    {
      assert a in prefix;
      var k :| 0 <= k < |prefix| && prefix[k] == a;
      assert s[k] == a && s[|prefix|] == last;
    }
  }

  /** A sequence made of allowed elements, none of which belongs after `y`. */
  lemma NoneAfter<T>(r: seq<T>, y: T, after: (T, T) -> bool, allowed: multiset<T>)
    requires multiset(r) <= allowed
    requires forall a :: a in allowed ==> !after(a, y)
    ensures forall i :: 0 <= i < |r| ==> !after(r[i], y)
  {
    forall i | 0 <= i < |r|
      ensures !after(r[i], y)
    {
      assert r[i] in multiset(r);
    }
  }

  /** Inserting into a sorted sequence keeps it sorted, under a consistent comparator. */
  lemma {:induction false} InsertSorted<T>(s: seq<T>, x: T, after: (T, T) -> bool, dom: multiset<T>)
    requires SortedBy(s, after) && Consistent(dom, after)
    requires multiset(s) + multiset{x} <= dom
    ensures SortedBy(Insert(s, x, after), after)
  {
    if s != [] {
      var n := |s| - 1;
      var last := s[n];
      var prefix := s[..n];
      assert s == prefix + [last];
      assert last in multiset(s);
      LastBound(prefix, last, after);
      if after(last, x) {
        PrefixSorted(s, n, after);
        InsertSorted(prefix, x, after, dom);
        var r := Insert(prefix, x, after);
        assert !after(x, last);
        NoneAfter(r, last, after, multiset(prefix) + multiset{x});
        AppendSorted(r, last, after);
      } else {
        NoneAfter(s, x, after, multiset(prefix) + multiset{last});
        AppendSorted(s, x, after);
      }
    }
  }

  /** With a consistent comparator the result is in order. */
  lemma {:induction false} SortSorted<T>(xs: seq<T>, after: (T, T) -> bool)
    requires Consistent(multiset(xs), after)
    ensures SortedBy(Sort(xs, after), after)
  {
    if xs != [] {
      var n := |xs| - 1;
      assert xs == xs[..n] + [xs[n]];
      assert Consistent(multiset(xs[..n]), after);
      SortSorted(xs[..n], after);
      InsertSorted(Sort(xs[..n], after), xs[n], after, multiset(xs));
    }
  }

  /** When no element belongs after another, the sort keeps the order. */
  lemma {:induction false} SortIdentity<T>(xs: seq<T>, after: (T, T) -> bool)
    requires forall a, b :: a in xs && b in xs ==> !after(a, b)
    ensures Sort(xs, after) == xs
  {
    if xs != [] {
      var n := |xs| - 1;
      assert xs == xs[..n] + [xs[n]];
      SortIdentity(xs[..n], after);
      assert xs[n] in xs;
      if n > 0 {
        assert xs[n - 1] in xs;
      }
    }
  }

  /**
   * `p` picks out a group of elements of `dom` none of which belongs after another, such as
   * the elements with one sort key.
   */
  predicate Unordered<T>(dom: multiset<T>, p: T -> bool, after: (T, T) -> bool) {
    forall a, b :: a in dom && b in dom && p(a) && p(b) ==> !after(a, b)
  }

  /** Inserting `x` never moves it past an element of its own group. */
  lemma {:induction false} InsertStable<T>(s: seq<T>, x: T, after: (T, T) -> bool, p: T -> bool, dom: multiset<T>)
    requires Unordered(dom, p, after) && multiset(s) + multiset{x} <= dom
    ensures Filter(Insert(s, x, after), p) == Filter(s, p) + Filter([x], p)
  {
    if s == [] {
      assert [] + [x] == [x];
    } else {
      var n := |s| - 1;
      var last, prefix := s[n], s[..n];
      assert s == prefix + [last];
      FilterAppend(prefix, [last], p);
      if after(last, x) {
        SameGroup(dom, p, after, last, x);
        InsertStable(prefix, x, after, p, dom);
        FilterAppend(Insert(prefix, x, after), [last], p);
        Swap(Filter(prefix, p), Filter([x], p), Filter([last], p));
      } else {
        FilterAppend(s, [x], p);
      }
    }
  }

  /** Two elements of a group are never ordered against each other. */
  lemma SameGroup<T>(dom: multiset<T>, p: T -> bool, after: (T, T) -> bool, a: T, b: T)
    requires Unordered(dom, p, after) && a in dom && b in dom
    ensures p(a) && p(b) ==> !after(a, b)
  {
  }

  /** Two parts of which one is empty may swap places. */
  lemma Swap<T>(a: seq<T>, x: seq<T>, y: seq<T>)
    requires x == [] || y == []
    ensures a + x + y == a + y + x
  {
  }

  /**
   * The sort is stable: the elements of a group none of which belongs after another come out
   * in the order they went in.
   */
  lemma {:induction false} SortStable<T>(xs: seq<T>, after: (T, T) -> bool, p: T -> bool)
    requires Unordered(multiset(xs), p, after)
    ensures Filter(Sort(xs, after), p) == Filter(xs, p)
  {
    if xs != [] {
      var n := |xs| - 1;
      assert xs == xs[..n] + [xs[n]];
      assert Unordered(multiset(xs[..n]), p, after);
      SortStable(xs[..n], after, p);
      InsertStable(Sort(xs[..n], after), xs[n], after, p, multiset(xs));
      FilterAppend(xs[..n], [xs[n]], p);
    }
  }
}
