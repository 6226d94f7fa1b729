/** `Array.prototype.filter` and the facts about it that the model relies on. */
module Seqs {

  /** `s.filter(p)`: the elements of `s` that satisfy `p`, in their original order. */
  function Filter<T>(s: seq<T>, p: T -> bool): (r: seq<T>)
    ensures |r| <= |s|
    ensures forall x :: x in r ==> x in s && p(x)
    ensures forall x :: x in s && p(x) ==> x in r
  {
    if s == [] then []
    else (if p(s[0]) then [s[0]] else []) + Filter(s[1..], p)
  }

  /** A filter keeps every element that satisfies `p` as many times as it occurs, and no other. */
  lemma {:induction false} FilterCounts<T>(s: seq<T>, p: T -> bool)
    ensures multiset(Filter(s, p)) <= multiset(s)
    ensures forall x :: x in s ==> multiset(Filter(s, p))[x] == if p(x) then multiset(s)[x] else 0
  {
    if s != [] {
      assert s == [s[0]] + s[1..];
      FilterCounts(s[1..], p);
    }
  }

  /** `idx` picks, in increasing positions of `b`, the elements of `a`. */
  ghost predicate Embedding<T>(a: seq<T>, b: seq<T>, idx: seq<nat>) {
    && |idx| == |a|
    && (forall k :: 0 <= k < |idx| ==> idx[k] < |b| && a[k] == b[idx[k]])
    && (forall k, l :: 0 <= k < l < |idx| ==> idx[k] < idx[l])
  }

  /** `a` is `b` with some elements left out and the rest kept in order. */
  ghost predicate IsSubsequence<T>(a: seq<T>, b: seq<T>) {
    exists idx :: Embedding(a, b, idx)
  }

  /** The result of a filter is a subsequence of its input. */
  lemma {:induction false} FilterIsSubsequence<T>(s: seq<T>, p: T -> bool)
    ensures IsSubsequence(Filter(s, p), s)
  {
    var idx := FilterEmbedding(s, p);
  }

  lemma {:induction false} FilterEmbedding<T>(s: seq<T>, p: T -> bool) returns (idx: seq<nat>)
    ensures Embedding(Filter(s, p), s, idx)
  {
    if s == [] {
      idx := [];
    } else {
      var r, r1 := Filter(s, p), Filter(s[1..], p);
      var rest := FilterEmbedding(s[1..], p);
      var shifted := ShiftEmbedding(r1, s, rest);
      if p(s[0]) {
        assert r == [s[0]] + r1;
        idx := ConsEmbedding(r1, s, shifted);
      } else {
        assert r == r1;
        idx := shifted;
      }
    }
  }

  /** An embedding that avoids position 0 extends to one of `[s[0]] + a`. */
  lemma ConsEmbedding<T>(a: seq<T>, s: seq<T>, shifted: seq<nat>) returns (idx: seq<nat>)
    requires s != [] && Embedding(a, s, shifted)
    requires forall k :: 0 <= k < |shifted| ==> shifted[k] > 0
    ensures Embedding([s[0]] + a, s, idx)
  {
    idx := [0] + shifted;
    forall k | 0 < k < |idx|
      ensures idx[k] < |s| && ([s[0]] + a)[k] == s[idx[k]]
    {
      assert idx[k] == shifted[k - 1] && ([s[0]] + a)[k] == a[k - 1];
    }
    forall k, l | 0 <= k < l < |idx|
      ensures idx[k] < idx[l]
    {
      assert idx[l] == shifted[l - 1];
      if k > 0 {
        assert idx[k] == shifted[k - 1];
      }
    }
  }

  /** An embedding into the tail of `s` shifts to an embedding into `s` that avoids position 0. */
  lemma ShiftEmbedding<T>(a: seq<T>, s: seq<T>, rest: seq<nat>) returns (shifted: seq<nat>)
    requires s != [] && Embedding(a, s[1..], rest)
    ensures Embedding(a, s, shifted)
    ensures forall k :: 0 <= k < |shifted| ==> shifted[k] == rest[k] + 1
  {
    shifted := seq(|rest|, k requires 0 <= k < |rest| => rest[k] + 1);
    forall k | 0 <= k < |shifted|
      ensures shifted[k] < |s| && a[k] == s[shifted[k]]
    {
      assert s[shifted[k]] == s[1..][rest[k]];
    }
  }

  /** Filtering a concatenation filters each part. */
  lemma {:induction false} FilterAppend<T>(a: seq<T>, b: seq<T>, p: T -> bool)
    ensures Filter(a + b, p) == Filter(a, p) + Filter(b, p)
  {
    if a == [] {
      assert a + b == b;
    } else {
      assert (a + b)[0] == a[0] && (a + b)[1..] == a[1..] + b;
      FilterAppend(a[1..], b, p);
    }
  }

  /** Filtering with a predicate every element satisfies keeps everything. */
  lemma {:induction false} FilterAll<T>(s: seq<T>, p: T -> bool)
    requires forall x :: x in s ==> p(x)
    ensures Filter(s, p) == s
  {
    if s != [] {
      FilterAll(s[1..], p);
    }
  }

  /** Filtering twice with the same predicate is filtering once. */
  lemma FilterIdempotent<T>(s: seq<T>, p: T -> bool)
    ensures Filter(Filter(s, p), p) == Filter(s, p)
  {
    FilterAll(Filter(s, p), p);
  }

  /** No value occurs twice in `s`. */
  predicate NoDup<T(==)>(s: seq<T>) {
    forall i, j :: 0 <= i < j < |s| ==> s[i] != s[j]
  }

  /** `[...new Set(s)]`: the values of `s`, each once, in the order of their first occurrence. */
  function Distinct<T(==, !new)>(s: seq<T>): (r: seq<T>)
    ensures forall x :: x in r <==> x in s
    ensures NoDup(r)
  {
    if s == [] then []
    else
      var d := Distinct(s[..|s| - 1]);
      assert forall x :: x in s <==> x in s[..|s| - 1] || x == s[|s| - 1] by {
        assert s == s[..|s| - 1] + [s[|s| - 1]];
      }
      if s[|s| - 1] in d then d else d + [s[|s| - 1]]
  }

  lemma {:induction false} NoDupCount<T>(s: seq<T>, x: T)
    requires NoDup(s)
    ensures multiset(s)[x] <= 1
  {
    if s != [] {
      var n := |s| - 1;
      assert s == s[..n] + [s[n]];
      assert NoDup(s[..n]);
      NoDupCount(s[..n], x);
      if x == s[n] {
        assert x !in s[..n];
      }
    }
  }

  /** A rearrangement of a sequence without duplicates has none either. */
  lemma NoDupPermutation<T>(d: seq<T>, r: seq<T>)
    requires NoDup(d) && multiset(r) == multiset(d)
    ensures NoDup(r)
  {
    forall i, j | 0 <= i < j < |r|
      ensures r[i] != r[j]
    {
      if r[i] == r[j] {
        assert r == r[..j] + [r[j]] + r[j + 1..];
        assert r[i] in r[..j];
        assert multiset(r)[r[i]] >= 2;
        NoDupCount(d, r[i]);
        assert false;
      }
    }
  }

  /** `xs.flatMap(f)`: the sequences `f` gives for the elements of `xs`, concatenated in order. */
  function FlatMap<T, U(!new)>(xs: seq<T>, f: T -> seq<U>): (r: seq<U>)
    ensures forall y :: y in r <==> exists i :: 0 <= i < |xs| && y in f(xs[i])
  {
    if xs == [] then []
    else
      var n := |xs| - 1;
      var prev := FlatMap(xs[..n], f);
      assert forall i :: 0 <= i < n ==> xs[..n][i] == xs[i];
      prev + f(xs[n])
  }
}
