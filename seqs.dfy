/**
 * Order-preserving selection from a list: `Array.prototype.filter`, and the
 * subsequence relation that says what it keeps.
 */
module Seqs {

  /** `idx` picks, in increasing positions of `b`, the elements of `a` in order. */
  ghost predicate EmbedsBy<T>(a: seq<T>, b: seq<T>, idx: seq<nat>)
  {
    && |idx| == |a|
    && (forall i, j :: 0 <= i < j < |idx| ==> idx[i] < idx[j])
    && (forall i :: 0 <= i < |idx| ==> idx[i] < |b| && b[idx[i]] == a[i])
  }

  /** `a` is `b` with some elements dropped and the rest kept in order. */
  ghost predicate IsSubsequence<T>(a: seq<T>, b: seq<T>)
  {
    exists idx :: EmbedsBy(a, b, idx)
  }

  /** Shifts every position by `k`. */
  function Shift(idx: seq<nat>, k: nat): (r: seq<nat>)
    ensures |r| == |idx|
    ensures forall i :: 0 <= i < |idx| ==> r[i] == idx[i] + k
  {
    seq(|idx|, i requires 0 <= i < |idx| => idx[i] + k)
  }

  /** Subsequences of two lists put side by side form a subsequence of the two lists joined. */
  lemma SubsequenceConcat<T>(a: seq<T>, b: seq<T>, c: seq<T>, d: seq<T>)
    requires IsSubsequence(a, b) && IsSubsequence(c, d)
    ensures IsSubsequence(a + c, b + d)
  {
    var i1 :| EmbedsBy(a, b, i1);
    var i2 :| EmbedsBy(c, d, i2);
    var idx := i1 + Shift(i2, |b|);
    assert EmbedsBy(a + c, b + d, idx);
  }

  /** Every list is a subsequence of itself, and the empty list of every list. */
  lemma SubsequenceBase<T>(b: seq<T>)
    ensures IsSubsequence(b, b)
    ensures IsSubsequence([], b)
  {
    var id := seq(|b|, i requires 0 <= i < |b| => i as nat);
    assert EmbedsBy(b, b, id);
    assert EmbedsBy([], b, []);
  }

  /** A subsequence is no longer than the list it is taken from. */
  lemma {:induction false} SubsequenceLength<T>(a: seq<T>, b: seq<T>)
    requires IsSubsequence(a, b)
    ensures |a| <= |b|
  {
    var idx :| EmbedsBy(a, b, idx);
    if |a| > 0 {
      IncreasingBound(idx, |b|);
    }
  }

  /** Strictly increasing positions below `n` number at most `n`, the last one at least |idx| - 1. */
  lemma {:induction false} IncreasingBound(idx: seq<nat>, n: nat)
    requires |idx| > 0
    requires forall i, j :: 0 <= i < j < |idx| ==> idx[i] < idx[j]
    requires forall i :: 0 <= i < |idx| ==> idx[i] < n
    ensures |idx| - 1 <= idx[|idx| - 1]
    ensures |idx| <= n
    decreases |idx|
  {
    if |idx| > 1 {
      var front := idx[..|idx| - 1];
      IncreasingBound(front, n);
      assert front[|front| - 1] == idx[|idx| - 2];
    }
  }

  /** `s.filter(keep)`: the elements that pass, in their original order. */
  function Filter<T(!new)>(s: seq<T>, keep: T -> bool): (r: seq<T>)
    ensures |r| <= |s|
    ensures forall x :: x in r <==> x in s && keep(x)
  {
    if s == [] then []
    else
      var rest := Filter(s[1..], keep);
      assert s == [s[0]] + s[1..];
      if keep(s[0]) then [s[0]] + rest else rest
  }

  /** The filtered list is a subsequence of the original: the survivors keep their order. */
  lemma {:induction false} FilterSubsequence<T(!new)>(s: seq<T>, keep: T -> bool)
    ensures IsSubsequence(Filter(s, keep), s)
  {
    if s == [] {
      assert EmbedsBy([], s, []);
    } else {
      var rest := Filter(s[1..], keep);
      FilterSubsequence(s[1..], keep);
      var idx :| EmbedsBy(rest, s[1..], idx);
      EmbedsInTail(s, rest, idx);
      if keep(s[0]) {
        assert EmbedsBy([s[0]] + rest, s, [0] + Shift(idx, 1));
      } else {
        assert EmbedsBy(rest, s, Shift(idx, 1));
      }
    }
  }

  /** An embedding into the tail of `s` shifts to one into `s`, and the head can go in front. */
  lemma EmbedsInTail<T>(s: seq<T>, a: seq<T>, idx: seq<nat>)
    requires s != [] && EmbedsBy(a, s[1..], idx)
    ensures EmbedsBy(a, s, Shift(idx, 1))
    ensures EmbedsBy([s[0]] + a, s, [0] + Shift(idx, 1))
  {
    var shifted := Shift(idx, 1);
    var b, id := [s[0]] + a, [0] + shifted;
    forall i | 0 <= i < |id| ensures id[i] < |s| && s[id[i]] == b[i] {
      if i > 0 {
        assert id[i] == idx[i - 1] + 1 && b[i] == a[i - 1];
      }
    }
    forall i, j | 0 <= i < j < |id| ensures id[i] < id[j] {
      if i > 0 {
        assert id[i] == idx[i - 1] + 1;
      }
      assert id[j] == idx[j - 1] + 1;
    }
  }

  /** Filtering keeps every copy of an element that passes and no copy of one that fails. */
  lemma {:induction false} FilterCount<T(!new)>(s: seq<T>, keep: T -> bool, x: T)
    ensures multiset(Filter(s, keep))[x] == if keep(x) then multiset(s)[x] else 0
  {
    if s != [] {
      FilterCount(s[1..], keep, x);
      assert s == [s[0]] + s[1..];
    }
  }

  /** Filtering twice by the same test is filtering once. */
  lemma {:induction false} FilterIdempotent<T(!new)>(s: seq<T>, keep: T -> bool)
    ensures Filter(Filter(s, keep), keep) == Filter(s, keep)
  {
    if s != [] {
      FilterIdempotent(s[1..], keep);
      var rest := Filter(s[1..], keep);
      if keep(s[0]) {
        assert ([s[0]] + rest)[1..] == rest;
      }
    }
  }

  /** A test every element passes keeps the whole list. */
  lemma {:induction false} FilterKeepsAll<T(!new)>(s: seq<T>, keep: T -> bool)
    requires forall x | x in s :: keep(x)
    ensures Filter(s, keep) == s
  {
    if s != [] {
      FilterKeepsAll(s[1..], keep);
      assert [s[0]] + s[1..] == s;
    }
  }
}
