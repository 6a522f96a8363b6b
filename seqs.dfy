/**
 * Order-preserving filtering of sequences, the model of JavaScript's
 * `Array.prototype.filter`, with the facts the rest of the model needs about it.
 */
module Seqs {

  /** The elements of `s` that satisfy `p`, in their order in `s`. */
  function Filter<T(!new)>(s: seq<T>, p: T -> bool): (r: seq<T>)
    ensures |r| <= |s|
    ensures forall x :: x in r <==> x in s && p(x)
  {
    if s == [] then []
    else (if p(s[0]) then [s[0]] else []) + Filter(s[1..], p)
  }

  /** Filtering a sequence with one more element at the end. */
  lemma {:induction false} FilterSnoc<T(!new)>(s: seq<T>, x: T, p: T -> bool)
    ensures Filter(s + [x], p) == Filter(s, p) + (if p(x) then [x] else [])
  {
    if s == [] {
      assert s + [x] == [x] && [x][1..] == [];
    } else {
      var t, head := s + [x], if p(s[0]) then [s[0]] else [];
      assert t[0] == s[0] && t[1..] == s[1..] + [x];
      assert Filter(t, p) == head + Filter(s[1..] + [x], p);
      FilterSnoc(s[1..], x, p);
      var rest, tail := Filter(s[1..], p), if p(x) then [x] else [];
      assert Filter(s, p) == head + rest;
      assert head + (rest + tail) == (head + rest) + tail;
    }
  }

  /** Nothing is kept when no element satisfies `p`. */
  lemma FilterNone<T(!new)>(s: seq<T>, p: T -> bool)
    requires forall i :: 0 <= i < |s| ==> !p(s[i])
    ensures Filter(s, p) == []
  {
  }

  /** Filtering distributes over concatenation. */
  lemma {:induction false} FilterAppend<T(!new)>(a: seq<T>, b: seq<T>, p: T -> bool)
    ensures Filter(a + b, p) == Filter(a, p) + Filter(b, p)
  {
    if a == [] {
      assert a + b == b;
    } else {
      assert (a + b)[1..] == a[1..] + b;
      FilterAppend(a[1..], b, p);
    }
  }

  /** A kept element occurs exactly as often as in `s`; a dropped one not at all. */
  lemma {:induction false} FilterCount<T(!new)>(s: seq<T>, p: T -> bool, x: T)
    ensures multiset(Filter(s, p))[x] == if p(x) then multiset(s)[x] else 0
  {
    if s != [] {
      FilterCount(s[1..], p, x);
      assert s == [s[0]] + s[1..];
    }
  }

  /** `FilterCount` for every element at once. */
  lemma FilterCounts<T(!new)>(s: seq<T>, p: T -> bool)
    ensures forall x :: multiset(Filter(s, p))[x] == if p(x) then multiset(s)[x] else 0
  {
    forall x ensures multiset(Filter(s, p))[x] == if p(x) then multiset(s)[x] else 0 {
      FilterCount(s, p, x);
    }
  }

  /** Two predicates that agree on the elements of `s` filter it alike. */
  lemma {:induction false} FilterCongruent<T(!new)>(s: seq<T>, p: T -> bool, q: T -> bool)
    requires forall i :: 0 <= i < |s| ==> p(s[i]) == q(s[i])
    ensures Filter(s, p) == Filter(s, q)
  {
    if s != [] {
      assert p(s[0]) == q(s[0]);
      FilterCongruent(s[1..], p, q);
    }
  }

  /** `idx` shows where each element of `a` sits in `b`, at strictly increasing positions. */
  ghost predicate Embeds<T>(a: seq<T>, b: seq<T>, idx: seq<int>) {
    && |idx| == |a|
    && (forall k :: 0 <= k < |idx| ==> 0 <= idx[k] < |b| && a[k] == b[idx[k]])
    && (forall k, l :: 0 <= k < l < |idx| ==> idx[k] < idx[l])
  }

  /** `a` is `b` with some elements left out and the others in their relative order. */
  ghost predicate IsSubsequence<T>(a: seq<T>, b: seq<T>) {
    exists idx :: Embeds(a, b, idx)
  }

  /** An embedding of `a` in `b` shifts to one in `[x] + b`, with or without `x` kept in front. */
  lemma EmbedsCons<T>(a: seq<T>, b: seq<T>, x: T, idx: seq<int>)
    requires Embeds(a, b, idx)
    ensures Embeds(a, [x] + b, Shifted(idx))
    ensures Embeds([x] + a, [x] + b, [0] + Shifted(idx))
  {
    var sh := Shifted(idx);
    forall k | 0 <= k < |sh|
      ensures 0 <= sh[k] < |[x] + b| && a[k] == ([x] + b)[sh[k]]
    {
      assert ([x] + b)[idx[k] + 1] == b[idx[k]];
    }
    var sh0 := [0] + sh;
    forall k | 0 <= k < |sh0|
      ensures 0 <= sh0[k] < |[x] + b| && ([x] + a)[k] == ([x] + b)[sh0[k]]
    {
      if k > 0 {
        assert sh0[k] == sh[k - 1];
        assert ([x] + a)[k] == a[k - 1];
      }
    }
  }

  function Shifted(idx: seq<int>): (r: seq<int>)
    ensures |r| == |idx| && forall k :: 0 <= k < |idx| ==> r[k] == idx[k] + 1
  {
    seq(|idx|, k requires 0 <= k < |idx| => idx[k] + 1)
  }

  /** Filtering keeps the relative order of the elements it keeps. */
  lemma {:induction false} FilterIsSubsequence<T(!new)>(s: seq<T>, p: T -> bool)
    ensures IsSubsequence(Filter(s, p), s)
  {
    if s == [] {
      assert Embeds(Filter(s, p), s, []);
    } else {
      FilterIsSubsequence(s[1..], p);
      var tail := Filter(s[1..], p);
      var idx :| Embeds(tail, s[1..], idx);
      EmbedsCons(tail, s[1..], s[0], idx);
      assert [s[0]] + s[1..] == s;
      if p(s[0]) {
        assert Filter(s, p) == [s[0]] + tail;
        assert Embeds(Filter(s, p), s, [0] + Shifted(idx));
      } else {
        assert Filter(s, p) == tail;
        assert Embeds(Filter(s, p), s, Shifted(idx));
      }
    }
  }

}
