/** Sequence vocabulary shared by the model: optional values, order-preserving
    filtering (JavaScript's `Array.prototype.filter`), subsequences and sums. */
module Seqs {

  /** A value that may be absent: `null`, `undefined` or a missing key in the source. */
  datatype Option<T> = None | Some(value: T)

  /** The elements of `s` that satisfy `p`, in their original order. */
  function Filter<T>(s: seq<T>, p: T -> bool): (r: seq<T>)
    ensures |r| <= |s|
  {
    if s == [] then []
    else Filter(s[..|s| - 1], p) + (if p(s[|s| - 1]) then [s[|s| - 1]] else [])
  }

  /** `idx` lists strictly increasing positions of `b` that hold the elements of `a`, in order. */
  ghost predicate Embeds<T>(a: seq<T>, b: seq<T>, idx: seq<nat>) {
    && |idx| == |a|
    && (forall i :: 0 <= i < |idx| ==> idx[i] < |b| && a[i] == b[idx[i]])
    && (forall i, j :: 0 <= i < j < |idx| ==> idx[i] < idx[j])
  }

  /** `a` is obtained from `b` by deleting elements, without reordering the rest. */
  ghost predicate IsSubsequence<T>(a: seq<T>, b: seq<T>) {
    exists idx :: Embeds(a, b, idx)
  }

  lemma {:induction false} FilterEmbeds<T>(s: seq<T>, p: T -> bool) returns (idx: seq<nat>)
    ensures Embeds(Filter(s, p), s, idx)
  {
    if s == [] {
      idx := [];
    } else {
      var n := |s| - 1;
      var prev := FilterEmbeds(s[..n], p);
      var f := Filter(s[..n], p);
      assert forall i :: 0 <= i < |prev| ==> prev[i] < n && f[i] == s[prev[i]];
      if p(s[n]) {
        idx := prev + [n];
        assert Filter(s, p) == f + [s[n]];
      } else {
        idx := prev;
        assert Filter(s, p) == f;
      }
    }
  }

  /** Filtering keeps an order-preserving subsequence. */
  lemma FilterIsSubsequence<T>(s: seq<T>, p: T -> bool)
    ensures IsSubsequence(Filter(s, p), s)
  {
    var idx := FilterEmbeds(s, p);
  }

  /** Filtering keeps every occurrence of an element that satisfies `p` and none of the others. */
  lemma {:induction false} FilterCount<T>(s: seq<T>, p: T -> bool, x: T)
    ensures multiset(Filter(s, p))[x] == if p(x) then multiset(s)[x] else 0
  {
    if s != [] {
      var n := |s| - 1;
      FilterCount(s[..n], p, x);
      assert s == s[..n] + [s[n]];
    }
  }

  lemma FilterMembers<T>(s: seq<T>, p: T -> bool)
    ensures forall x :: x in Filter(s, p) <==> x in s && p(x)
  {
    forall x ensures x in Filter(s, p) <==> x in s && p(x) {
      FilterCount(s, p, x);
    }
  }

  lemma {:induction false} FilterConcat<T>(a: seq<T>, b: seq<T>, p: T -> bool)
    ensures Filter(a + b, p) == Filter(a, p) + Filter(b, p)
  {
    if b == [] {
      assert a + b == a;
    } else {
      var n := |b| - 1;
      FilterConcat(a, b[..n], p);
      assert (a + b)[..|a + b| - 1] == a + b[..n];
      assert (a + b)[|a + b| - 1] == b[n];
    }
  }

  /** Predicates that agree on the elements of `s` select the same elements. */
  lemma {:induction false} FilterCongruent<T>(s: seq<T>, p: T -> bool, q: T -> bool)
    requires forall x :: x in s ==> p(x) == q(x)
    ensures Filter(s, p) == Filter(s, q)
  {
    if s != [] {
      FilterCongruent(s[..|s| - 1], p, q);
    }
  }

  lemma {:induction false} FilterAll<T>(s: seq<T>, p: T -> bool)
    requires forall x :: x in s ==> p(x)
    ensures Filter(s, p) == s
  {
    if s != [] {
      var n := |s| - 1;
      var init := s[..n];
      assert p(s[n]);
      forall x | x in init ensures p(x) {
        assert x in s;
      }
      FilterAll(init, p);
      assert Filter(s, p) == init + [s[n]];
      assert init + [s[n]] == s;
    }
  }

  lemma {:induction false} FilterNone<T>(s: seq<T>, p: T -> bool)
    requires forall x :: x in s ==> !p(x)
    ensures Filter(s, p) == []
  {
    if s != [] {
      var n := |s| - 1;
      assert forall x :: x in s[..n] ==> x in s;
      FilterNone(s[..n], p);
      assert !p(s[n]);
    }
  }

  /** Filtering by a weaker predicate first changes nothing. */
  lemma {:induction false} FilterOfFilter<T>(s: seq<T>, p: T -> bool, q: T -> bool)
    requires forall x :: x in s && q(x) ==> p(x)
    ensures Filter(Filter(s, p), q) == Filter(s, q)
  {
    if s != [] {
      var n := |s| - 1;
      FilterOfFilter(s[..n], p, q);
      FilterConcat(Filter(s[..n], p), if p(s[n]) then [s[n]] else [], q);
    }
  }

  lemma MultisetExtensionality<T>(m: multiset<T>, n: multiset<T>)
    requires forall x :: m[x] == n[x]
    ensures m == n
  {
  }

  /** The absolute value of a real. */
  function Abs(x: real): real {
    if x < 0.0 then -x else x
  }

  /** The sum of a sequence of reals, left to right (JavaScript's `+=` accumulation). */
  function Sum(s: seq<real>): real {
    if s == [] then 0.0 else Sum(s[..|s| - 1]) + s[|s| - 1]
  }
}
