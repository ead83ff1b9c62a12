/** The stable sort that JavaScript's `Array.prototype.sort` performs (stable
    since ECMAScript 2019) for the comparators of this program, all of the
    form `a.p - b.p || a.s - b.s` or `a.p - b.p`, and the score ranking that
    both `getSortedIndicesByCurve` functions build on it. */
module StableSort {
  import opened Seqs

  /** A comparison key: the primary component decides, the secondary one breaks ties. */
  datatype SortKey = SortKey(primary: real, secondary: real)

  /** The comparator `a.primary - b.primary || a.secondary - b.secondary` is negative. */
  predicate Precedes(a: SortKey, b: SortKey) {
    a.primary < b.primary || (a.primary == b.primary && a.secondary < b.secondary)
  }

  /** Inserts `x` after every element that does not sort strictly after it. */
  function Insert<T>(s: seq<T>, x: T, key: T -> SortKey): (r: seq<T>)
    ensures |r| == |s| + 1
    ensures multiset(r) == multiset(s) + multiset{x}
  {
    if s == [] || !Precedes(key(x), key(s[|s| - 1])) then s + [x]
    else
      var n := |s| - 1;
      assert s == s[..n] + [s[n]];
      Insert(s[..n], x, key) + [s[n]]
  }

  /** Stable insertion sort: the reference definition of a stable sort by `key`. */
  function SortBy<T>(s: seq<T>, key: T -> SortKey): (r: seq<T>)
    ensures |r| == |s|
    ensures multiset(r) == multiset(s)
  {
    if s == [] then []
    else
      var n := |s| - 1;
      assert s == s[..n] + [s[n]];
      Insert(SortBy(s[..n], key), s[n], key)
  }

  ghost predicate SortedBy<T>(s: seq<T>, key: T -> SortKey) {
    forall i, j :: 0 <= i < j < |s| ==> !Precedes(key(s[j]), key(s[i]))
  }

  /** Holds of the elements whose key equals `k`. */
  function HasKey<T>(key: T -> SortKey, k: SortKey): T -> bool {
    y => key(y) == k
  }

  /** The elements whose key equals `k`, in order. */
  function Ties<T>(s: seq<T>, key: T -> SortKey, k: SortKey): seq<T> {
    Filter(s, HasKey(key, k))
  }

  /** An element of `Insert(s, x, key)` other than `x` was already in `s`. */
  lemma InsertedOther<T>(s: seq<T>, x: T, key: T -> SortKey, y: T)
    requires y in Insert(s, x, key) && y != x
    ensures y in s
  {
    assert y in multiset(Insert(s, x, key));
  }

  lemma {:induction false} InsertSorted<T>(s: seq<T>, x: T, key: T -> SortKey)
    requires SortedBy(s, key)
    ensures SortedBy(Insert(s, x, key), key)
  {
    if s != [] && Precedes(key(x), key(s[|s| - 1])) {
      var n := |s| - 1;
      InsertSorted(s[..n], x, key);
      var t := Insert(s[..n], x, key);
      var r := t + [s[n]];
      assert r == Insert(s, x, key);
      forall i, j | 0 <= i < j < |r| ensures !Precedes(key(r[j]), key(r[i])) {
        if j < |t| {
          assert r[i] == t[i] && r[j] == t[j];
        } else {
          assert r[i] == t[i] && r[j] == s[n];
          if t[i] != x {
            InsertedOther(s[..n], x, key, t[i]);
            SortedLast(s, key, t[i]);
          }
        }
      }
    }
  }

  /** In a sorted sequence no earlier element sorts strictly after the last one. */
  lemma SortedLast<T>(s: seq<T>, key: T -> SortKey, y: T)
    requires SortedBy(s, key) && s != [] && y in s[..|s| - 1]
    ensures !Precedes(key(s[|s| - 1]), key(y))
  {
    var m :| 0 <= m < |s| - 1 && s[..|s| - 1][m] == y;
    assert s[m] == y;
  }

  /** The sort returns its input in key order. */
  lemma {:induction false} SortBySorted<T>(s: seq<T>, key: T -> SortKey)
    ensures SortedBy(SortBy(s, key), key)
  {
    if s != [] {
      var n := |s| - 1;
      SortBySorted(s[..n], key);
      InsertSorted(SortBy(s[..n], key), s[n], key);
    }
  }

  lemma {:induction false} InsertTies<T>(s: seq<T>, x: T, key: T -> SortKey, k: SortKey)
    ensures Ties(Insert(s, x, key), key, k) == Ties(s, key, k) + (if key(x) == k then [x] else [])
  {
    if s == [] || !Precedes(key(x), key(s[|s| - 1])) {
      assert (s + [x])[..|s|] == s;
    } else {
      var n := |s| - 1;
      InsertTies(s[..n], x, key, k);
      var t := Insert(s[..n], x, key);
      var last := if key(s[n]) == k then [s[n]] else [];
      assert (t + [s[n]])[..|t|] == t;
      assert Ties(t + [s[n]], key, k) == Ties(t, key, k) + last;
      assert Ties(s, key, k) == Ties(s[..n], key, k) + last;
    }
  }

  /** The sort is stable: elements with equal keys keep their relative input order. */
  lemma {:induction false} SortByStable<T>(s: seq<T>, key: T -> SortKey, k: SortKey)
    ensures Ties(SortBy(s, key), key, k) == Ties(s, key, k)
  {
    if s != [] {
      var n := |s| - 1;
      SortByStable(s[..n], key, k);
      InsertTies(SortBy(s[..n], key), s[n], key, k);
    }
  }

  /** Sorting an already sorted sequence changes nothing. */
  lemma {:induction false} SortByOfSorted<T>(s: seq<T>, key: T -> SortKey)
    requires SortedBy(s, key)
    ensures SortBy(s, key) == s
  {
    if s != [] {
      var n := |s| - 1;
      var init := s[..n];
      forall i, j | 0 <= i < j < |init| ensures !Precedes(key(init[j]), key(init[i])) {
        assert init[i] == s[i] && init[j] == s[j];
      }
      SortByOfSorted(init, key);
      if n > 0 {
        assert !Precedes(key(s[n]), key(s[n - 1]));
        assert init[|init| - 1] == s[n - 1];
      }
      assert init + [s[n]] == s;
    }
  }

  /** Among elements with equal keys, `tag` increases along `s`. */
  ghost predicate TiesInTagOrder<T>(s: seq<T>, key: T -> SortKey, tag: T -> int) {
    forall i, j :: 0 <= i < j < |s| && key(s[i]) == key(s[j]) ==> tag(s[i]) < tag(s[j])
  }

  lemma {:induction false} InsertTagOrder<T>(s: seq<T>, x: T, key: T -> SortKey, tag: T -> int)
    requires TiesInTagOrder(s, key, tag)
    requires forall y :: y in s ==> tag(y) < tag(x)
    ensures TiesInTagOrder(Insert(s, x, key), key, tag)
  {
    if s != [] && Precedes(key(x), key(s[|s| - 1])) {
      var n := |s| - 1;
      var init := s[..n];
      forall i, j | 0 <= i < j < |init| && key(init[i]) == key(init[j])
        ensures tag(init[i]) < tag(init[j])
      {
        assert init[i] == s[i] && init[j] == s[j];
      }
      InsertTagOrder(init, x, key, tag);
      var t := Insert(init, x, key);
      var r := t + [s[n]];
      assert r == Insert(s, x, key);
      forall i, j | 0 <= i < j < |r| && key(r[i]) == key(r[j]) ensures tag(r[i]) < tag(r[j]) {
        if j < |t| {
          assert r[i] == t[i] && r[j] == t[j];
        } else {
          assert r[i] == t[i] && r[j] == s[n];
          InsertedOther(init, x, key, t[i]);
          var m :| 0 <= m < n && init[m] == t[i];
          assert s[m] == t[i];
        }
      }
    }
  }

  /** When the input is in increasing `tag` order, ties leave the sort in increasing `tag` order. */
  lemma {:induction false} SortByTagOrder<T>(s: seq<T>, key: T -> SortKey, tag: T -> int)
    requires forall i, j :: 0 <= i < j < |s| ==> tag(s[i]) < tag(s[j])
    ensures TiesInTagOrder(SortBy(s, key), key, tag)
  {
    if s != [] {
      var n := |s| - 1;
      SortByTagOrder(s[..n], key, tag);
      forall y | y in SortBy(s[..n], key) ensures tag(y) < tag(s[n]) {
        assert y in multiset(s[..n]);
      }
      InsertTagOrder(SortBy(s[..n], key), s[n], key, tag);
    }
  }

  /** An index paired with its score, as `{ index, score }` in the source. */
  datatype Scored = Scored(index: nat, score: real)

  function ScoreKey(item: Scored): SortKey {
    SortKey(item.score, 0.0)
  }

  function ItemIndex(item: Scored): int {
    item.index
  }

  function Indexed(scores: seq<real>): seq<Scored> {
    seq(|scores|, i requires 0 <= i < |scores| => Scored(i, scores[i]))
  }

  function Indices(items: seq<Scored>): seq<nat> {
    seq(|items|, k requires 0 <= k < |items| => items[k].index)
  }

  /** `scores.map((score, index) => ({ index, score })).sort((a, b) => a.score - b.score)
      .map(item => item.index)`: every index below `|scores|` exactly once, in increasing
      score order, equal scores in increasing index order. */
  function RankByScore(scores: seq<real>): (r: seq<nat>)
    ensures |r| == |scores|
    ensures forall k :: 0 <= k < |r| ==> r[k] < |scores|
    ensures forall k, l :: 0 <= k < l < |r| ==>
      scores[r[k]] < scores[r[l]] || (scores[r[k]] == scores[r[l]] && r[k] < r[l])
  {
    RankedItems(scores);
    Indices(SortBy(Indexed(scores), ScoreKey))
  }

  lemma RankedItems(scores: seq<real>)
    ensures forall y :: y in SortBy(Indexed(scores), ScoreKey) ==>
      y.index < |scores| && y.score == scores[y.index]
    ensures SortedBy(SortBy(Indexed(scores), ScoreKey), ScoreKey)
    ensures TiesInTagOrder(SortBy(Indexed(scores), ScoreKey), ScoreKey, ItemIndex)
  {
    var items := Indexed(scores);
    var sorted := SortBy(items, ScoreKey);
    forall y | y in sorted ensures y.index < |scores| && y.score == scores[y.index] {
      assert y in multiset(items);
    }
    SortBySorted(items, ScoreKey);
    SortByTagOrder(items, ScoreKey, ItemIndex);
  }

  /** `order.map(index => s[index])`. */
  function Reorder<T>(s: seq<T>, order: seq<nat>): seq<T>
    requires forall k :: 0 <= k < |order| ==> order[k] < |s|
  {
    seq(|order|, k requires 0 <= k < |order| => s[order[k]])
  }

  lemma ReorderConcat<T>(s: seq<T>, u: seq<Scored>, v: seq<Scored>)
    requires forall y :: y in u + v ==> y.index < |s|
    ensures Reorder(s, Indices(u + v)) == Reorder(s, Indices(u)) + Reorder(s, Indices(v))
  {
  }

  /** Removing the same element from two permutations of each other leaves permutations. */
  lemma RemoveMatching<T>(a: seq<T>, b: seq<T>, k: nat)
    requires multiset(a) == multiset(b)
    requires a != [] && k < |b| && b[k] == a[|a| - 1]
    ensures multiset(a[..|a| - 1]) == multiset(b[..k] + b[k + 1..])
  {
    var x := b[k];
    assert a == a[..|a| - 1] + [x];
    assert b == b[..k] + [x] + b[k + 1..];
    assert multiset(a[..|a| - 1]) == multiset(a) - multiset{x};
    assert multiset(b[..k] + b[k + 1..]) == multiset(b) - multiset{x};
  }

  /** Picking elements by permuted index lists gives permuted results. */
  lemma {:induction false} ReorderPermutation<T>(s: seq<T>, a: seq<Scored>, b: seq<Scored>)
    requires multiset(a) == multiset(b)
    requires forall y :: y in a ==> y.index < |s|
    ensures forall y :: y in b ==> y.index < |s|
    ensures multiset(Reorder(s, Indices(a))) == multiset(Reorder(s, Indices(b)))
    decreases |a|
  {
    forall y | y in b ensures y.index < |s| {
      assert y in multiset(a);
    }
    if a != [] {
      var n := |a| - 1;
      assert a[n] in multiset(b);
      var k :| 0 <= k < |b| && b[k] == a[n];
      RemoveMatching(a, b, k);
      ReorderDropLast(s, a);
      ReorderPermutation(s, a[..n], b[..k] + b[k + 1..]);
      ReorderDropAt(s, b, k);
    }
  }

  /** Dropping the last index drops the element it picks. */
  lemma ReorderDropLast<T>(s: seq<T>, a: seq<Scored>)
    requires a != [] && forall y :: y in a ==> y.index < |s|
    ensures forall y :: y in a[..|a| - 1] ==> y.index < |s|
    ensures multiset(Reorder(s, Indices(a)))
      == multiset(Reorder(s, Indices(a[..|a| - 1]))) + multiset{s[a[|a| - 1].index]}
  {
    var n := |a| - 1;
    assert a == a[..n] + [a[n]];
    ReorderConcat(s, a[..n], [a[n]]);
  }

  /** Dropping the index at position `k` drops the element it picks. */
  lemma ReorderDropAt<T>(s: seq<T>, b: seq<Scored>, k: nat)
    requires k < |b| && forall y :: y in b ==> y.index < |s|
    ensures forall y :: y in b[..k] + b[k + 1..] ==> y.index < |s|
    ensures multiset(Reorder(s, Indices(b)))
      == multiset(Reorder(s, Indices(b[..k] + b[k + 1..]))) + multiset{s[b[k].index]}
  {
    var before, x, after := b[..k], b[k], b[k + 1..];
    assert b == before + [x] + after;
    ReorderConcat(s, before + [x], after);
    ReorderConcat(s, before, [x]);
    ReorderConcat(s, before, after);
  }

  /** Mapping the ranked indices back to the elements they index permutes the elements. */
  lemma ReorderByRankPermutes<T>(s: seq<T>, scores: seq<real>)
    requires |scores| == |s|
    ensures multiset(Reorder(s, RankByScore(scores))) == multiset(s)
  {
    var items := Indexed(scores);
    ReorderPermutation(s, items, SortBy(items, ScoreKey));
    assert Reorder(s, Indices(items)) == s;
  }

  /** The indices `0, 1, ..., n - 1`. */
  function Range(n: nat): seq<nat> {
    seq(n, i requires 0 <= i < n => i)
  }

  /** The ranking lists every index of `scores` exactly once. */
  lemma RankByScorePermutes(scores: seq<real>)
    ensures multiset(RankByScore(scores)) == multiset(Range(|scores|))
  {
    var r := RankByScore(scores);
    ReorderByRankPermutes(Range(|scores|), scores);
    assert Reorder(Range(|scores|), r) == r;
  }
}
