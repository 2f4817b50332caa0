/**
 * Sums over result lists and the descending sort the reporting code applies
 * (`list.sort(key=..., reverse=True)` and `sorted(..., reverse=True)`).
 */
module Aggregates {

  /** `sum(f(x) for x in xs)`. */
  function SumOf<T>(xs: seq<T>, f: T -> int): int
    decreases |xs|
  {
    if xs == [] then 0 else f(xs[0]) + SumOf(xs[1..], f)
  }

  /** Sums split over concatenation, so a total can be built entry by entry. */
  lemma {:induction false} SumOfAppend<T>(a: seq<T>, b: seq<T>, f: T -> int)
    ensures SumOf(a + b, f) == SumOf(a, f) + SumOf(b, f)
    decreases |a|
  {
    if a == [] {
      assert a + b == b;
    } else {
      assert (a + b)[0] == a[0];
      assert (a + b)[1..] == a[1..] + b;
      SumOfAppend(a[1..], b, f);
    }
  }

  /** Reordering a list does not change its sums: totals read after a sort are the totals before it. */
  lemma {:induction false} SumOfPermutation<T>(a: seq<T>, b: seq<T>, f: T -> int)
    requires multiset(a) == multiset(b)
    ensures SumOf(a, f) == SumOf(b, f)
    decreases |a|
  {
    if a == [] {
      assert |b| == |multiset(b)| == 0;
    } else {
      var x, tail := a[0], a[1..];
      var k := Occurrence(b, x);
      var rest := b[..k] + b[k + 1..];
      MultisetRemove(b, k);
      assert a == [x] + tail;
      assert multiset(tail) == multiset(a) - multiset{x};
      SumOfPermutation(tail, rest, f);
      SumOfRemove(b, k, f);
    }
  }

  /** A position of x in b. */
  lemma Occurrence<T>(b: seq<T>, x: T) returns (k: nat)
    requires x in multiset(b)
    ensures k < |b| && b[k] == x
  {
    k :| 0 <= k < |b| && b[k] == x;
  }

  /** Taking out the entry at k takes one copy of it out of the multiset. */
  lemma MultisetRemove<T>(b: seq<T>, k: nat)
    requires k < |b|
    ensures multiset(b[..k] + b[k + 1..]) == multiset(b) - multiset{b[k]}
  {
    assert b == b[..k] + ([b[k]] + b[k + 1..]);
    assert multiset(b) == multiset(b[..k]) + multiset{b[k]} + multiset(b[k + 1..]);
  }

  /** Taking out the entry at k takes its value out of the sum. */
  lemma SumOfRemove<T>(b: seq<T>, k: nat, f: T -> int)
    requires k < |b|
    ensures SumOf(b, f) == f(b[k]) + SumOf(b[..k] + b[k + 1..], f)
  {
    var p, x, q := b[..k], b[k], b[k + 1..];
    assert b == p + ([x] + q);
    SumOfAppend(p, [x] + q, f);
    assert ([x] + q)[0] == x && ([x] + q)[1..] == q;
    SumOfAppend(p, q, f);
  }

  /** Every entry's key is at least that of every later entry. */
  ghost predicate DescendingBy<T>(s: seq<T>, key: T -> int) {
    forall p, q :: 0 <= p < q < |s| ==> key(s[p]) >= key(s[q])
  }

  /**
   * Sorts in place, largest key first, keeping exactly the same entries: an insertion sort
   * by adjacent swaps, moving each entry left past the entries with a smaller key.
   */
  method SortDescending<T>(a: array<T>, key: T -> int)
    modifies a
    ensures DescendingBy(a[..], key)
    ensures multiset(a[..]) == multiset(old(a[..]))
  {
    var i := 0;
    while i < a.Length
      invariant 0 <= i <= a.Length
      invariant DescendingBy(a[..i], key)
      invariant multiset(a[..]) == multiset(old(a[..]))
    {
      InsertLeft(a, i, key);
      i := i + 1;
    }
    assert a[..a.Length] == a[..];
  }

  /** Moves a[i] left into the descending prefix a[..i]; the entries after i stay where they are. */
  method InsertLeft<T>(a: array<T>, i: nat, key: T -> int)
    requires i < a.Length && DescendingBy(a[..i], key)
    modifies a
    ensures DescendingBy(a[..i + 1], key)
    ensures multiset(a[..]) == multiset(old(a[..]))
  {
    var j := i;
    while j > 0 && key(a[j - 1]) < key(a[j])
      invariant 0 <= j <= i
      invariant forall p, q :: 0 <= p < q <= i && p != j && q != j ==> key(a[p]) >= key(a[q])
      invariant forall q :: j < q <= i ==> key(a[q]) < key(a[j])
      invariant multiset(a[..]) == multiset(old(a[..]))
    {
      Swap(a, j - 1);
      j := j - 1;
    }
  }

  /** Exchanges a[j] and a[j + 1]. */
  method Swap<T>(a: array<T>, j: nat)
    requires j + 1 < a.Length
    modifies a
    ensures a[..] == old(a[..])[j := old(a[j + 1])][j + 1 := old(a[j])]
    ensures multiset(a[..]) == multiset(old(a[..]))
  {
    a[j], a[j + 1] := a[j + 1], a[j];
  }

  /**
   * The first n entries of a descending rearrangement of s are its largest: they come from s,
   * and no entry of s left out of them has a bigger key than any of them.
   */
  lemma TopAreLargest<T>(s: seq<T>, sorted: seq<T>, key: T -> int, n: nat)
    requires multiset(sorted) == multiset(s) && DescendingBy(sorted, key) && n <= |sorted|
    ensures DescendingBy(sorted[..n], key)
    ensures multiset(sorted[..n]) <= multiset(s)
    ensures forall x, y :: x in multiset(s) - multiset(sorted[..n]) && y in sorted[..n] ==> key(x) <= key(y)
  {
    LeftOutAreAfter(s, sorted, n);
    forall x, y | x in multiset(s) - multiset(sorted[..n]) && y in sorted[..n]
      ensures key(x) <= key(y)
    {
      AfterTopIsSmaller(sorted, key, n, x, y);
    }
  }

  /** In a descending list, an entry after the first n has a key no bigger than any of them. */
  lemma AfterTopIsSmaller<T>(sorted: seq<T>, key: T -> int, n: nat, x: T, y: T)
    requires DescendingBy(sorted, key) && n <= |sorted|
    requires x in sorted[n..] && y in sorted[..n]
    ensures key(x) <= key(y)
  {
    var q :| 0 <= q < |sorted| - n && sorted[n..][q] == x;
    var p :| 0 <= p < n && sorted[..n][p] == y;
    assert sorted[n + q] == x && sorted[p] == y;
  }

  /** What the first n entries of a rearrangement of s leave of s is its remaining entries. */
  lemma LeftOutAreAfter<T>(s: seq<T>, sorted: seq<T>, n: nat)
    requires multiset(sorted) == multiset(s) && n <= |sorted|
    ensures multiset(sorted[..n]) <= multiset(s)
    ensures multiset(s) - multiset(sorted[..n]) == multiset(sorted[n..])
  {
    assert sorted == sorted[..n] + sorted[n..];
    assert multiset(sorted) == multiset(sorted[..n]) + multiset(sorted[n..]);
  }
}
