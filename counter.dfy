/**
 * `collections.Counter` as both analyzers use it: the keys in insertion
 * order, the count of each key, and `most_common(n)`, which sorts the keys
 * by descending count with a stable sort (ties keep insertion order) and
 * keeps the first `n`.
 */
module Counter {

  /** How many times `x` occurs in `xs`. */
  function Count(xs: seq<string>, x: string): nat {
    multiset(xs)[x]
  }

  predicate NoDuplicates(s: seq<string>) {
    forall i, j :: 0 <= i < j < |s| ==> s[i] != s[j]
  }

  /** The position of the first occurrence of `x` in `xs`, or `|xs|` when there is none. */
  function FirstIndex(xs: seq<string>, x: string): (k: nat)
    ensures k <= |xs| && x !in xs[..k]
    ensures k < |xs| <==> x in xs
    ensures k < |xs| ==> xs[k] == x
  {
    if xs == [] then 0
    else if xs[0] == x then 0
    else
      var k := FirstIndex(xs[1..], x);
      assert xs[..k + 1] == [xs[0]] + xs[1..][..k];
      1 + k
  }

  lemma FirstIndexUnique(xs: seq<string>, x: string, k: nat)
    requires k < |xs| && xs[k] == x && x !in xs[..k]
    ensures FirstIndex(xs, x) == k
  {
    var f := FirstIndex(xs, x);
    assert forall i :: 0 <= i < k ==> xs[..k][i] == xs[i];
    assert forall i :: 0 <= i < f ==> xs[..f][i] == xs[i];
  }

  /** A key's first position does not move when more elements are appended. */
  lemma FirstIndexPrefix(xs: seq<string>, n: nat, x: string)
    requires n <= |xs| && x in xs[..n]
    ensures x in xs && FirstIndex(xs, x) == FirstIndex(xs[..n], x)
  {
    var k := FirstIndex(xs[..n], x);
    assert xs[..n][..k] == xs[..k];
    FirstIndexUnique(xs, x, k);
  }

  /**
   * The keys of `Counter(xs)` in insertion order: every element of `xs`
   * once, placed where it first occurs. The same rule de-duplicates a list
   * by appending only names not already present.
   */
  function Distinct(xs: seq<string>): (r: seq<string>)
    ensures |r| <= |xs|
    ensures NoDuplicates(r)
    ensures xs != [] ==> r != []
  {
    if xs == [] then []
    else
      var d := Distinct(xs[..|xs| - 1]);
      var x := xs[|xs| - 1];
      if x in d then d else d + [x]
  }

  /** Every element of `xs` is a key, exactly once. */
  lemma {:induction false} DistinctKeys(xs: seq<string>)
    ensures forall x :: x in Distinct(xs) <==> x in xs
    ensures NoDuplicates(Distinct(xs))
    decreases |xs|
  {
    if xs != [] {
      var init := xs[..|xs| - 1];
      assert xs == init + [xs[|xs| - 1]];
      DistinctKeys(init);
    }
  }

  /** One more element: the keys gain it at the end unless it is already a key. */
  lemma DistinctSnoc(xs: seq<string>, x: string)
    ensures Distinct(xs + [x]) == if x in Distinct(xs) then Distinct(xs) else Distinct(xs) + [x]
  {
    assert (xs + [x])[..|xs|] == xs;
  }

  /** The keys come in the order of their first occurrences. */
  lemma {:induction false} DistinctFirstSeenOrder(xs: seq<string>)
    ensures forall i, j :: 0 <= i < j < |Distinct(xs)| ==>
      FirstIndex(xs, Distinct(xs)[i]) < FirstIndex(xs, Distinct(xs)[j])
    decreases |xs|
  {
    if xs != [] {
      var n := |xs| - 1;
      var init := xs[..n];
      var x := xs[n];
      var d := Distinct(init);
      DistinctFirstSeenOrder(init);
      DistinctKeys(init);
      assert xs == init + [x];
      forall y | y in d ensures FirstIndex(xs, y) == FirstIndex(init, y) < n {
        FirstIndexPrefix(xs, n, y);
      }
      if x !in d {
        assert x !in xs[..n];
        FirstIndexUnique(xs, x, n);
        assert Distinct(xs) == d + [x];
      }
    }
  }

  /**
   * The order `most_common` ranks keys by: a higher count first, and among
   * equal counts the key that occurred first in `xs`.
   */
  predicate Precedes(xs: seq<string>, a: string, b: string) {
    a in xs && b in xs &&
    (Count(xs, a) > Count(xs, b) ||
     (Count(xs, a) == Count(xs, b) && FirstIndex(xs, a) < FirstIndex(xs, b)))
  }

  /** Stable insertion by descending count: `x` goes before the first element whose count is not larger. */
  function InsertByCount(xs: seq<string>, x: string, s: seq<string>): (r: seq<string>)
    ensures multiset(r) == multiset(s) + multiset{x}
  {
    if s == [] || Count(xs, s[0]) <= Count(xs, x) then [x] + s
    else
      assert s == [s[0]] + s[1..];
      [s[0]] + InsertByCount(xs, x, s[1..])
  }

  /** `sorted(items, key=count, reverse=True)`: a stable sort by descending count. */
  function SortByCount(xs: seq<string>, items: seq<string>): (r: seq<string>)
    ensures multiset(r) == multiset(items)
  {
    if items == [] then []
    else
      assert items == [items[0]] + items[1..];
      InsertByCount(xs, items[0], SortByCount(xs, items[1..]))
  }

  predicate RankedBy(xs: seq<string>, s: seq<string>) {
    forall i, j :: 0 <= i < j < |s| ==> Precedes(xs, s[i], s[j])
  }

  /** Putting in front an element that precedes all of a ranked list keeps it ranked. */
  lemma RankedCons(xs: seq<string>, a: string, s: seq<string>)
    requires RankedBy(xs, s)
    requires forall k :: 0 <= k < |s| ==> Precedes(xs, a, s[k])
    ensures RankedBy(xs, [a] + s)
  {
    var r := [a] + s;
    forall i, j | 0 <= i < j < |r| ensures Precedes(xs, r[i], r[j]) {
      assert r[j] == s[j - 1];
      if i > 0 {
        assert r[i] == s[i - 1];
      }
    }
  }

  lemma {:induction false} InsertByCountRanked(xs: seq<string>, x: string, s: seq<string>)
    requires x in xs && RankedBy(xs, s)
    requires forall y :: y in s ==> y in xs && FirstIndex(xs, x) < FirstIndex(xs, y)
    ensures RankedBy(xs, InsertByCount(xs, x, s))
    decreases |s|
  {
    if s == [] || Count(xs, s[0]) <= Count(xs, x) {
      forall j | 0 <= j < |s| ensures Precedes(xs, x, s[j]) {
        assert j > 0 ==> Precedes(xs, s[0], s[j]);
        assert s[j] in s;
      }
      RankedCons(xs, x, s);
    } else {
      var tail := InsertByCount(xs, x, s[1..]);
      assert RankedBy(xs, s[1..]) by {
        forall i, j | 0 <= i < j < |s| - 1 ensures Precedes(xs, s[1..][i], s[1..][j]) {
          assert s[1..][i] == s[i + 1] && s[1..][j] == s[j + 1];
        }
      }
      forall y | y in s[1..] ensures y in xs && FirstIndex(xs, x) < FirstIndex(xs, y) {
        assert y in s;
      }
      InsertByCountRanked(xs, x, s[1..]);
      forall k | 0 <= k < |tail| ensures Precedes(xs, s[0], tail[k]) {
        assert tail[k] in multiset(s[1..]) + multiset{x};
        if tail[k] != x {
          assert tail[k] in multiset(s[1..]);
          var m :| 0 <= m < |s| - 1 && s[1..][m] == tail[k];
          assert s[m + 1] == tail[k];
        }
      }
      RankedCons(xs, s[0], tail);
    }
  }

  /**
   * Sorting keys that are listed in first-occurrence order by count alone,
   * stably, ranks them by `Precedes`.
   */
  lemma {:induction false} SortByCountRanked(xs: seq<string>, items: seq<string>)
    requires forall y :: y in items ==> y in xs
    requires forall i, j :: 0 <= i < j < |items| ==> FirstIndex(xs, items[i]) < FirstIndex(xs, items[j])
    ensures RankedBy(xs, SortByCount(xs, items))
    decreases |items|
  {
    if items != [] {
      var rest := items[1..];
      SortByCountRanked(xs, rest);
      var sorted := SortByCount(xs, rest);
      forall y | y in sorted ensures y in xs && FirstIndex(xs, items[0]) < FirstIndex(xs, y) {
        assert y in multiset(rest);
        var m :| 0 <= m < |rest| && rest[m] == y;
        assert items[m + 1] == y;
      }
      InsertByCountRanked(xs, items[0], sorted);
    }
  }

  /** Every element past the first `k` of a ranked list ranks below all of the first `k`. */
  lemma RankedPrefixIsTop(xs: seq<string>, ranked: seq<string>, k: nat)
    requires RankedBy(xs, ranked) && k <= |ranked|
    ensures forall x, i :: x in ranked && x !in ranked[..k] && 0 <= i < k ==> Precedes(xs, ranked[i], x)
  {
    forall x, i | x in ranked && x !in ranked[..k] && 0 <= i < k ensures Precedes(xs, ranked[i], x) {
      var p :| 0 <= p < |ranked| && ranked[p] == x;
      assert forall q :: 0 <= q < k ==> ranked[..k][q] == ranked[q];
      assert k <= p;
    }
  }

  /** The first `k` elements of a ranking of all keys of `xs` are the top `k` keys. */
  lemma RankedPrefix(xs: seq<string>, ranked: seq<string>, k: nat)
    requires RankedBy(xs, ranked) && k <= |ranked|
    requires forall x :: x in ranked <==> x in xs
    ensures NoDuplicates(ranked[..k])
    ensures forall x :: x in ranked[..k] ==> x in xs
    ensures RankedBy(xs, ranked[..k])
    ensures k == |ranked| ==> forall x :: x in xs ==> x in ranked[..k]
    ensures forall x, i :: x in xs && x !in ranked[..k] && 0 <= i < k ==> Precedes(xs, ranked[..k][i], x)
  {
    var r := ranked[..k];
    assert forall q :: 0 <= q < k ==> r[q] == ranked[q];
    RankedPrefixIsTop(xs, ranked, k);
    assert k == |ranked| ==> r == ranked;
  }

  /**
   * `Counter(xs).most_common(n)` as a list of keys. A non-positive `n` gives
   * the empty list.
   */
  function MostCommon(xs: seq<string>, n: int): (r: seq<string>)
    ensures |r| <= n || |r| == 0
    ensures |r| < n ==> forall x :: x in xs ==> x in r
    ensures NoDuplicates(r)
    ensures forall x :: x in r ==> x in xs
    ensures RankedBy(xs, r)
    ensures forall x, i :: x in xs && x !in r && 0 <= i < |r| ==> Precedes(xs, r[i], x)
  {
    var keys := Distinct(xs);
    var ranked := SortByCount(xs, keys);
    DistinctKeys(xs);
    DistinctFirstSeenOrder(xs);
    SortByCountRanked(xs, keys);
    assert forall x :: x in ranked <==> x in multiset(keys);
    var k := if n <= 0 then 0 else if n < |ranked| then n else |ranked|;
    RankedPrefix(xs, ranked, k);
    ranked[..k]
  }
}
