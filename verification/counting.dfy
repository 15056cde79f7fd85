/**
 * Frequency counting as `collections.Counter`, `Series.value_counts()` and a stable
 * descending sort provide it: tallies in first-occurrence order, a sort by a two-level rank,
 * and the "top k by count" that both pipelines report.
 */
module Counting {
  import opened Seqs

  /** One distinct value together with its number of occurrences. */
  datatype Entry<T> = Entry(key: T, count: nat)

  function Count<T(==)>(xs: seq<T>, x: T): nat {
    multiset(xs)[x]
  }

  function Keys<T>(es: seq<Entry<T>>): (ks: seq<T>)
    ensures |ks| == |es|
    ensures forall i :: 0 <= i < |es| ==> ks[i] == es[i].key
  {
    seq(|es|, i requires 0 <= i < |es| => es[i].key)
  }

  predicate DistinctKeys<T(==)>(es: seq<Entry<T>>) {
    forall i, j :: 0 <= i < j < |es| ==> es[i].key != es[j].key
  }

  /** The count recorded for `x`, or 0 when `x` has no entry. */
  function Lookup<T(==)>(es: seq<Entry<T>>, x: T): nat {
    if |es| == 0 then 0 else if es[0].key == x then es[0].count else Lookup(es[1..], x)
  }

  lemma {:induction false} LookupEntry<T>(es: seq<Entry<T>>, i: int)
    requires DistinctKeys(es) && 0 <= i < |es|
    ensures Lookup(es, es[i].key) == es[i].count
    decreases |es|
  {
    if i > 0 {
      LookupEntry(es[1..], i - 1);
    }
  }

  /** Adds one occurrence of `x`: bumps its entry, or appends a new entry at the end. */
  function Bump<T(==,!new)>(es: seq<Entry<T>>, x: T): (r: seq<Entry<T>>)
    requires DistinctKeys(es)
    ensures DistinctKeys(r)
    ensures forall y :: y in Keys(r) <==> y in Keys(es) || y == x
    ensures forall y :: Lookup(r, y) == Lookup(es, y) + (if y == x then 1 else 0)
    ensures forall i :: 0 <= i < |r| ==> r[i].count > 0 || (i < |es| && r[i] == es[i])
  {
    if |es| == 0 then
      assert Keys([Entry(x, 1)]) == [x];
      [Entry(x, 1)]
    else if es[0].key == x then
      HeadKeyFresh(es);
      KeysCons(es[0], es[1..]);
      KeysCons(Entry(x, es[0].count + 1), es[1..]);
      [Entry(x, es[0].count + 1)] + es[1..]
    else
      var r' := Bump(es[1..], x);
      HeadKeyFresh(es);
      KeysCons(es[0], es[1..]);
      KeysCons(es[0], r');
      ConsDistinctKeys(es[0], r');
      [es[0]] + r'
  }

  lemma KeysCons<T>(e: Entry<T>, rest: seq<Entry<T>>)
    ensures Keys([e] + rest) == [e.key] + Keys(rest)
  {
  }

  /** The first key of distinct keys does not come again. */
  lemma HeadKeyFresh<T>(es: seq<Entry<T>>)
    requires |es| > 0 && DistinctKeys(es)
    ensures es[0].key !in Keys(es[1..])
  {
    forall j | 0 <= j < |es| - 1 ensures Keys(es[1..])[j] != es[0].key {
      assert Keys(es[1..])[j] == es[j + 1].key;
    }
  }

  lemma ConsDistinctKeys<T>(e: Entry<T>, rest: seq<Entry<T>>)
    requires DistinctKeys(rest) && e.key !in Keys(rest)
    ensures DistinctKeys([e] + rest)
  {
    var r := [e] + rest;
    forall i, j | 0 <= i < j < |r|
      ensures r[i].key != r[j].key
    {
      if i == 0 {
        assert r[j].key == Keys(rest)[j - 1];
      }
    }
  }

  /** The tally of `xs`: one entry per distinct element, in order of first occurrence. */
  function Tally<T(==,!new)>(xs: seq<T>): (r: seq<Entry<T>>)
    ensures DistinctKeys(r)
    ensures forall x :: x in Keys(r) <==> x in xs
    ensures forall x :: Lookup(r, x) == Count(xs, x)
    ensures forall i :: 0 <= i < |r| ==> r[i].count > 0
  {
    if |xs| == 0 then []
    else
      var init := xs[..|xs| - 1];
      assert xs == init + [xs[|xs| - 1]];
      Bump(Tally(init), xs[|xs| - 1])
  }

  /** Every entry of a tally records the exact number of occurrences of its key. */
  lemma TallyCounts<T(!new)>(xs: seq<T>)
    ensures forall e :: e in Tally(xs) ==> e.count == Count(xs, e.key) && e.key in xs
  {
    forall e | e in Tally(xs)
      ensures e.count == Count(xs, e.key) && e.key in xs
    {
      TallyEntryExact(xs, e);
    }
  }

  lemma TallyEntryExact<T(!new)>(xs: seq<T>, e: Entry<T>)
    requires e in Tally(xs)
    ensures e.count == Count(xs, e.key) && e.key in xs
  {
    var t := Tally(xs);
    var i :| 0 <= i < |t| && t[i] == e;
    LookupEntry(t, i);
    assert Keys(t)[i] == e.key;
  }

  // ---------------------------------------------------------------------------------------------
  // Sorting by a two-level rank, largest first, stable

  /** A sort key compared lexicographically: `major` first, then `minor`. */
  datatype Rank = Rank(major: int, minor: int)

  predicate RankLe(a: Rank, b: Rank) {
    a.major < b.major || (a.major == b.major && a.minor <= b.minor)
  }

  predicate SortedDesc<T>(xs: seq<T>, rank: T -> Rank) {
    forall i, j :: 0 <= i < j < |xs| ==> RankLe(rank(xs[j]), rank(xs[i]))
  }

  /** Places `x` before the first element whose rank does not exceed its own. */
  function InsertDesc<T>(x: T, xs: seq<T>, rank: T -> Rank): (r: seq<T>)
    requires SortedDesc(xs, rank)
    ensures SortedDesc(r, rank)
    ensures multiset(r) == multiset(xs) + multiset{x}
    ensures |r| == |xs| + 1
  {
    if |xs| == 0 || RankLe(rank(xs[0]), rank(x)) then [x] + xs
    else
      var r' := InsertDesc(x, xs[1..], rank);
      assert xs == [xs[0]] + xs[1..];
      forall y | y in r'
        ensures RankLe(rank(y), rank(xs[0]))
      {
        assert y in multiset(r');
        if y != x {
          assert y in multiset(xs[1..]);
        }
      }
      [xs[0]] + r'
  }

  /** `sorted(xs, key=rank, reverse=True)`: a stable sort, largest rank first. */
  function SortDesc<T>(xs: seq<T>, rank: T -> Rank): (r: seq<T>)
    ensures SortedDesc(r, rank)
    ensures multiset(r) == multiset(xs)
    ensures |r| == |xs|
  {
    if |xs| == 0 then []
    else
      assert xs == [xs[0]] + xs[1..];
      InsertDesc(xs[0], SortDesc(xs[1..], rank), rank)
  }

  /** `xs[:k]` for `k >= 0`; the empty answer `heapq.nlargest` gives for `k <= 0`. */
  function Take<T>(xs: seq<T>, k: int): (r: seq<T>)
    ensures |r| == if k <= 0 then 0 else if k < |xs| then k else |xs|
    ensures r == xs[..|r|]
  {
    if k <= 0 then [] else if k < |xs| then xs[..k] else xs
  }

  /** Python's `xs[:k]`: a negative `k` drops that many elements from the end. */
  function SliceTo<T>(xs: seq<T>, k: int): (r: seq<T>)
    ensures |r| == if k >= 0 then (if k < |xs| then k else |xs|) else (if |xs| + k > 0 then |xs| + k else 0)
    ensures r == xs[..|r|]
  {
    if k >= 0 then (if k < |xs| then xs[..k] else xs)
    else if |xs| + k > 0 then xs[..|xs| + k] else []
  }

  /** A prefix of a descending sequence: whatever it leaves out ranks no higher than what it keeps. */
  lemma SliceDropped<T>(xs: seq<T>, k: int, rank: T -> Rank, x: T)
    requires SortedDesc(xs, rank) && x in xs && x !in SliceTo(xs, k)
    ensures |SliceTo(xs, k)| < |xs| && (k >= 0 ==> |SliceTo(xs, k)| == k)
    ensures forall e :: e in SliceTo(xs, k) ==> RankLe(rank(x), rank(e))
  {
    var r := SliceTo(xs, k);
    var i :| 0 <= i < |xs| && xs[i] == x;
    assert i >= |r|;
    forall e | e in r ensures RankLe(rank(x), rank(e)) {
      var j :| 0 <= j < |r| && r[j] == e;
      assert xs[j] == e;
    }
  }

  /** A sequence without repetitions holds each value at most once. */
  lemma {:induction false} DistinctMultiplicity<T>(xs: seq<T>, v: T)
    requires Distinct(xs)
    ensures multiset(xs)[v] <= 1
    decreases |xs|
  {
    if |xs| > 0 {
      assert xs == [xs[0]] + xs[1..];
      DistinctMultiplicity(xs[1..], v);
      if xs[0] == v {
        assert v !in xs[1..];
      }
    }
  }

  /** Any permutation of a sequence without repetitions has none either. */
  lemma DistinctPermutation<T>(a: seq<T>, b: seq<T>)
    requires Distinct(a) && multiset(a) == multiset(b)
    ensures Distinct(b)
  {
    forall i, j | 0 <= i < j < |b|
      ensures b[i] != b[j]
    {
      if b[i] == b[j] {
        assert b == b[..j] + b[j..];
        assert b[i] in b[..j];
        assert multiset(b)[b[i]] == multiset(b[..j])[b[i]] + multiset(b[j..])[b[i]];
        DistinctMultiplicity(a, b[i]);
        assert false;
      }
    }
  }

  function CountRank<T>(e: Entry<T>): Rank {
    Rank(e.count, 0)
  }

  /** The tally of `xs` sorted by count, largest first; ties keep first-occurrence order. */
  function RankedTally<T(==,!new)>(xs: seq<T>): (r: seq<Entry<T>>)
    ensures SortedDesc(r, CountRank)
    ensures DistinctKeys(r)
    ensures forall e :: e in r ==> e.count == Count(xs, e.key) && e.key in xs
    ensures forall x :: x in xs ==> Entry(x, Count(xs, x)) in r
  {
    RankedEntriesExact(xs);
    RankedEntriesComplete(xs);
    RankedKeysDistinct(xs);
    SortDesc(Tally(xs), CountRank)
  }

  lemma RankedEntriesExact<T(!new)>(xs: seq<T>)
    ensures forall e :: e in SortDesc(Tally(xs), CountRank) ==> e.count == Count(xs, e.key) && e.key in xs
  {
    var t := Tally(xs);
    var s := SortDesc(t, CountRank);
    PermutationMembers(t, s);
    forall e | e in s ensures e.count == Count(xs, e.key) && e.key in xs {
      assert e in t;
      TallyEntryExact(xs, e);
    }
  }

  lemma RankedEntriesComplete<T(!new)>(xs: seq<T>)
    ensures forall x :: x in xs ==> Entry(x, Count(xs, x)) in SortDesc(Tally(xs), CountRank)
  {
    TallyEntries(xs);
    PermutationMembers(Tally(xs), SortDesc(Tally(xs), CountRank));
  }

  lemma RankedKeysDistinct<T(!new)>(xs: seq<T>)
    ensures DistinctKeys(SortDesc(Tally(xs), CountRank))
  {
    RankedEntriesExact(xs);
    ExactCountsDistinctKeys(xs, Tally(xs), SortDesc(Tally(xs), CountRank));
  }

  /** Every value of `xs` has its exact-count entry in the tally. */
  lemma TallyEntries<T(!new)>(xs: seq<T>)
    ensures forall x :: x in xs ==> Entry(x, Count(xs, x)) in Tally(xs)
  {
    var t := Tally(xs);
    forall x | x in xs
      ensures Entry(x, Count(xs, x)) in t
    {
      assert x in Keys(t);
      var i :| 0 <= i < |t| && Keys(t)[i] == x;
      LookupEntry(t, i);
    }
  }

  /** Two sequences with the same multiset hold the same elements. */
  lemma PermutationMembers<T>(a: seq<T>, b: seq<T>)
    requires multiset(a) == multiset(b)
    ensures forall e :: e in b <==> e in a
  {
    forall e ensures e in b <==> e in a {
      assert e in b <==> e in multiset(b);
      assert e in a <==> e in multiset(a);
    }
  }

  /** Reordering elements whose keys are distinct keeps the keys distinct. */
  lemma KeysStayDistinct<T, K>(a: seq<T>, b: seq<T>, key: T -> K)
    requires forall i, j :: 0 <= i < j < |a| ==> key(a[i]) != key(a[j])
    requires multiset(a) == multiset(b)
    ensures forall i, j :: 0 <= i < j < |b| ==> key(b[i]) != key(b[j])
  {
    assert Distinct(a);
    DistinctPermutation(a, b);
    PermutationMembers(a, b);
    forall i, j | 0 <= i < j < |b| ensures key(b[i]) != key(b[j]) {
      assert b[i] in b && b[j] in b;
      var i' :| 0 <= i' < |a| && a[i'] == b[i];
      var j' :| 0 <= j' < |a| && a[j'] == b[j];
      assert i' != j';
    }
  }

  /** A permutation of a tally whose entries carry exact counts has distinct keys. */
  lemma ExactCountsDistinctKeys<T(!new)>(xs: seq<T>, t: seq<Entry<T>>, s: seq<Entry<T>>)
    requires DistinctKeys(t) && multiset(t) == multiset(s)
    requires forall e :: e in s ==> e.count == Count(xs, e.key)
    ensures DistinctKeys(s)
  {
    assert Distinct(t) by {
      forall i, j | 0 <= i < j < |t| ensures t[i] != t[j] {
        assert t[i].key != t[j].key;
      }
    }
    DistinctPermutation(t, s);
    forall i, j | 0 <= i < j < |s| ensures s[i].key != s[j].key {
      assert s[i] in s && s[j] in s;
    }
  }

  /**
   * `Counter(xs).most_common(k)` and `Series.value_counts().head(k)`: the (at most) `k`
   * most frequent values with their exact counts, largest count first.
   */
  function TopCounts<T(==,!new)>(xs: seq<T>, k: int): (r: seq<Entry<T>>)
    ensures k <= 0 ==> r == []
    ensures |r| <= |xs|
    ensures k > 0 ==> |r| <= k
    ensures DistinctKeys(r)
    ensures SortedDesc(r, CountRank)
    ensures forall e :: e in r ==> e.count == Count(xs, e.key) && e.count > 0 && e.key in xs
    ensures forall x :: k > 0 && x in xs && x !in Keys(r) ==>
              |r| == k && forall e :: e in r ==> Count(xs, x) <= e.count
  {
    TallyLength(xs);
    var r := Take(RankedTally(xs), k);
    TopCountsComplete(xs, k);
    r
  }

  /** A value left out of the top `k` is outnumbered by every value that made it in. */
  lemma TopCountsComplete<T(!new)>(xs: seq<T>, k: int)
    ensures forall x :: k > 0 && x in xs && x !in Keys(Take(RankedTally(xs), k)) ==>
              |Take(RankedTally(xs), k)| == k &&
              forall e :: e in Take(RankedTally(xs), k) ==> Count(xs, x) <= e.count
  {
    var s := RankedTally(xs);
    var r := Take(s, k);
    forall x | k > 0 && x in xs && x !in Keys(r)
      ensures |r| == k && forall e :: e in r ==> Count(xs, x) <= e.count
    {
      var i :| 0 <= i < |s| && s[i] == Entry(x, Count(xs, x));
      assert forall j :: 0 <= j < |r| ==> Keys(r)[j] != x;
      assert forall j :: 0 <= j < |r| ==> r[j] == s[j];
      assert i >= |r|;
      forall e | e in r ensures Count(xs, x) <= e.count {
        var j :| 0 <= j < |r| && r[j] == e;
        assert RankLe(CountRank(s[i]), CountRank(s[j]));
      }
    }
  }

  /** A tally never has more entries than the sequence has elements. */
  lemma {:induction false} TallyLength<T(!new)>(xs: seq<T>)
    ensures |Tally(xs)| <= |xs|
    decreases |xs|
  {
    if |xs| > 0 {
      var init := xs[..|xs| - 1];
      TallyLength(init);
      BumpLength(Tally(init), xs[|xs| - 1]);
    }
  }

  lemma {:induction false} BumpLength<T(!new)>(es: seq<Entry<T>>, x: T)
    requires DistinctKeys(es)
    ensures |Bump(es, x)| <= |es| + 1
    decreases |es|
  {
    if |es| > 0 && es[0].key != x {
      BumpLength(es[1..], x);
    }
  }

  // ---------------------------------------------------------------------------------------------
  // Counts per integer key (months), in ascending key order

  /** Points in strictly ascending month order. */
  predicate Ascending(pts: seq<Entry<int>>) {
    forall i, j :: 0 <= i < j < |pts| ==> pts[i].key < pts[j].key
  }

  predicate AllPositive(pts: seq<Entry<int>>) {
    forall i :: 0 <= i < |pts| ==> pts[i].count > 0
  }

  /** The sum of the counts of a series. */
  function Total(pts: seq<Entry<int>>): nat {
    if |pts| == 0 then 0 else pts[0].count + Total(pts[1..])
  }

  /** A month below every key of an ascending series has no point in it. */
  lemma {:induction false} LookupBelow(pts: seq<Entry<int>>, m: int)
    requires Ascending(pts) && (|pts| == 0 || m < pts[0].key)
    ensures Lookup(pts, m) == 0
    decreases |pts|
  {
    if |pts| > 1 {
      assert pts[0].key < pts[1].key;
      LookupBelow(pts[1..], m);
    }
  }

  /** Adds one posting in month `m` to an ascending series. */
  function AddMonth(m: int, pts: seq<Entry<int>>): (r: seq<Entry<int>>)
    requires Ascending(pts) && AllPositive(pts)
    ensures Ascending(r) && AllPositive(r)
    ensures Total(r) == Total(pts) + 1
    ensures forall k :: Lookup(r, k) == Lookup(pts, k) + (if k == m then 1 else 0)
    ensures |r| > 0 && (r[0].key == m || (|pts| > 0 && r[0].key == pts[0].key))
    decreases |pts|, 1
  {
    if |pts| == 0 then [Entry(m, 1)]
    else if pts[0].key == m then [Entry(m, pts[0].count + 1)] + pts[1..]
    else if m < pts[0].key then
      LookupBelow(pts, m);
      [Entry(m, 1)] + pts
    else
      AddAfter(m, pts)
  }

  /** The case of `AddMonth` where `m` comes after the first point. */
  function AddAfter(m: int, pts: seq<Entry<int>>): (r: seq<Entry<int>>)
    requires Ascending(pts) && AllPositive(pts) && |pts| > 0 && pts[0].key < m
    ensures Ascending(r) && AllPositive(r)
    ensures Total(r) == Total(pts) + 1
    ensures forall k :: Lookup(r, k) == Lookup(pts, k) + (if k == m then 1 else 0)
    ensures |r| > 0 && r[0] == pts[0]
    decreases |pts|, 0
  {
    var r' := AddMonth(m, pts[1..]);
    assert forall i :: 0 < i < |pts| ==> pts[0].key < pts[i].key;
    var r := [pts[0]] + r';
    assert r[1..] == r';
    r
  }

  /** `groupby(month).size()`: one point per month, ascending, with the number of postings. */
  function MonthCounts(ms: seq<int>): (r: seq<Entry<int>>)
    ensures Ascending(r) && AllPositive(r)
    ensures Total(r) == |ms|
    ensures forall k :: Lookup(r, k) == Count(ms, k)
  {
    if |ms| == 0 then []
    else
      assert ms == [ms[0]] + ms[1..];
      AddMonth(ms[0], MonthCounts(ms[1..]))
  }
}
