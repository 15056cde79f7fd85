/** Sequence helpers: list comprehensions with a condition, first matches, flattening. */
module Seqs {
  import opened Base

  predicate Distinct<T(==)>(xs: seq<T>) {
    forall i, j :: 0 <= i < j < |xs| ==> xs[i] != xs[j]
  }

  /** `[x for x in xs if p(x)]`. */
  function Filter<T(!new)>(xs: seq<T>, p: T -> bool): (r: seq<T>)
    ensures |r| <= |xs|
    ensures forall x :: x in r <==> x in xs && p(x)
    ensures forall i :: 0 <= i < |r| ==> p(r[i])
  {
    if |xs| == 0 then []
    else (if p(xs[0]) then [xs[0]] else []) + Filter(xs[1..], p)
  }

  /** Index of the first element satisfying `p`, or `|xs|` when there is none. */
  function FirstWhere<T>(xs: seq<T>, p: T -> bool): (i: nat)
    ensures i <= |xs|
    ensures forall j :: 0 <= j < i ==> !p(xs[j])
    ensures i < |xs| ==> p(xs[i])
  {
    if |xs| == 0 then 0 else if p(xs[0]) then 0 else 1 + FirstWhere(xs[1..], p)
  }

  /** The head of a filtered list is the first element that passes the filter. */
  lemma {:induction false} FilterHead<T(!new)>(xs: seq<T>, p: T -> bool)
    ensures |Filter(xs, p)| > 0 <==> FirstWhere(xs, p) < |xs|
    ensures |Filter(xs, p)| > 0 ==> Filter(xs, p)[0] == xs[FirstWhere(xs, p)]
    decreases |xs|
  {
    if |xs| > 0 && !p(xs[0]) {
      FilterHead(xs[1..], p);
    }
  }

  /** Position of the first occurrence of `x` (Python's `list.index`). */
  function FirstIndex<T(==)>(xs: seq<T>, x: T): (i: nat)
    requires x in xs
    ensures i < |xs| && xs[i] == x
    ensures forall j :: 0 <= j < i ==> xs[j] != x
  {
    if xs[0] == x then 0 else 1 + FirstIndex(xs[1..], x)
  }

  /** The concatenation of all inner sequences, in order. */
  function Flatten<T>(xss: seq<seq<T>>): seq<T> {
    if |xss| == 0 then [] else xss[0] + Flatten(xss[1..])
  }

  /** Keeps the first occurrence of every element that is not already in `seen`, in order. */
  function DedupeFrom<T(==,!new)>(xs: seq<T>, seen: set<T>): (r: seq<T>)
    ensures Distinct(r)
    ensures forall y :: y in r <==> y in xs && y !in seen
  {
    if |xs| == 0 then []
    else if xs[0] in seen then DedupeFrom(xs[1..], seen)
    else
      var rest := DedupeFrom(xs[1..], seen + {xs[0]});
      assert xs[0] !in rest;
      [xs[0]] + rest
  }

  /** De-duplication keeps the kept elements in the order of their first occurrences. */
  lemma {:induction false} DedupeOrder<T(!new)>(xs: seq<T>, seen: set<T>)
    ensures forall i, j :: 0 <= i < j < |DedupeFrom(xs, seen)| ==>
              FirstIndex(xs, DedupeFrom(xs, seen)[i]) < FirstIndex(xs, DedupeFrom(xs, seen)[j])
    decreases |xs|
  {
    if |xs| > 0 {
      if xs[0] in seen {
        var r := DedupeFrom(xs[1..], seen);
        DedupeOrder(xs[1..], seen);
        forall i, j | 0 <= i < j < |r|
          ensures r[i] in xs && r[j] in xs && FirstIndex(xs, r[i]) < FirstIndex(xs, r[j])
        {
          assert r[i] in xs[1..] && r[j] in xs[1..];
          FirstIndexTail(xs, r[i]);
          FirstIndexTail(xs, r[j]);
        }
      } else {
        var rest := DedupeFrom(xs[1..], seen + {xs[0]});
        var r := [xs[0]] + rest;
        DedupeOrder(xs[1..], seen + {xs[0]});
        forall i, j | 0 <= i < j < |r|
          ensures r[i] in xs && r[j] in xs && FirstIndex(xs, r[i]) < FirstIndex(xs, r[j])
        {
          assert r[j] == rest[j - 1] && r[j] in xs[1..] && r[j] != xs[0];
          FirstIndexTail(xs, r[j]);
          if i > 0 {
            assert r[i] == rest[i - 1] && r[i] in xs[1..] && r[i] != xs[0];
            FirstIndexTail(xs, r[i]);
          }
        }
      }
    }
  }

  /** Past the head, positions in the tail are one less than positions in the whole. */
  lemma FirstIndexTail<T>(xs: seq<T>, x: T)
    requires |xs| > 0 && x in xs[1..] && x != xs[0]
    ensures FirstIndex(xs, x) == 1 + FirstIndex(xs[1..], x)
  {
  }

  /** Without repetitions, de-duplication changes nothing. */
  lemma {:induction false} DedupeDistinct<T(!new)>(xs: seq<T>, seen: set<T>)
    requires Distinct(xs) && forall x :: x in xs ==> x !in seen
    ensures DedupeFrom(xs, seen) == xs
    decreases |xs|
  {
    if |xs| > 0 {
      assert xs[0] in xs;
      var seen' := seen + {xs[0]};
      assert Distinct(xs[1..]);
      assert forall x :: x in xs[1..] ==> x !in seen' by {
        forall x | x in xs[1..] ensures x !in seen' {
          var k :| 0 <= k < |xs[1..]| && xs[1..][k] == x;
          assert xs[k + 1] == x;
        }
      }
      DedupeDistinct(xs[1..], seen');
      assert DedupeFrom(xs, seen) == [xs[0]] + DedupeFrom(xs[1..], seen');
      assert xs == [xs[0]] + xs[1..];
    }
  }

  /** `max([x for x in xs if p(x)], key=size)`: the first of the largest passing elements. */
  function MaxWhere<T(==,!new)>(xs: seq<T>, p: T -> bool, size: T -> int): (r: Option<T>)
    ensures r.None? <==> forall x :: x in xs ==> !p(x)
    ensures r.Some? ==> r.value in xs && p(r.value)
    ensures r.Some? ==> forall x :: x in xs && p(x) ==> size(x) <= size(r.value)
    ensures r.Some? ==> forall j :: 0 <= j < FirstIndex(xs, r.value) ==>
              !p(xs[j]) || size(xs[j]) < size(r.value)
  {
    if |xs| == 0 then None
    else
      var b := MaxWhere(xs[1..], p, size);
      if !p(xs[0]) then
        assert b.Some? ==> b.value != xs[0];
        b
      else if b.Some? && size(b.value) > size(xs[0]) then
        b
      else
        Some(xs[0])
  }

  /**
   * A left-to-right scan over the elements that pass `keep`, replacing the current best
   * whenever an element scores strictly higher: the first element of the highest score wins.
   */
  function ArgMaxFrom<T(==,!new)>(xs: seq<T>, keep: T -> bool, score: T -> real,
                                  best: Option<T>, bestScore: real): (r: (Option<T>, real))
    ensures r.1 >= bestScore
    ensures forall x :: x in xs && keep(x) ==> score(x) <= r.1
    ensures r.1 == bestScore ==> r.0 == best
    ensures r.1 > bestScore ==>
              && r.0.Some? && r.0.value in xs && keep(r.0.value) && score(r.0.value) == r.1
              && forall j :: 0 <= j < FirstIndex(xs, r.0.value) ==> !keep(xs[j]) || score(xs[j]) < r.1
  {
    if |xs| == 0 then (best, bestScore)
    else if !keep(xs[0]) then
      var r := ArgMaxFrom(xs[1..], keep, score, best, bestScore);
      assert r.1 > bestScore ==> r.0.value != xs[0];
      r
    else if score(xs[0]) > bestScore then
      var r := ArgMaxFrom(xs[1..], keep, score, Some(xs[0]), score(xs[0]));
      assert r.1 > score(xs[0]) ==> r.0.value != xs[0];
      r
    else
      var r := ArgMaxFrom(xs[1..], keep, score, best, bestScore);
      assert r.1 > bestScore ==> r.0.value != xs[0];
      r
  }
}
