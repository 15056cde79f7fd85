/**
 * Building blocks for the small regular expressions of the query parser, written as scanners
 * that follow the backtracking order of Python's `re`: a search tries start positions from the
 * left, a greedy `\s+` is tried longest first, and a lazy `(.+?)` is tried shortest first.
 */
module Scanning {
  import opened Base
  import opened Strings

  /** The first `i` in [lo, hi) at which `f` succeeds, with its value. */
  function FirstIn<R>(lo: int, hi: int, f: int -> Option<R>): (r: Option<(int, R)>)
    ensures r.None? ==> forall i :: lo <= i < hi ==> f(i).None?
    ensures r.Some? ==> lo <= r.value.0 < hi && f(r.value.0) == Some(r.value.1)
    ensures r.Some? ==> forall i :: lo <= i < r.value.0 ==> f(i).None?
    decreases hi - lo
  {
    if lo >= hi then None
    else
      match f(lo)
      case Some(v) => Some((lo, v))
      case None => FirstIn(lo + 1, hi, f)
  }

  /** The last `i` in [lo, hi) at which `f` succeeds, with its value. */
  function LastIn<R>(lo: int, hi: int, f: int -> Option<R>): (r: Option<(int, R)>)
    ensures r.None? ==> forall i :: lo <= i < hi ==> f(i).None?
    ensures r.Some? ==> lo <= r.value.0 < hi && f(r.value.0) == Some(r.value.1)
    ensures r.Some? ==> forall i :: r.value.0 < i < hi ==> f(i).None?
    decreases hi - lo
  {
    if lo >= hi then None
    else
      match f(hi - 1)
      case Some(v) => Some((hi - 1, v))
      case None => LastIn(lo, hi - 1, f)
  }

  /** Where `f` succeeds at `i`, `FirstIn` finds `i` or an earlier position. */
  lemma FirstInBest<R>(lo: int, hi: int, f: int -> Option<R>, i: int)
    requires lo <= i < hi && f(i).Some?
    ensures FirstIn(lo, hi, f).Some? && FirstIn(lo, hi, f).value.0 <= i
    ensures FirstIn(lo, hi, f).value.0 == i ==> FirstIn(lo, hi, f).value.1 == f(i).value
  {
  }

  // ---------------------------------------------------------------------------------------------
  // Runs of one character class

  predicate AllSpaceIn(q: string, i: int, k: int) {
    0 <= i <= k <= |q| && forall j :: i <= j < k ==> IsSpace(q[j])
  }

  predicate AllDigitIn(q: string, i: int, k: int) {
    0 <= i <= k <= |q| && forall j :: i <= j < k ==> IsDigit(q[j])
  }

  /** End of the longest run of whitespace that starts at `i`. */
  function WsEnd(q: string, i: nat): (k: nat)
    requires i <= |q|
    ensures AllSpaceIn(q, i, k)
    ensures k < |q| ==> !IsSpace(q[k])
    decreases |q| - i
  {
    if i < |q| && IsSpace(q[i]) then WsEnd(q, i + 1) else i
  }

  /** End of the longest run of ASCII digits that starts at `i`. */
  function DigitEnd(q: string, i: nat): (k: nat)
    requires i <= |q|
    ensures AllDigitIn(q, i, k)
    ensures k < |q| ==> !IsDigit(q[k])
    decreases |q| - i
  {
    if i < |q| && IsDigit(q[i]) then DigitEnd(q, i + 1) else i
  }

  /** Every whitespace run from `i` stays within the longest one. */
  lemma SpaceRunWithin(q: string, i: nat, k: int)
    requires i <= |q| && AllSpaceIn(q, i, k)
    ensures k <= WsEnd(q, i)
  {
  }

  /** A whitespace run followed by a non-space is the longest run: `\s+` cannot stop early there. */
  lemma SpaceRunForced(q: string, i: nat, k: nat)
    requires i <= |q| && AllSpaceIn(q, i, k) && k < |q| && !IsSpace(q[k])
    ensures k == WsEnd(q, i)
  {
    SpaceRunWithin(q, i, k);
  }

  /** A digit run followed by a non-digit is the longest run: `\d+` cannot stop early there. */
  lemma DigitRunForced(q: string, i: nat, k: nat)
    requires i <= |q| && AllDigitIn(q, i, k) && (k == |q| || !IsDigit(q[k]))
    ensures k == DigitEnd(q, i)
  {
  }

  // ---------------------------------------------------------------------------------------------
  // Literals, anchors and `.`

  /** `kw` at `p`, ignoring ASCII case (a lower-case literal under `re.IGNORECASE`). */
  predicate KeywordAt(q: string, p: int, kw: string) {
    0 <= p && p + |kw| <= |q| && forall j :: 0 <= j < |kw| ==> LowerChar(q[p + j]) == kw[j]
  }

  /** A keyword that starts with a letter does not start with whitespace. */
  lemma KeywordNotSpace(q: string, p: int, kw: string)
    requires KeywordAt(q, p, kw) && |kw| > 0 && IsLowerAscii(kw[0])
    ensures !IsSpace(q[p])
  {
    assert LowerChar(q[p]) == kw[0];
  }

  /** Where a keyword has a letter, the text has a word character. */
  lemma KeywordWordChar(q: string, p: int, kw: string, j: int)
    requires KeywordAt(q, p, kw) && 0 <= j < |kw| && IsLowerAscii(kw[j])
    ensures IsWordChar(q[p + j])
  {
    assert LowerChar(q[p + j]) == kw[j];
  }

  /** The `\s+` before a keyword that starts with a letter is the whole whitespace run. */
  lemma RunBeforeKeyword(q: string, e: int, c: int, kw: string)
    requires e < c && AllSpaceIn(q, e, c) && KeywordAt(q, c, kw) && |kw| > 0 && IsLowerAscii(kw[0])
    ensures WsEnd(q, e) == c
  {
    KeywordNotSpace(q, c, kw);
    SpaceRunForced(q, e, c);
  }

  /** `$` without `re.MULTILINE`: the end of the string, or just before a final line feed. */
  predicate AtEnd(q: string, e: int) {
    e == |q| || (0 <= e == |q| - 1 && q[e] == '\n')
  }

  /** Position of the first line feed at or after `i`, or `|q|` when there is none. */
  function NextNewline(q: string, i: nat): (k: nat)
    requires i <= |q|
    ensures i <= k <= |q|
    ensures forall j :: i <= j < k ==> q[j] != '\n'
    ensures k < |q| ==> q[k] == '\n'
    decreases |q| - i
  {
    if i < |q| && q[i] != '\n' then NextNewline(q, i + 1) else i
  }

  /** `.+` over [s, e): at least one character and no line feed (`.` does not match `\n`). */
  predicate DotRun(q: string, s: int, e: int) {
    0 <= s < e <= |q| && forall k :: s <= k < e ==> q[k] != '\n'
  }

  lemma DotRunBound(q: string, s: nat, e: int)
    requires s <= |q|
    ensures DotRun(q, s, e) <==> s < e <= NextNewline(q, s)
  {
  }

  // ---------------------------------------------------------------------------------------------
  // Lazy groups

  /**
   * A lazy `(.+?)` starting at `s` and followed by `tail`, with the ends before `e` already
   * tried: the first end from `e` on, within the line, after which `tail` succeeds.
   */
  function LazyFrom<R>(q: string, s: nat, e: int, tail: int -> Option<R>): (r: Option<(int, R)>)
    requires s < e <= |q| + 1 && forall k :: s <= k < e - 1 ==> q[k] != '\n'
    ensures r.Some? ==> e <= r.value.0 && DotRun(q, s, r.value.0) && tail(r.value.0) == Some(r.value.1)
    ensures r.Some? ==> forall e' :: e <= e' < r.value.0 ==> tail(e').None?
    ensures r.None? ==> forall e' {:trigger DotRun(q, s, e')} :: e <= e' && DotRun(q, s, e') ==> tail(e').None?
    decreases |q| + 1 - e
  {
    if e > |q| || q[e - 1] == '\n' then None
    else
      match tail(e)
      case Some(v) => Some((e, v))
      case None => LazyFrom(q, s, e + 1, tail)
  }

  /** A lazy `(.+?)` starting at `s` and followed by `tail`: the shortest group after which `tail` succeeds. */
  function LazyEnd<R>(q: string, s: nat, tail: int -> Option<R>): (r: Option<(int, R)>)
    requires s <= |q|
    ensures r.Some? ==> DotRun(q, s, r.value.0) && tail(r.value.0) == Some(r.value.1)
    ensures r.Some? ==> forall e :: s < e < r.value.0 ==> tail(e).None?
    ensures r.None? ==> forall e {:trigger DotRun(q, s, e)} :: DotRun(q, s, e) ==> tail(e).None?
  {
    LazyFrom(q, s, s + 1, tail)
  }

  /** `\s+(.+?)` from `i`: whitespace over [i, s), then the group over [s, e). */
  predicate SpacedGroup(q: string, i: int, s: int, e: int) {
    i < s && AllSpaceIn(q, i, s) && DotRun(q, s, e)
  }

  /**
   * `\s+(.+?)` from `i` followed by `tail`, with the group starts after `s` already tried: the
   * whitespace as long as possible, then the group as short as possible.
   */
  function SpacedFrom<R>(q: string, i: nat, s: nat, tail: int -> Option<R>): (r: Option<(int, int, R)>)
    requires i <= s <= |q| && AllSpaceIn(q, i, s)
    ensures r.Some? ==> r.value.0 <= s && SpacedGroup(q, i, r.value.0, r.value.1) && tail(r.value.1) == Some(r.value.2)
    ensures r.None? ==> forall s', e {:trigger SpacedGroup(q, i, s', e)} :: s' <= s && SpacedGroup(q, i, s', e) ==> tail(e).None?
    ensures r.Some? ==> forall s', e {:trigger SpacedGroup(q, i, s', e)} :: s' <= s && SpacedGroup(q, i, s', e) && tail(e).Some? ==>
              s' < r.value.0 || (s' == r.value.0 && r.value.1 <= e)
    decreases s
  {
    if s <= i then None
    else
      match LazyEnd(q, s, tail)
      case Some((e, v)) => Some((s, e, v))
      case None => SpacedFrom(q, i, s - 1, tail)
  }

  /**
   * `\s+(.+?)` from `i` followed by `tail`, in backtracking order: the whitespace run as long
   * as possible, then the group as short as possible. The result is the group's start and end
   * and the value `tail` produced.
   */
  function SpacedLazy<R>(q: string, i: nat, tail: int -> Option<R>): (r: Option<(int, int, R)>)
    requires i <= |q|
    ensures r.Some? ==> SpacedGroup(q, i, r.value.0, r.value.1) && tail(r.value.1) == Some(r.value.2)
    ensures r.None? ==> forall s, e {:trigger SpacedGroup(q, i, s, e)} :: SpacedGroup(q, i, s, e) ==> tail(e).None?
    ensures r.Some? ==> forall s, e {:trigger SpacedGroup(q, i, s, e)} :: SpacedGroup(q, i, s, e) && tail(e).Some? ==>
              s < r.value.0 || (s == r.value.0 && r.value.1 <= e)
  {
    var w := WsEnd(q, i);
    forall s | AllSpaceIn(q, i, s) ensures s <= w {
      SpaceRunWithin(q, i, s);
    }
    SpacedFrom(q, i, w, tail)
  }

  /** A match of `\s+(.+?)` followed by `tail` is found by `SpacedLazy`, or one it prefers. */
  lemma SpacedLazyBest<R>(q: string, i: nat, s: int, e: int, tail: int -> Option<R>)
    requires i <= |q| && SpacedGroup(q, i, s, e) && tail(e).Some?
    ensures SpacedLazy(q, i, tail).Some?
    ensures var r := SpacedLazy(q, i, tail).value; s < r.0 || (s == r.0 && r.1 <= e)
  {
  }

  /**
   * Two lazy groups in a row: when the second part, tried after the first group [s1, e1), has
   * a match no worse than [s2, e2), the whole search finds a match no worse, group by group.
   */
  lemma SpacedLazyNested<R>(q: string, i: nat, s1: int, e1: int, s2: int, e2: int,
                            tail: int -> Option<(int, int, R)>)
    requires i <= |q| && SpacedGroup(q, i, s1, e1) && tail(e1).Some?
    requires s2 < tail(e1).value.0 || (s2 == tail(e1).value.0 && tail(e1).value.1 <= e2)
    ensures SpacedLazy(q, i, tail).Some?
    ensures var v := SpacedLazy(q, i, tail).value;
            || v.0 > s1
            || (v.0 == s1 && (v.1 < e1 || (v.1 == e1 && (v.2.0 > s2 || (v.2.0 == s2 && v.2.1 <= e2)))))
  {
    SpacedLazyBest(q, i, s1, e1, tail);
  }

  // ---------------------------------------------------------------------------------------------
  // Alternations of stop phrases

  /**
   * One alternative of a stop condition: whitespace-separated words after whitespace and
   * ending at a word boundary (`\s+for\s+last\b`), a question mark, or the end (`$`).
   */
  datatype Alt = Phrase(words: seq<string>) | Question | End

  /** `\s+w1\s+w2 ... wn\b` at `e`, each word matched ignoring ASCII case. */
  predicate PhraseAt(q: string, e: int, words: seq<string>)
    decreases |words|
  {
    if |words| == 0 then 0 < e <= |q| && Boundary(q, e)
    else
      && 0 <= e <= |q|
      && var c := WsEnd(q, e);
         c > e && KeywordAt(q, c, words[0]) && PhraseAt(q, c + |words[0]|, words[1..])
  }

  predicate AltAt(q: string, e: int, a: Alt) {
    match a
    case Phrase(words) => |words| > 0 && PhraseAt(q, e, words)
    case Question => 0 <= e < |q| && q[e] == '?'
    case End => AtEnd(q, e)
  }

  /** Some alternative holds at `e`. */
  predicate AnyAltAt(q: string, e: int, alts: seq<Alt>)
    decreases |alts|
  {
    |alts| > 0 && (AltAt(q, e, alts[0]) || AnyAltAt(q, e, alts[1..]))
  }

  /** One alternative that holds makes the alternation hold. */
  lemma {:induction false} AnyAltOf(q: string, e: int, alts: seq<Alt>, k: int)
    requires 0 <= k < |alts| && AltAt(q, e, alts[k])
    ensures AnyAltAt(q, e, alts)
    decreases k
  {
    if k > 0 {
      AnyAltOf(q, e, alts[1..], k - 1);
    }
  }

  /** A single word after whitespace, followed by a non-word character: `\s+w\b`. */
  lemma WordPhrase(q: string, e: int, c: int, w: string)
    requires e < c && AllSpaceIn(q, e, c) && KeywordAt(q, c, w) && |w| > 0 && IsLowerAscii(w[0])
    requires IsWordChar(q[c + |w| - 1]) && c + |w| < |q| && !IsWordChar(q[c + |w|])
    ensures AltAt(q, e, Phrase([w]))
  {
    RunBeforeKeyword(q, e, c, w);
    assert [w][1..] == [];
  }
}
