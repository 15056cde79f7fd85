/**
 * String primitives shared by both pipelines: Python's whitespace class, ASCII case mapping,
 * `strip`, the `re.sub(r"\s+", " ", s).strip()` normalisation, splitting, joining and the
 * code-point order `sorted()` uses on strings.
 */
module Strings {

  /** Every code point that Python's `str.isspace()` and the regular-expression class `\s` accept. */
  predicate IsSpace(c: char) {
    || '\t' <= c <= '\r'
    || '\U{001C}' <= c <= ' '
    || c == '\U{0085}' || c == '\U{00A0}' || c == '\U{1680}'
    || '\U{2000}' <= c <= '\U{200A}'
    || c == '\U{2028}' || c == '\U{2029}' || c == '\U{202F}' || c == '\U{205F}' || c == '\U{3000}'
  }

  /** The same class as a set, for the helpers that take a set of characters. */
  const Whitespace: set<char> := set c: char | IsSpace(c)

  predicate IsDigit(c: char) { '0' <= c <= '9' }
  predicate IsUpperAscii(c: char) { 'A' <= c <= 'Z' }
  predicate IsLowerAscii(c: char) { 'a' <= c <= 'z' }
  predicate IsLetter(c: char) { IsUpperAscii(c) || IsLowerAscii(c) }

  /** The regular-expression class `\w`, restricted to ASCII. */
  predicate IsWordChar(c: char) { IsLetter(c) || IsDigit(c) || c == '_' }

  function LowerChar(c: char): (r: char)
    ensures !IsUpperAscii(r)
    ensures IsSpace(r) <==> IsSpace(c)
    ensures IsWordChar(r) <==> IsWordChar(c)
  {
    if IsUpperAscii(c) then (c as int + 32) as char else c
  }

  function UpperChar(c: char): (r: char)
    ensures !IsLowerAscii(r)
  {
    if IsLowerAscii(c) then (c as int - 32) as char else c
  }

  /** `str.lower()`, on ASCII letters. */
  function Lower(s: string): (r: string)
    ensures |r| == |s|
    ensures forall i :: 0 <= i < |s| ==> r[i] == LowerChar(s[i])
  {
    if |s| == 0 then "" else [LowerChar(s[0])] + Lower(s[1..])
  }

  predicate IsLowered(s: string) {
    forall i :: 0 <= i < |s| ==> !IsUpperAscii(s[i])
  }

  lemma LowerSlice(s: string, i: int, j: int)
    requires 0 <= i <= j <= |s|
    ensures Lower(s[i..j]) == Lower(s)[i..j]
  {
    var a := Lower(s[i..j]);
    var b := Lower(s)[i..j];
    assert |a| == |b|;
    forall k | 0 <= k < |a| ensures a[k] == b[k] {
      assert a[k] == LowerChar(s[i..j][k]);
      assert b[k] == Lower(s)[i + k] == LowerChar(s[i + k]);
    }
    assert a == b;
  }

  lemma LowerDrop(s: string, i: int)
    requires 0 <= i <= |s|
    ensures Lower(s[i..]) == Lower(s)[i..]
  {
  }

  lemma LowerTake(s: string, i: int)
    requires 0 <= i <= |s|
    ensures Lower(s[..i]) == Lower(s)[..i]
  {
  }

  lemma LowerAppend(a: string, b: string)
    ensures Lower(a + b) == Lower(a) + Lower(b)
  {
  }

  /** Lowering maps no character outside a letter-free set into it. */
  lemma LowerKeepsOutside(s: string, cs: set<char>, i: int)
    requires forall c :: c in cs ==> !IsLetter(c)
    requires 0 <= i < |s| && s[i] !in cs
    ensures Lower(s)[i] !in cs
  {
  }

  /** Lowering a string that has no upper-case letter changes nothing. */
  lemma LowerOfLowered(s: string)
    requires IsLowered(s)
    ensures Lower(s) == s
  {
  }

  // ---------------------------------------------------------------------------------------------
  // Substrings

  /** The regular-expression anchor `\b` at position `i`: a word character on exactly one side. */
  predicate Boundary(s: string, i: int)
    requires 0 <= i <= |s|
  {
    (i > 0 && IsWordChar(s[i - 1])) != (i < |s| && IsWordChar(s[i]))
  }

  predicate OccursAt(s: string, w: string, i: int) {
    0 <= i && i + |w| <= |s| && s[i..i + |w|] == w
  }

  /** Python's `w in s`. */
  predicate Contains(s: string, w: string) {
    exists i | 0 <= i <= |s| :: OccursAt(s, w, i)
  }

  predicate StartsWith(s: string, w: string) {
    |w| <= |s| && s[..|w|] == w
  }

  predicate EndsWith(s: string, w: string) {
    |w| <= |s| && s[|s| - |w|..] == w
  }

  /** An occurrence inside a slice is an occurrence in the whole string. */
  lemma ContainsOfSlice(s: string, i: int, j: int, w: string)
    requires 0 <= i <= j <= |s|
    requires Contains(s[i..j], w)
    ensures Contains(s, w)
  {
    var k :| 0 <= k <= j - i && OccursAt(s[i..j], w, k);
    var t := s[i..j];
    assert forall m | 0 <= m < |w| :: w[m] == t[k + m] == s[i + k + m];
    assert s[i + k..i + k + |w|] == w;
    assert OccursAt(s, w, i + k);
  }

  /** A string lacking one of the characters of `w` does not contain `w`. */
  lemma MissingChar(s: string, w: string, c: char)
    requires c in w && c !in s
    ensures !Contains(s, w)
  {
  }

  /** Containment is transitive: a substring of a substring of `s` is a substring of `s`. */
  lemma ContainsTransitive(s: string, u: string, w: string)
    requires Contains(s, u) && Contains(u, w)
    ensures Contains(s, w)
  {
    var i :| 0 <= i <= |s| && OccursAt(s, u, i);
    ContainsOfSlice(s, i, i + |u|, w);
  }

  // ---------------------------------------------------------------------------------------------
  // Removing characters

  /** The characters of `s` that are not in `cs`, in order. */
  function Without(s: string, cs: set<char>): (r: string)
    ensures |r| <= |s|
    ensures forall i :: 0 <= i < |r| ==> r[i] !in cs
  {
    if |s| == 0 then "" else (if s[0] in cs then "" else [s[0]]) + Without(s[1..], cs)
  }

  lemma {:induction false} WithoutAppend(a: string, b: string, cs: set<char>)
    ensures Without(a + b, cs) == Without(a, cs) + Without(b, cs)
    decreases |a|
  {
    if |a| == 0 {
      assert a + b == b;
    } else {
      assert (a + b)[1..] == a[1..] + b;
      WithoutAppend(a[1..], b, cs);
    }
  }

  /** A character survives `Without` exactly when it occurs and is not removed. */
  lemma {:induction false} WithoutMembership(s: string, cs: set<char>, c: char)
    ensures c in Without(s, cs) <==> c in s && c !in cs
    decreases |s|
  {
    if |s| > 0 {
      WithoutMembership(s[1..], cs, c);
      assert s == [s[0]] + s[1..];
    }
  }

  lemma {:induction false} WithoutAllIn(s: string, cs: set<char>)
    requires forall i :: 0 <= i < |s| ==> s[i] in cs
    ensures Without(s, cs) == ""
    decreases |s|
  {
    if |s| > 0 {
      WithoutAllIn(s[1..], cs);
    }
  }

  // ---------------------------------------------------------------------------------------------
  // Stripping

  /** Length of the longest prefix of `s` made of characters in `cs`. */
  function LeadLen(s: string, cs: set<char>): (n: nat)
    ensures n <= |s|
    ensures forall i :: 0 <= i < n ==> s[i] in cs
    ensures n < |s| ==> s[n] !in cs
  {
    if |s| == 0 || s[0] !in cs then 0 else 1 + LeadLen(s[1..], cs)
  }

  /** Length of the longest suffix of `s` made of characters in `cs`. */
  function TrailLen(s: string, cs: set<char>): (n: nat)
    ensures n <= |s|
    ensures forall i :: |s| - n <= i < |s| ==> s[i] in cs
    ensures n < |s| ==> s[|s| - 1 - n] !in cs
  {
    if |s| == 0 || s[|s| - 1] !in cs then 0 else 1 + TrailLen(s[..|s| - 1], cs)
  }

  /** Python's `s.strip(chars)`: drops the longest prefix and suffix made of characters in `cs`. */
  function StripChars(s: string, cs: set<char>): (r: string)
    ensures |r| <= |s|
    ensures |r| > 0 ==> r[0] !in cs && r[|r| - 1] !in cs
  {
    var a := LeadLen(s, cs);
    var t := s[a..];
    t[..|t| - TrailLen(t, cs)]
  }

  /** The stripped string is the slice of `s` that starts after the dropped prefix. */
  lemma StripSlice(s: string, cs: set<char>)
    ensures LeadLen(s, cs) + |StripChars(s, cs)| <= |s|
    ensures StripChars(s, cs) == s[LeadLen(s, cs)..LeadLen(s, cs) + |StripChars(s, cs)|]
  {
  }

  /** `Without` distributes over cutting `s` at any position. */
  lemma {:induction false} WithoutSplit(s: string, k: int, cs: set<char>)
    requires 0 <= k <= |s|
    ensures Without(s, cs) == Without(s[..k], cs) + Without(s[k..], cs)
    decreases k
  {
    if k > 0 {
      WithoutSplit(s[1..], k - 1, cs);
      assert s[1..][..k - 1] == s[..k][1..];
      assert s[1..][k - 1..] == s[k..];
    } else {
      assert s[k..] == s;
    }
  }

  /** Stripping keeps every character outside `cs`, in order. */
  lemma StripKeepsContent(s: string, cs: set<char>)
    ensures Without(StripChars(s, cs), cs) == Without(s, cs)
  {
    var a := LeadLen(s, cs);
    var t := s[a..];
    var b := |t| - TrailLen(t, cs);
    assert StripChars(s, cs) == t[..b];
    WithoutLeading(s, a, cs);
    WithoutTrailing(t, b, cs);
  }

  lemma WithoutLeading(s: string, a: int, cs: set<char>)
    requires 0 <= a <= |s| && forall i :: 0 <= i < a ==> s[i] in cs
    ensures Without(s[a..], cs) == Without(s, cs)
  {
    WithoutSplit(s, a, cs);
    WithoutAllIn(s[..a], cs);
  }

  lemma WithoutTrailing(t: string, b: int, cs: set<char>)
    requires 0 <= b <= |t| && forall i :: b <= i < |t| ==> t[i] in cs
    ensures Without(t[..b], cs) == Without(t, cs)
  {
    WithoutSplit(t, b, cs);
    assert forall i :: 0 <= i < |t| - b ==> t[b..][i] == t[b + i];
    WithoutAllIn(t[b..], cs);
  }


  /** A string that neither starts nor ends with a character of `cs` is its own strip. */
  lemma StripCharsIdentity(s: string, cs: set<char>)
    requires |s| > 0 ==> s[0] !in cs && s[|s| - 1] !in cs
    ensures StripChars(s, cs) == s
  {
  }

  /** Python's `s.strip()`. */
  function Strip(s: string): (r: string)
    ensures |r| <= |s|
    ensures |r| > 0 ==> !IsSpace(r[0]) && !IsSpace(r[|r| - 1])
  {
    StripChars(s, Whitespace)
  }

  lemma StripIdempotent(s: string)
    ensures Strip(Strip(s)) == Strip(s)
  {
    StripCharsIdentity(Strip(s), Whitespace);
  }

  /** The stripped string occurs in the original one. */
  lemma StripContained(s: string)
    ensures Contains(s, Strip(s))
  {
    StripSlice(s, Whitespace);
    assert OccursAt(s, Strip(s), LeadLen(s, Whitespace));
  }

  /** Lower-casing and stripping commute (no ASCII letter is whitespace). */
  lemma LowerStripCommute(s: string)
    ensures Lower(Strip(s)) == Strip(Lower(s))
  {
    var a := LeadLen(s, Whitespace);
    var t := s[a..];
    var b := |t| - TrailLen(t, Whitespace);
    LeadLenLower(s, Whitespace);
    TrailLenLower(t, Whitespace);
    LowerDrop(s, a);
    LowerTake(t, b);
  }

  lemma {:induction false} LeadLenLower(s: string, cs: set<char>)
    requires cs == Whitespace
    ensures LeadLen(Lower(s), cs) == LeadLen(s, cs)
    decreases |s|
  {
    if |s| > 0 {
      assert Lower(s)[1..] == Lower(s[1..]);
      LeadLenLower(s[1..], cs);
    }
  }

  lemma {:induction false} TrailLenLower(s: string, cs: set<char>)
    requires cs == Whitespace
    ensures TrailLen(Lower(s), cs) == TrailLen(s, cs)
    decreases |s|
  {
    if |s| > 0 {
      assert Lower(s)[..|s| - 1] == Lower(s[..|s| - 1]);
      TrailLenLower(s[..|s| - 1], cs);
    }
  }

  // ---------------------------------------------------------------------------------------------
  // Whitespace normalisation: re.sub(r"\s+", " ", s).strip()

  /** Every whitespace character is a plain space and no two whitespace characters are adjacent. */
  predicate SpacesAreSingle(s: string) {
    && (forall i :: 0 <= i < |s| && IsSpace(s[i]) ==> s[i] == ' ')
    && (forall i :: 0 <= i < |s| - 1 ==> !(IsSpace(s[i]) && IsSpace(s[i + 1])))
  }

  /** What `Squeeze` produces: single inner spaces and no whitespace at either end. */
  predicate IsSqueezed(s: string) {
    SpacesAreSingle(s) && (|s| > 0 ==> !IsSpace(s[0]) && !IsSpace(s[|s| - 1]))
  }

  /** `re.sub(r"\s+", " ", s)`: every maximal whitespace run becomes one space. */
  function CollapseSpaces(s: string): (r: string)
    ensures |r| <= |s|
    ensures |s| > 0 ==> |r| > 0
    ensures |s| > 0 && IsSpace(s[0]) ==> r[0] == ' '
    ensures |s| > 0 && !IsSpace(s[0]) ==> r[0] == s[0]
    ensures |s| > 0 && IsSpace(s[|s| - 1]) ==> r[|r| - 1] == ' '
    ensures |s| > 0 && !IsSpace(s[|s| - 1]) ==> r[|r| - 1] == s[|s| - 1]
    ensures SpacesAreSingle(r)
  {
    if |s| == 0 then ""
    else if IsSpace(s[0]) then
      if |s| > 1 && IsSpace(s[1]) then CollapseSpaces(s[1..]) else " " + CollapseSpaces(s[1..])
    else
      [s[0]] + CollapseSpaces(s[1..])
  }

  lemma {:induction false} CollapseKeepsContent(s: string)
    ensures Without(CollapseSpaces(s), Whitespace) == Without(s, Whitespace)
    decreases |s|
  {
    if |s| > 0 {
      CollapseKeepsContent(s[1..]);
      var rest := CollapseSpaces(s[1..]);
      if IsSpace(s[0]) {
        assert s[0] in Whitespace;
        assert Without(s, Whitespace) == Without(s[1..], Whitespace);
        if !(|s| > 1 && IsSpace(s[1])) {
          WithoutAppend(" ", rest, Whitespace);
          assert ' ' in Whitespace;
          assert Without(" ", Whitespace) == "";
        }
      } else {
        assert s[0] !in Whitespace;
        WithoutAppend([s[0]], rest, Whitespace);
      }
    }
  }

  /** A string whose whitespace is already single spaces is left alone by `CollapseSpaces`. */
  lemma {:induction false} CollapseIdentity(s: string)
    requires SpacesAreSingle(s)
    ensures CollapseSpaces(s) == s
    decreases |s|
  {
    if |s| > 0 {
      assert SpacesAreSingle(s[1..]);
      CollapseIdentity(s[1..]);
      assert s == [s[0]] + s[1..];
    }
  }

  /** Slices of a string with single spaces keep single spaces. */
  lemma SpacesAreSingleSlice(s: string, i: int, j: int)
    requires SpacesAreSingle(s) && 0 <= i <= j <= |s|
    ensures SpacesAreSingle(s[i..j])
  {
    var t := s[i..j];
    forall k | 0 <= k < |t| - 1
      ensures !(IsSpace(t[k]) && IsSpace(t[k + 1]))
    {
      assert t[k] == s[i + k] && t[k + 1] == s[i + k + 1];
    }
  }

  /** Concatenation keeps single spaces unless whitespace meets whitespace at the seam. */
  lemma SpacesAreSingleAppend(a: string, b: string)
    requires SpacesAreSingle(a) && SpacesAreSingle(b)
    requires |a| > 0 && |b| > 0 ==> !(IsSpace(a[|a| - 1]) && IsSpace(b[0]))
    ensures SpacesAreSingle(a + b)
  {
    var s := a + b;
    forall i | 0 <= i < |s| - 1 ensures !(IsSpace(s[i]) && IsSpace(s[i + 1])) {
      if i >= |a| {
        assert s[i] == b[i - |a|] && s[i + 1] == b[i + 1 - |a|];
      } else if i + 1 < |a| {
        assert s[i] == a[i] && s[i + 1] == a[i + 1];
      }
    }
  }

  /** Lowering keeps a squeezed string squeezed. */
  lemma LowerKeepsSqueezed(s: string)
    requires IsSqueezed(s)
    ensures IsSqueezed(Lower(s))
  {
  }

  /** Python's `re.sub(r"\s+", " ", s).strip()`; `SqueezeIsJoinedWords` gives its value. */
  function Squeeze(s: string): (r: string)
    ensures |r| <= |s|
    ensures IsSqueezed(r)
  {
    var c := CollapseSpaces(s);
    StripSlice(c, Whitespace);
    SpacesAreSingleSlice(c, LeadLen(c, Whitespace), LeadLen(c, Whitespace) + |StripChars(c, Whitespace)|);
    Strip(c)
  }

  /** Squeezing puts exactly one space between each two words of `s`, and nothing else. */
  lemma SqueezeIsJoinedWords(s: string)
    ensures Squeeze(s) == Join(Words(s), " ")
  {
    var c := CollapseSpaces(s);
    WordsOfCollapse(s);
    WordsOfStrip(c);
    JoinWordsOfSqueezed(Strip(c));
  }

  /** Squeezing keeps every non-whitespace character, in order. */
  lemma SqueezeKeepsContent(s: string)
    ensures Without(Squeeze(s), Whitespace) == Without(s, Whitespace)
  {
    CollapseKeepsContent(s);
    StripKeepsContent(CollapseSpaces(s), Whitespace);
  }

  /** Squeezing introduces no character other than the plain space. */
  lemma SqueezeNoNewChars(s: string, c: char)
    requires c in Squeeze(s) && !IsSpace(c)
    ensures c in s
  {
    SqueezeKeepsContent(s);
    WithoutMembership(Squeeze(s), Whitespace, c);
    WithoutMembership(s, Whitespace, c);
  }

  /** A squeezed string is its own normal form. */
  lemma SqueezeIdentity(s: string)
    requires IsSqueezed(s)
    ensures Squeeze(s) == s
  {
    CollapseIdentity(s);
    StripCharsIdentity(s, Whitespace);
  }

  /** One leading space in front of a squeezed string is squeezed away. */
  lemma SqueezeLeadingSpace(t: string)
    requires IsSqueezed(t) && t != ""
    ensures Squeeze(" " + t) == t
  {
    var s := " " + t;
    assert s[1..] == t;
    CollapseIdentity(t);
    assert CollapseSpaces(s) == " " + t;
    assert LeadLen(" " + t, Whitespace) == 1;
    StripCharsIdentity(t, Whitespace);
  }

  lemma SqueezeIdempotent(s: string)
    ensures Squeeze(Squeeze(s)) == Squeeze(s)
  {
    SqueezeIdentity(Squeeze(s));
  }

  /** A string without whitespace that `CollapseSpaces(s)` starts with is a prefix of `s`. */
  lemma {:induction false} CollapsePrefix(s: string, w: string)
    requires forall i :: 0 <= i < |w| ==> !IsSpace(w[i])
    requires StartsWith(CollapseSpaces(s), w)
    ensures StartsWith(s, w)
    decreases |s|
  {
    if |w| > 0 && |s| > 0 && !IsSpace(s[0]) {
      var c := CollapseSpaces(s);
      assert c == [s[0]] + CollapseSpaces(s[1..]);
      assert c[1..|w|] == w[1..];
      CollapsePrefix(s[1..], w[1..]);
      assert s[..|w|] == [s[0]] + s[1..][..|w| - 1];
    }
  }

  /** A string without whitespace occurring in `CollapseSpaces(s)` occurs in `s`. */
  lemma {:induction false} CollapseOccurs(s: string, w: string, p: int)
    requires |w| > 0 && forall i :: 0 <= i < |w| ==> !IsSpace(w[i])
    requires OccursAt(CollapseSpaces(s), w, p)
    ensures Contains(s, w)
    decreases |s|
  {
    var c := CollapseSpaces(s);
    if p == 0 {
      assert c[..|w|] == w;
      CollapsePrefix(s, w);
      assert OccursAt(s, w, 0);
    } else {
      var rest := CollapseSpaces(s[1..]);
      if IsSpace(s[0]) && |s| > 1 && IsSpace(s[1]) {
        CollapseOccurs(s[1..], w, p);
      } else {
        assert c == [c[0]] + rest;
        assert rest[p - 1..p - 1 + |w|] == c[p..p + |w|];
        CollapseOccurs(s[1..], w, p - 1);
      }
      assert s[1..|s|] == s[1..];
      ContainsOfSlice(s, 1, |s|, w);
    }
  }

  /** Squeezing creates no new substring free of whitespace. */
  lemma SqueezeContains(s: string, w: string)
    requires |w| > 0 && forall i :: 0 <= i < |w| ==> !IsSpace(w[i])
    requires Contains(Squeeze(s), w)
    ensures Contains(s, w)
  {
    var c := CollapseSpaces(s);
    StripContained(c);
    ContainsTransitive(c, Strip(c), w);
    var p :| 0 <= p <= |c| && OccursAt(c, w, p);
    CollapseOccurs(s, w, p);
  }

  /** Lower-casing and collapsing whitespace commute. */
  lemma {:induction false} LowerCollapse(s: string)
    ensures Lower(CollapseSpaces(s)) == CollapseSpaces(Lower(s))
    decreases |s|
  {
    if |s| > 0 {
      LowerCollapse(s[1..]);
      LowerDrop(s, 1);
      LowerAppend([s[0]], CollapseSpaces(s[1..]));
      LowerAppend(" ", CollapseSpaces(s[1..]));
      assert Lower(" ") == " ";
    }
  }

  /** Lower-casing and squeezing commute. */
  lemma LowerSqueeze(s: string)
    ensures Lower(Squeeze(s)) == Squeeze(Lower(s))
  {
    LowerCollapse(s);
    LowerStripCommute(CollapseSpaces(s));
  }

  /** Whitespace starts no word. */
  lemma {:induction false} CountAllSpace(a: string, t: bool)
    requires forall i :: 0 <= i < |a| ==> IsSpace(a[i])
    ensures CountWordStarts(a, t) == 0
    decreases |a|
  {
    if |a| > 0 {
      CountAllSpace(a[1..], true);
    }
  }

  /** Word starts add up over a concatenation, the second part continuing after the first. */
  lemma {:induction false} CountAppend(a: string, b: string, t: bool)
    ensures CountWordStarts(a + b, t) ==
            CountWordStarts(a, t) + CountWordStarts(b, if |a| == 0 then t else IsSpace(a[|a| - 1]))
    decreases |a|
  {
    if |a| == 0 {
      assert a + b == b;
    } else {
      assert (a + b)[1..] == a[1..] + b;
      CountAppend(a[1..], b, IsSpace(a[0]));
    }
  }

  /** Collapsing whitespace keeps the words. */
  lemma {:induction false} CollapseWordStarts(s: string, t: bool)
    ensures CountWordStarts(CollapseSpaces(s), t) == CountWordStarts(s, t)
    decreases |s|
  {
    if |s| > 0 {
      if IsSpace(s[0]) && |s| > 1 && IsSpace(s[1]) {
        CollapseWordStarts(s[1..], true);
        var c := CollapseSpaces(s[1..]);
        assert c[0] == ' ';
      } else if IsSpace(s[0]) {
        CollapseWordStarts(s[1..], true);
        assert (" " + CollapseSpaces(s[1..]))[1..] == CollapseSpaces(s[1..]);
      } else {
        CollapseWordStarts(s[1..], false);
        assert ([s[0]] + CollapseSpaces(s[1..]))[1..] == CollapseSpaces(s[1..]);
      }
    }
  }

  /** Leading whitespace starts no word. */
  lemma CountSpacePrefix(p: string, x: string)
    requires forall i :: 0 <= i < |p| ==> IsSpace(p[i])
    ensures CountWordStarts(p + x, true) == CountWordStarts(x, true)
  {
    CountAppend(p, x, true);
    CountAllSpace(p, true);
  }

  /** Trailing whitespace starts no word. */
  lemma CountSpaceSuffix(x: string, q: string)
    requires forall i :: 0 <= i < |q| ==> IsSpace(q[i])
    ensures CountWordStarts(x + q, true) == CountWordStarts(x, true)
  {
    CountAppend(x, q, true);
    CountAllSpace(q, if |x| == 0 then true else IsSpace(x[|x| - 1]));
  }

  /** Stripping keeps the words. */
  lemma StripWordCount(s: string)
    ensures WordCount(Strip(s)) == WordCount(s)
  {
    var a := LeadLen(s, Whitespace);
    var t := s[a..];
    var b := |t| - TrailLen(t, Whitespace);
    assert Strip(s) == t[..b];
    LeadingSpaceWords(s, a);
    TrailingSpaceWords(t, b);
  }

  lemma LeadingSpaceWords(s: string, a: int)
    requires 0 <= a <= |s| && forall i :: 0 <= i < a ==> s[i] in Whitespace
    ensures WordCount(s[a..]) == WordCount(s)
  {
    assert forall i :: 0 <= i < a ==> s[..a][i] in Whitespace;
    assert s == s[..a] + s[a..];
    CountSpacePrefix(s[..a], s[a..]);
  }

  lemma TrailingSpaceWords(t: string, b: int)
    requires 0 <= b <= |t| && forall i :: b <= i < |t| ==> t[i] in Whitespace
    ensures WordCount(t[..b]) == WordCount(t)
  {
    assert forall i :: 0 <= i < |t| - b ==> t[b..][i] in Whitespace;
    assert t == t[..b] + t[b..];
    CountSpaceSuffix(t[..b], t[b..]);
  }

  /** Squeezing keeps the words: `len(s.split())` is unchanged. */
  lemma SqueezeWordCount(s: string)
    ensures WordCount(Squeeze(s)) == WordCount(s)
  {
    CollapseWordStarts(s, true);
    StripWordCount(CollapseSpaces(s));
  }

  // ---------------------------------------------------------------------------------------------
  // Splitting and joining

  /**
   * `re.split` on a one-character class: every character of `cs` separates two parts, so
   * adjacent separators and separators at either end yield empty parts.
   */
  function SplitOn(s: string, cs: set<char>): (parts: seq<string>)
    ensures |parts| >= 1
    ensures forall k, i :: 0 <= k < |parts| && 0 <= i < |parts[k]| ==> parts[k][i] !in cs
  {
    if |s| == 0 then [""]
    else
      var rest := SplitOn(s[1..], cs);
      if s[0] in cs then [""] + rest else [[s[0]] + rest[0]] + rest[1..]
  }

  /** A separator-free prefix followed by a separator is split off as the first part. */
  lemma {:induction false} SplitOnPrefix(t: string, d: char, u: string, cs: set<char>)
    requires d in cs
    requires forall i :: 0 <= i < |t| ==> t[i] !in cs
    ensures SplitOn(t + [d] + u, cs) == [t] + SplitOn(u, cs)
    decreases |t|
  {
    var s := t + [d] + u;
    if |t| == 0 {
      assert s == [d] + u;
      assert s[1..] == u;
    } else {
      assert s[1..] == t[1..] + [d] + u;
      SplitOnPrefix(t[1..], d, u, cs);
      assert [t[0]] + t[1..] == t;
    }
  }

  /** A separator-free string is one part. */
  lemma {:induction false} SplitOnNone(t: string, cs: set<char>)
    requires forall i :: 0 <= i < |t| ==> t[i] !in cs
    ensures SplitOn(t, cs) == [t]
    decreases |t|
  {
    if |t| > 0 {
      SplitOnNone(t[1..], cs);
      assert [t[0]] + t[1..] == t;
    }
  }

  /** `sep.join(ts)`. */
  function Join(ts: seq<string>, sep: string): string {
    if |ts| == 0 then "" else if |ts| == 1 then ts[0] else ts[0] + sep + Join(ts[1..], sep)
  }

  /** `[p.strip() for p in parts if p.strip()]`. */
  function StrippedTokens(parts: seq<string>): (r: seq<string>)
    ensures |r| <= |parts|
    ensures forall i :: 0 <= i < |r| ==> r[i] != "" && Strip(r[i]) == r[i]
  {
    if |parts| == 0 then []
    else
      StripIdempotent(parts[0]);
      (if Strip(parts[0]) != "" then [Strip(parts[0])] else []) + StrippedTokens(parts[1..])
  }

  /** A non-empty sequence is its head followed by its tail. */
  lemma HeadTail<T>(xs: seq<T>)
    requires |xs| > 0
    ensures xs == [xs[0]] + xs[1..]
  {
  }

  lemma StrippedTokensCons(p: string, rest: seq<string>)
    requires Strip(p) != ""
    ensures StrippedTokens([p] + rest) == [Strip(p)] + StrippedTokens(rest)
  {
    assert ([p] + rest)[1..] == rest;
  }

  /** A token as the splitting helpers produce it: non-empty, stripped, free of separators. */
  predicate IsToken(t: string, cs: set<char>) {
    t != "" && Strip(t) == t && forall i :: 0 <= i < |t| ==> t[i] !in cs
  }

  /** Stripping keeps a string free of the characters of `cs`. */
  lemma StripFree(p: string, cs: set<char>)
    requires forall i :: 0 <= i < |p| ==> p[i] !in cs
    ensures forall i :: 0 <= i < |Strip(p)| ==> Strip(p)[i] !in cs
  {
    StripSlice(p, Whitespace);
    var t := Strip(p);
    var a := LeadLen(p, Whitespace);
    assert forall i :: 0 <= i < |t| ==> t[i] == p[a + i];
  }

  /** Stripped parts that had no character of `cs` are tokens for `cs`. */
  lemma {:induction false} StrippedTokensFree(parts: seq<string>, cs: set<char>)
    requires forall k, i :: 0 <= k < |parts| && 0 <= i < |parts[k]| ==> parts[k][i] !in cs
    ensures forall i :: 0 <= i < |StrippedTokens(parts)| ==> IsToken(StrippedTokens(parts)[i], cs)
    decreases |parts|
  {
    if |parts| > 0 {
      StrippedTokensFree(parts[1..], cs);
      StripFree(parts[0], cs);
    }
  }

  /** One leading space is stripped off a stripped non-empty string. */
  lemma StripLeadingSpace(t: string)
    requires t != "" && Strip(t) == t
    ensures Strip(" " + t) == t
  {
    var s := " " + t;
    assert s[1..] == t;
    assert LeadLen(t, Whitespace) == 0;
    assert LeadLen(s, Whitespace) == 1;
    StripCharsIdentity(t, Whitespace);
  }

  lemma JoinReassoc(pre: string, t: string, rest: string)
    ensures pre + (t + ", " + rest) == (pre + t) + [','] + (" " + rest)
  {
  }

  /** A token after an optional single space strips back to the token and has no separator. */
  lemma SpacedToken(pre: string, t: string, cs: set<char>)
    requires ' ' !in cs && IsToken(t, cs)
    requires pre == "" || pre == " "
    ensures Strip(pre + t) == t
    ensures forall i :: 0 <= i < |pre + t| ==> (pre + t)[i] !in cs
  {
    if pre == " " {
      StripLeadingSpace(t);
      forall i | 0 < i < |pre + t| ensures (pre + t)[i] !in cs {
        assert (pre + t)[i] == t[i - 1];
      }
    } else {
      assert pre + t == t;
    }
  }

  /** Splitting a ", "-joined list cuts off the first token at the first comma. */
  lemma SplitJoinStep(ts: seq<string>, pre: string, cs: set<char>)
    requires ',' in cs && |ts| > 1
    requires forall i :: 0 <= i < |pre + ts[0]| ==> (pre + ts[0])[i] !in cs
    ensures SplitOn(pre + Join(ts, ", "), cs) == [pre + ts[0]] + SplitOn(" " + Join(ts[1..], ", "), cs)
  {
    var j1 := Join(ts[1..], ", ");
    JoinReassoc(pre, ts[0], j1);
    SplitOnPrefix(pre + ts[0], ',', " " + j1, cs);
  }

  /**
   * Tokens joined with ", " and split again on a class holding ',' (optionally after one
   * leading space) come back, once each part is stripped and empty parts are dropped.
   */
  lemma {:induction false} StrippedTokensOfJoin(ts: seq<string>, pre: string, cs: set<char>)
    requires ',' in cs && ' ' !in cs
    requires |ts| > 0 && forall i :: 0 <= i < |ts| ==> IsToken(ts[i], cs)
    requires pre == "" || pre == " "
    ensures StrippedTokens(SplitOn(pre + Join(ts, ", "), cs)) == ts
    decreases |ts|
  {
    if |ts| == 1 {
      OneTokenOfJoin(ts[0], pre, cs);
    } else {
      var tail := ts[1..];
      StrippedTokensOfJoin(tail, " ", cs);
      StrippedTokensStep(ts, pre, cs);
    }
  }

  lemma OneTokenOfJoin(t: string, pre: string, cs: set<char>)
    requires ' ' !in cs && IsToken(t, cs)
    requires pre == "" || pre == " "
    ensures StrippedTokens(SplitOn(pre + Join([t], ", "), cs)) == [t]
  {
    SpacedToken(pre, t, cs);
    SplitOnNone(pre + t, cs);
    StrippedTokensCons(pre + t, []);
  }

  /** The first token of a ", "-joined list comes back in front of the rest. */
  lemma StrippedTokensStep(ts: seq<string>, pre: string, cs: set<char>)
    requires ',' in cs && ' ' !in cs && |ts| > 1 && IsToken(ts[0], cs)
    requires pre == "" || pre == " "
    requires StrippedTokens(SplitOn(" " + Join(ts[1..], ", "), cs)) == ts[1..]
    ensures StrippedTokens(SplitOn(pre + Join(ts, ", "), cs)) == ts
  {
    var head := pre + ts[0];
    var rest := SplitOn(" " + Join(ts[1..], ", "), cs);
    SpacedToken(pre, ts[0], cs);
    SplitJoinStep(ts, pre, cs);
    StrippedTokensCons(head, rest);
    calc {
      StrippedTokens(SplitOn(pre + Join(ts, ", "), cs));
      StrippedTokens([head] + rest);
      [Strip(head)] + StrippedTokens(rest);
      [ts[0]] + ts[1..];
    }
    HeadTail(ts);
  }

  /** Non-empty stripped tokens joined with ", " form a non-empty stripped string. */
  lemma {:induction false} JoinStripped(ts: seq<string>)
    requires |ts| > 0 && forall i :: 0 <= i < |ts| ==> ts[i] != "" && Strip(ts[i]) == ts[i]
    ensures Join(ts, ", ") != ""
    ensures Join(ts, ", ")[0] == ts[0][0]
    ensures Strip(Join(ts, ", ")) == Join(ts, ", ")
    decreases |ts|
  {
    var j := Join(ts, ", ");
    if |ts| > 1 {
      JoinStripped(ts[1..]);
      var rest := Join(ts[1..], ", ");
      assert j == ts[0] + ", " + rest;
      assert j[|j| - 1] == rest[|rest| - 1];
    }
    StripCharsIdentity(j, Whitespace);
  }

  /** The texts pandas and `str(None)` give for a missing value, in any letter case. */
  predicate IsNullWord(s: string) {
    Lower(s) == "nan" || Lower(s) == "none"
  }

  // ---------------------------------------------------------------------------------------------
  // Words: len(s.split())

  /** Number of non-whitespace runs that start in `s`, given whether the character before it is whitespace. */
  function CountWordStarts(s: string, afterSpace: bool): nat {
    if |s| == 0 then 0
    else (if !IsSpace(s[0]) && afterSpace then 1 else 0) + CountWordStarts(s[1..], IsSpace(s[0]))
  }

  /** `len(s.split())`: the number of maximal runs of non-whitespace characters. */
  function WordCount(s: string): nat {
    CountWordStarts(s, true)
  }

  // ---------------------------------------------------------------------------------------------
  // Words: s.split()

  /** The non-empty strings of `parts`, in order. */
  function DropEmpty(parts: seq<string>): (r: seq<string>)
    ensures forall i :: 0 <= i < |r| ==> r[i] != ""
  {
    if |parts| == 0 then []
    else (if parts[0] == "" then [] else [parts[0]]) + DropEmpty(parts[1..])
  }

  lemma {:induction false} DropEmptyAppend(xs: seq<string>, ys: seq<string>)
    ensures DropEmpty(xs + ys) == DropEmpty(xs) + DropEmpty(ys)
    decreases |xs|
  {
    if |xs| == 0 {
      assert xs + ys == ys;
    } else {
      assert (xs + ys)[1..] == xs[1..] + ys;
      DropEmptyAppend(xs[1..], ys);
    }
  }

  /**
   * Python's `s.split()`: the maximal runs of non-whitespace characters, in order. Splitting at
   * every whitespace character and dropping the empty parts gives exactly those runs.
   */
  function Words(s: string): (r: seq<string>)
    ensures forall k, i :: 0 <= k < |r| && 0 <= i < |r[k]| ==> !IsSpace(r[k][i])
    ensures forall k :: 0 <= k < |r| ==> r[k] != ""
  {
    var parts := SplitOn(s, Whitespace);
    assert forall k, i :: 0 <= k < |parts| && 0 <= i < |parts[k]| ==> parts[k][i] !in Whitespace;
    DropEmptyIn(parts, Whitespace);
    DropEmpty(parts)
  }

  /** `DropEmpty` keeps only parts, so it keeps what every part avoids. */
  lemma {:induction false} DropEmptyIn(parts: seq<string>, cs: set<char>)
    requires forall k, i :: 0 <= k < |parts| && 0 <= i < |parts[k]| ==> parts[k][i] !in cs
    ensures forall k, i :: 0 <= k < |DropEmpty(parts)| && 0 <= i < |DropEmpty(parts)[k]| ==>
              DropEmpty(parts)[k][i] !in cs
    decreases |parts|
  {
    if |parts| > 0 {
      DropEmptyIn(parts[1..], cs);
    }
  }

  /** Splitting at a separator splits the parts: the parts of both sides, side by side. */
  lemma {:induction false} SplitOnAt(a: string, d: char, b: string, cs: set<char>)
    requires d in cs
    ensures SplitOn(a + [d] + b, cs) == SplitOn(a, cs) + SplitOn(b, cs)
    decreases |a|
  {
    var s := a + [d] + b;
    if |a| == 0 {
      assert s == [d] + b;
      assert s[1..] == b;
    } else {
      assert s[1..] == a[1..] + [d] + b;
      SplitOnAt(a[1..], d, b, cs);
    }
  }

  /** A whitespace character separates the words before it from the words after it. */
  lemma WordsAt(a: string, d: char, b: string)
    requires IsSpace(d)
    ensures Words(a + [d] + b) == Words(a) + Words(b)
  {
    assert d in Whitespace;
    SplitOnAt(a, d, b, Whitespace);
    DropEmptyAppend(SplitOn(a, Whitespace), SplitOn(b, Whitespace));
  }

  /** A string without whitespace is one word, or none when it is empty. */
  lemma WordsOfWord(w: string)
    requires forall i :: 0 <= i < |w| ==> !IsSpace(w[i])
    ensures Words(w) == if w == "" then [] else [w]
  {
    SplitOnNone(w, Whitespace);
    assert DropEmpty([w]) == (if w == "" then [] else [w]) + DropEmpty([]);
  }

  /** Whitespace holds no word. */
  lemma {:induction false} WordsAllSpace(w: string)
    requires forall i :: 0 <= i < |w| ==> IsSpace(w[i])
    ensures Words(w) == []
    decreases |w|
  {
    if |w| > 0 {
      assert w == "" + [w[0]] + w[1..];
      WordsAt("", w[0], w[1..]);
      WordsOfWord("");
      WordsAllSpace(w[1..]);
    } else {
      WordsOfWord(w);
    }
  }

  /** Dropping leading whitespace keeps the words. */
  lemma WordsLeading(s: string, a: int)
    requires 0 <= a <= |s| && forall i :: 0 <= i < a ==> IsSpace(s[i])
    ensures Words(s[a..]) == Words(s)
  {
    if a > 0 {
      assert s == s[..a - 1] + [s[a - 1]] + s[a..];
      WordsAt(s[..a - 1], s[a - 1], s[a..]);
      WordsAllSpace(s[..a - 1]);
      assert [] + Words(s[a..]) == Words(s[a..]);
    }
  }

  /** Dropping trailing whitespace keeps the words. */
  lemma WordsTrailing(t: string, b: int)
    requires 0 <= b <= |t| && forall i :: b <= i < |t| ==> IsSpace(t[i])
    ensures Words(t[..b]) == Words(t)
  {
    if b < |t| {
      assert t == t[..b] + [t[b]] + t[b + 1..];
      WordsAt(t[..b], t[b], t[b + 1..]);
      var u := t[b + 1..];
      forall i | 0 <= i < |u| ensures IsSpace(u[i]) {
        assert u[i] == t[b + 1 + i];
      }
      WordsAllSpace(u);
      assert Words(t) == Words(t[..b]) + Words(u);
      assert Words(t[..b]) + [] == Words(t[..b]);
    } else {
      assert t[..b] == t;
    }
  }

  /** Stripping keeps the words. */
  lemma WordsOfStrip(s: string)
    ensures Words(Strip(s)) == Words(s)
  {
    var a := LeadLen(s, Whitespace);
    var t := s[a..];
    var b := |t| - TrailLen(t, Whitespace);
    assert Strip(s) == t[..b];
    WordsLeading(s, a);
    WordsTrailing(t, b);
  }

  /** A prefix without whitespace passes through `CollapseSpaces` unchanged. */
  lemma {:induction false} CollapseWordPrefix(a: string, x: string)
    requires forall i :: 0 <= i < |a| ==> !IsSpace(a[i])
    ensures CollapseSpaces(a + x) == a + CollapseSpaces(x)
    decreases |a|
  {
    if |a| > 0 {
      assert (a + x)[1..] == a[1..] + x;
      CollapseWordPrefix(a[1..], x);
    } else {
      assert a + x == x;
    }
  }

  /** Length of the longest prefix of `s` without whitespace. */
  function WordLen(s: string): (n: nat)
    ensures n <= |s|
    ensures forall i :: 0 <= i < n ==> !IsSpace(s[i])
    ensures n < |s| ==> IsSpace(s[n])
  {
    if |s| == 0 || IsSpace(s[0]) then 0 else 1 + WordLen(s[1..])
  }

  /** A leading whitespace character adds no word. */
  lemma WordsSpaceCons(d: char, x: string)
    requires IsSpace(d)
    ensures Words([d] + x) == Words(x)
  {
    assert [d] + x == "" + [d] + x;
    WordsAt("", d, x);
    WordsOfWord("");
  }

  /** A leading non-whitespace character starts a new word or extends the first one. */
  lemma WordsCharCons(c: char, x: string)
    requires !IsSpace(c)
    ensures Words([c] + x) ==
              if |x| > 0 && !IsSpace(x[0]) then [[c] + Words(x)[0]] + Words(x)[1..]
              else [[c]] + Words(x)
  {
    var p := SplitOn(x, Whitespace);
    assert c !in Whitespace;
    assert ([c] + x)[1..] == x;
    assert SplitOn([c] + x, Whitespace) == [[c] + p[0]] + p[1..];
    assert p == [p[0]] + p[1..];
    assert ([[c] + p[0]] + p[1..])[1..] == p[1..];
    assert DropEmpty(p) == (if p[0] == "" then [] else [p[0]]) + DropEmpty(p[1..]);
    if |x| > 0 && !IsSpace(x[0]) {
      assert p[0] != "" by { assert x[0] !in Whitespace; }
    } else {
      assert p[0] == "";
      assert [c] + p[0] == [c];
    }
  }

  /** Collapsing whitespace runs keeps the words. */
  lemma {:induction false} WordsOfCollapse(s: string)
    ensures Words(CollapseSpaces(s)) == Words(s)
    decreases |s|
  {
    if |s| > 0 {
      var t := s[1..];
      assert s == [s[0]] + t;
      WordsOfCollapse(t);
      if IsSpace(s[0]) {
        WordsSpaceCons(s[0], t);
        if !(|s| > 1 && IsSpace(s[1])) {
          WordsSpaceCons(' ', CollapseSpaces(t));
        }
      } else {
        WordsCharCons(s[0], t);
        WordsCharCons(s[0], CollapseSpaces(t));
      }
    }
  }

  /** `sep.join` of a head and a non-empty tail puts `sep` between them. */
  lemma JoinCons(t: string, ts: seq<string>, sep: string)
    requires |ts| > 0
    ensures Join([t] + ts, sep) == t + sep + Join(ts, sep)
  {
    assert ([t] + ts)[1..] == ts;
  }

  /** A squeezed string is its words joined by single spaces. */
  lemma {:induction false} JoinWordsOfSqueezed(x: string)
    requires IsSqueezed(x)
    ensures Join(Words(x), " ") == x
    decreases |x|
  {
    var k := WordLen(x);
    if k == |x| {
      WordsOfWord(x);
    } else {
      var a, b := x[..k], x[k + 1..];
      assert x == a + [x[k]] + b;
      WordsAt(a, x[k], b);
      WordsOfWord(a);
      assert x[k] == ' ' && k > 0 && k < |x| - 1;
      assert !IsSpace(x[k + 1]);
      SpacesAreSingleSlice(x, k + 1, |x|);
      JoinWordsOfSqueezed(b);
      assert Words(b) != [];
      JoinCons(a, Words(b), " ");
    }
  }

  // ---------------------------------------------------------------------------------------------
  // Code-point order, as Python compares strings

  predicate Less(a: string, b: string)
    decreases |a|
  {
    if |a| == 0 then |b| > 0
    else if |b| == 0 then false
    else if a[0] != b[0] then a[0] < b[0]
    else Less(a[1..], b[1..])
  }

  lemma {:induction false} LessIrreflexive(a: string)
    ensures !Less(a, a)
    decreases |a|
  {
    if |a| > 0 {
      LessIrreflexive(a[1..]);
    }
  }

  lemma {:induction false} LessTransitive(a: string, b: string, c: string)
    requires Less(a, b) && Less(b, c)
    ensures Less(a, c)
    decreases |a|
  {
    if |a| > 0 && |b| > 0 && |c| > 0 && a[0] == b[0] && b[0] == c[0] {
      LessTransitive(a[1..], b[1..], c[1..]);
    }
  }

  lemma {:induction false} LessTotal(a: string, b: string)
    requires a != b
    ensures Less(a, b) || Less(b, a)
    decreases |a|
  {
    if |a| > 0 && |b| > 0 && a[0] == b[0] {
      assert a == [a[0]] + a[1..] && b == [b[0]] + b[1..];
      LessTotal(a[1..], b[1..]);
    }
  }

  predicate StrictlySorted(s: seq<string>) {
    forall i, j :: 0 <= i < j < |s| ==> Less(s[i], s[j])
  }

  /** A strictly sorted sequence has no repeated element. */
  lemma StrictlySortedDistinct(s: seq<string>, i: int, j: int)
    requires StrictlySorted(s) && 0 <= i < j < |s|
    ensures s[i] != s[j]
  {
    LessIrreflexive(s[i]);
  }

  /** Inserts `x` into a strictly sorted sequence unless it is already there. */
  function InsertSorted(x: string, s: seq<string>): (r: seq<string>)
    requires StrictlySorted(s)
    ensures StrictlySorted(r)
    ensures forall y :: y in r <==> y == x || y in s
    ensures |r| <= |s| + 1
  {
    if |s| == 0 then [x]
    else if x == s[0] then s
    else if Less(x, s[0]) then
      assert forall j :: 0 < j < |s| ==> Less(x, s[j]) by {
        forall j | 0 < j < |s| ensures Less(x, s[j]) {
          LessTransitive(x, s[0], s[j]);
        }
      }
      [x] + s
    else
      LessTotal(x, s[0]);
      var r' := InsertSorted(x, s[1..]);
      assert forall y :: y in r' ==> Less(s[0], y);
      [s[0]] + r'
  }

  /** `sorted(set(xs))` on strings. */
  function SortedDistinct(xs: seq<string>): (r: seq<string>)
    ensures StrictlySorted(r)
    ensures forall y :: y in r <==> y in xs
    ensures |r| <= |xs|
  {
    if |xs| == 0 then [] else InsertSorted(xs[0], SortedDistinct(xs[1..]))
  }
}
