/**
 * Text helpers shared by ingestion and the agent (backend/app/utils/text_utils.py):
 * whitespace normalisation, splitting a skills cell into clean tokens, extracting skills from
 * a free-text description with a fixed lexicon, and tiered fuzzy matching of a hint against
 * the values present in a dataset.
 */
module TextUtils {
  import opened Base
  import opened Seqs
  import opened Strings

  // ---------------------------------------------------------------------------------------------
  // normalize_text

  /**
   * `normalize_text`: `None` becomes empty; otherwise the words of the text (its maximal
   * non-whitespace runs) joined by single spaces, so every inner whitespace run becomes one
   * space and the ends are trimmed.
   */
  function NormalizeText(value: Option<string>): (r: string)
    ensures value.None? ==> r == ""
    ensures value.Some? ==> r == Join(Words(value.value), " ")
    ensures IsSqueezed(r)
    ensures value.Some? ==> Without(r, Whitespace) == Without(value.value, Whitespace)
  {
    match value
    case None => ""
    case Some(s) =>
      SqueezeKeepsContent(s);
      SqueezeIsJoinedWords(s);
      Squeeze(s)
  }

  /** Normalised text is a fixed point of normalisation. */
  lemma NormalizeIdempotent(value: Option<string>)
    ensures NormalizeText(Some(NormalizeText(value))) == NormalizeText(value)
  {
    SqueezeIdentity(NormalizeText(value));
  }

  // ---------------------------------------------------------------------------------------------
  // smart_split_skills

  /** The characters that separate skills inside one cell. */
  const SkillSeparators: set<char> := {',', ';', '|', '/'}

  /** The characters trimmed from both ends of every part. */
  const DashOrSpace: set<char> := {'-', ' '}

  predicate NoSeparator(s: string) {
    forall i :: 0 <= i < |s| ==> s[i] !in SkillSeparators
  }

  /** A character a clean token may hold: no capital, no separator, no whitespace but ' '. */
  predicate IsCleanChar(c: char) {
    !IsUpperAscii(c) && c !in SkillSeparators && (IsSpace(c) ==> c == ' ')
  }

  /** From position `i` on, `t` holds clean characters and no two adjacent spaces. */
  predicate CleanFrom(t: string, i: nat)
    decreases |t| - i
  {
    i >= |t| || (IsCleanChar(t[i]) && (i + 1 < |t| ==> !(t[i] == ' ' && t[i + 1] == ' ')) && CleanFrom(t, i + 1))
  }

  /** The shape of every token `smart_split_skills` returns. */
  predicate IsCleanSkill(t: string) {
    t != "" && t[0] !in DashOrSpace && t[|t| - 1] !in DashOrSpace && CleanFrom(t, 0)
  }

  lemma {:induction false} CleanFromAt(t: string, i: nat, k: int)
    requires CleanFrom(t, i) && i <= k < |t|
    ensures IsCleanChar(t[k]) && (k + 1 < |t| ==> !(t[k] == ' ' && t[k + 1] == ' '))
    decreases k - i
  {
    if i < k {
      CleanFromAt(t, i + 1, k);
    }
  }

  lemma {:induction false} CleanFromAll(t: string, i: nat)
    requires i <= |t|
    requires forall k :: i <= k < |t| ==> IsCleanChar(t[k])
    requires forall k :: i <= k < |t| - 1 ==> !(t[k] == ' ' && t[k + 1] == ' ')
    ensures CleanFrom(t, i)
    decreases |t| - i
  {
    if i < |t| {
      CleanFromAll(t, i + 1);
    }
  }

  /** What a clean token guarantees: lower case, single inner spaces, no separator. */
  lemma CleanSkillShape(t: string)
    requires IsCleanSkill(t)
    ensures IsLowered(t) && IsSqueezed(t) && NoSeparator(t)
  {
    forall k | 0 <= k < |t|
      ensures IsCleanChar(t[k]) && (k + 1 < |t| ==> !(t[k] == ' ' && t[k + 1] == ' '))
    {
      CleanFromAt(t, 0, k);
    }
  }

  /** The converse of `CleanSkillShape`, for a non-empty token with clean ends. */
  lemma CleanSkillOfShape(t: string)
    requires t != "" && t[0] !in DashOrSpace && t[|t| - 1] !in DashOrSpace
    requires IsLowered(t) && IsSqueezed(t) && NoSeparator(t)
    ensures IsCleanSkill(t)
  {
    CleanFromAll(t, 0);
  }

  /** One part after `normalize_text` (a squeeze, as the part is a string), trimming of dashes and spaces, and lower-casing. */
  function CleanPart(part: string): string {
    Lower(StripChars(Squeeze(part), DashOrSpace))
  }

  /** A non-empty cleaned part of a separator-free string is a clean token. */
  lemma CleanPartIsClean(part: string)
    ensures NoSeparator(part) && CleanPart(part) != "" ==> IsCleanSkill(CleanPart(part))
  {
    var n := Squeeze(part);
    var m := StripChars(n, DashOrSpace);
    if NoSeparator(part) && CleanPart(part) != "" {
      TrimKeepsSqueezed(n);
      LowerKeepsSqueezed(m);
      LowerKeepsOutside(m, DashOrSpace, 0);
      LowerKeepsOutside(m, DashOrSpace, |m| - 1);
      CleanPartNoSeparator(part);
      CleanSkillOfShape(Lower(m));
    }
  }

  /** Trimming dashes and spaces off a squeezed string leaves it squeezed. */
  lemma TrimKeepsSqueezed(n: string)
    requires IsSqueezed(n)
    ensures IsSqueezed(StripChars(n, DashOrSpace))
  {
    var m := StripChars(n, DashOrSpace);
    StripSlice(n, DashOrSpace);
    SpacesAreSingleSlice(n, LeadLen(n, DashOrSpace), LeadLen(n, DashOrSpace) + |m|);
    if |m| > 0 {
      assert m[0] != ' ' && m[|m| - 1] != ' ';
    }
  }

  /** Cleaning a separator-free part introduces no separator. */
  lemma CleanPartNoSeparator(part: string)
    requires NoSeparator(part)
    ensures NoSeparator(CleanPart(part))
  {
    SqueezeNoSeparator(part);
    TrimNoSeparator(Squeeze(part));
    LowerNoSeparator(StripChars(Squeeze(part), DashOrSpace));
  }

  lemma TrimNoSeparator(n: string)
    requires NoSeparator(n)
    ensures NoSeparator(StripChars(n, DashOrSpace))
  {
    var m := StripChars(n, DashOrSpace);
    StripSlice(n, DashOrSpace);
    forall i | 0 <= i < |m| ensures m[i] !in SkillSeparators {
      assert m[i] == n[LeadLen(n, DashOrSpace) + i];
    }
  }

  lemma LowerNoSeparator(m: string)
    requires NoSeparator(m)
    ensures NoSeparator(Lower(m))
  {
    forall i | 0 <= i < |m| ensures Lower(m)[i] !in SkillSeparators {
      LowerKeepsOutside(m, SkillSeparators, i);
    }
  }

  lemma SqueezeNoSeparator(part: string)
    requires NoSeparator(part)
    ensures NoSeparator(Squeeze(part))
  {
    var n := Squeeze(part);
    forall i | 0 <= i < |n| ensures n[i] !in SkillSeparators {
      if !IsSpace(n[i]) {
        SqueezeNoNewChars(part, n[i]);
      }
    }
  }

  /** The parts that survive cleaning, cleaned, in order (the list built before de-duplication). */
  function CleanParts(parts: seq<string>): seq<string> {
    if |parts| == 0 then []
    else if CleanPart(parts[0]) == "" then CleanParts(parts[1..])
    else [CleanPart(parts[0])] + CleanParts(parts[1..])
  }

  /** Every token cleaned out of separator-free parts is a clean token. */
  lemma {:induction false} CleanPartsAreClean(parts: seq<string>)
    requires forall k :: 0 <= k < |parts| ==> NoSeparator(parts[k])
    ensures forall i :: 0 <= i < |CleanParts(parts)| ==> IsCleanSkill(CleanParts(parts)[i])
    decreases |parts|
  {
    if |parts| > 0 {
      var rest := CleanParts(parts[1..]);
      CleanPartsAreClean(parts[1..]);
      if CleanPart(parts[0]) != "" {
        var r := CleanParts(parts);
        assert r == [CleanPart(parts[0])] + rest;
        CleanPartIsClean(parts[0]);
        forall i | 0 <= i < |r| ensures IsCleanSkill(r[i]) {
          if i > 0 {
            assert r[i] == rest[i - 1];
          }
        }
      }
    }
  }

  /** The cleaned tokens of a cell, duplicates included. */
  function CleanedSkills(value: Option<string>): (r: seq<string>)
    ensures forall i :: 0 <= i < |r| ==> IsCleanSkill(r[i])
  {
    var parts := SplitOn(NormalizeText(value), SkillSeparators);
    assert forall k :: 0 <= k < |parts| ==> NoSeparator(parts[k]);
    CleanPartsAreClean(parts);
    CleanParts(parts)
  }

  /**
   * `smart_split_skills`: the cleaned tokens of the cell without repetitions, each kept at its
   * first occurrence.
   */
  function SmartSplitSkills(value: Option<string>): (r: seq<string>)
    ensures NormalizeText(value) == "" ==> r == []
    ensures Distinct(r)
    ensures forall t :: t in r ==> IsCleanSkill(t)
    ensures forall t :: t in r <==> t in CleanedSkills(value)
    ensures forall i, j :: 0 <= i < j < |r| ==>
              FirstIndex(CleanedSkills(value), r[i]) < FirstIndex(CleanedSkills(value), r[j])
  {
    if NormalizeText(value) == "" then
      assert SplitOn("", SkillSeparators) == [""];
      assert CleanPart("") == "";
      assert [""][1..] == [];
      assert CleanedSkills(value) == [];
      []
    else
      DedupeOrder(CleanedSkills(value), {});
      DedupeFrom(CleanedSkills(value), {})
  }

  /** A clean token is its own cleaning, with or without one leading space. */
  lemma CleanPartOfClean(t: string, pre: string)
    requires IsCleanSkill(t) && (pre == "" || pre == " ")
    ensures CleanPart(pre + t) == t
  {
    CleanSkillShape(t);
    if pre == " " {
      SqueezeLeadingSpace(t);
    } else {
      assert pre + t == t;
      SqueezeIdentity(t);
    }
    StripCharsIdentity(t, DashOrSpace);
    LowerOfLowered(t);
  }

  lemma CleanPartsCons(p: string, rest: seq<string>)
    requires CleanPart(p) != ""
    ensures CleanParts([p] + rest) == [CleanPart(p)] + CleanParts(rest)
  {
    assert ([p] + rest)[1..] == rest;
  }

  lemma NoSeparatorSpaced(pre: string, t: string)
    requires pre == "" || pre == " "
    requires NoSeparator(t)
    ensures NoSeparator(pre + t)
  {
    if pre == " " {
      forall i | 0 <= i < |pre + t| ensures (pre + t)[i] !in SkillSeparators {
        if i > 0 {
          assert (pre + t)[i] == t[i - 1];
        }
      }
    } else {
      assert pre + t == t;
    }
  }

  /** Joining clean tokens with ", " and splitting again gives the cleaned tokens back. */
  lemma {:induction false} CleanPartsOfJoin(ts: seq<string>, pre: string)
    requires |ts| > 0 && forall t :: t in ts ==> IsCleanSkill(t)
    requires pre == "" || pre == " "
    ensures CleanParts(SplitOn(pre + Join(ts, ", "), SkillSeparators)) == ts
    decreases |ts|
  {
    var head := pre + ts[0];
    assert IsCleanSkill(ts[0]);
    CleanSkillShape(ts[0]);
    CleanPartOfClean(ts[0], pre);
    NoSeparatorSpaced(pre, ts[0]);
    if |ts| == 1 {
      SplitOnNone(head, SkillSeparators);
      CleanPartsCons(head, []);
      assert ts == [ts[0]];
    } else {
      var j1 := Join(ts[1..], ", ");
      JoinReassoc(pre, ts[0], j1);
      SplitOnPrefix(head, ',', " " + j1, SkillSeparators);
      CleanPartsCons(head, SplitOn(" " + j1, SkillSeparators));
      CleanPartsOfJoin(ts[1..], " ");
      assert ts == [ts[0]] + ts[1..];
    }
  }

  /** Clean tokens joined with ", " form a squeezed string. */
  lemma {:induction false} JoinSqueezed(ts: seq<string>)
    requires forall t :: t in ts ==> IsCleanSkill(t)
    ensures IsSqueezed(Join(ts, ", "))
    ensures |ts| > 0 ==> Join(ts, ", ") != ""
    decreases |ts|
  {
    if |ts| == 1 {
      assert IsCleanSkill(ts[0]);
      CleanSkillShape(ts[0]);
    } else if |ts| > 1 {
      JoinSqueezed(ts[1..]);
      var t := ts[0];
      var rest := Join(ts[1..], ", ");
      assert IsCleanSkill(t);
      CleanSkillShape(t);
      assert !IsSpace(',') && IsSpace(' ');
      SpacesAreSingleAppend(t, ", ");
      SpacesAreSingleAppend(t + ", ", rest);
    }
  }

  /** Any list of distinct clean skills survives a join with ", " and a second split unchanged. */
  lemma SplitJoinRoundTrip(ts: seq<string>)
    requires Distinct(ts) && forall t :: t in ts ==> IsCleanSkill(t)
    ensures SmartSplitSkills(Some(Join(ts, ", "))) == ts
  {
    if |ts| > 0 {
      var j := Join(ts, ", ");
      JoinSqueezed(ts);
      SqueezeIdentity(j);
      CleanPartsOfJoin(ts, "");
      assert "" + j == j;
      DedupeDistinct(ts, {});
    }
  }

  /** `smart_split_skills(", ".join(smart_split_skills(x))) == smart_split_skills(x)`. */
  lemma SmartSplitRoundTrip(value: Option<string>)
    ensures SmartSplitSkills(Some(Join(SmartSplitSkills(value), ", "))) == SmartSplitSkills(value)
  {
    SplitJoinRoundTrip(SmartSplitSkills(value));
  }

  // ---------------------------------------------------------------------------------------------
  // extract_skills_from_description

  /** The fixed vocabulary searched for in free-text descriptions. */
  const SkillLexicon: seq<string> := [
    "sql", "python", "excel", "tableau", "power bi", "r", "spark", "hadoop", "aws", "azure",
    "gcp", "machine learning", "deep learning", "statistics", "data analysis", "data visualization",
    "pandas", "numpy", "scikit-learn", "tensorflow", "pytorch", "etl", "airflow", "snowflake",
    "databricks", "docker", "kubernetes", "java", "javascript", "typescript", "react", "node.js",
    "c#", ".net", "go", "rust", "nlp", "llm", "prompt engineering", "git", "agile", "linux"
  ]

  /** `w` occurs at `i` with `\b` on both sides. */
  predicate WordAt(s: string, w: string, i: int) {
    OccursAt(s, w, i) && Boundary(s, i) && Boundary(s, i + |w|)
  }

  /** `re.search(r"\b" + re.escape(w) + r"\b", s)` finds a match. */
  predicate ContainsWord(s: string, w: string) {
    exists i | 0 <= i <= |s| :: WordAt(s, w, i)
  }

  /** The terms of `terms` that occur in `text` as whole words, sorted and without repeats. */
  function FindTerms(text: string, terms: seq<string>): (r: seq<string>)
    requires forall i :: 0 <= i < |terms| ==> |terms[i]| > 0
    ensures StrictlySorted(r)
    ensures forall w :: w in r <==> w in terms && ContainsWord(text, w)
  {
    if text == "" then
      assert forall w :: |w| > 0 ==> !ContainsWord(text, w);
      []
    else
      SortedDistinct(Filter(terms, w => ContainsWord(text, w)))
  }

  /** `extract_skills_from_description`: the lexicon terms found as whole words, sorted. */
  function ExtractSkillsFromDescription(description: Option<string>): (r: seq<string>)
    ensures StrictlySorted(r)
    ensures forall w :: w in r <==> w in SkillLexicon && ContainsWord(Lower(NormalizeText(description)), w)
  {
    var text := Lower(NormalizeText(description));
    LexiconNotEmpty();
    FindTerms(text, SkillLexicon)
  }

  /** The characters the lexicon terms are written with. */
  predicate IsTokenChar(c: char) {
    IsLowerAscii(c) || IsDigit(c) || c == ' ' || c == '.' || c == '#' || c == '-'
  }

  /** From position `i` on, `t` holds token characters and no two adjacent spaces. */
  predicate PlainFrom(t: string, i: nat)
    decreases |t| - i
  {
    i >= |t| || (IsTokenChar(t[i]) && (i + 1 < |t| ==> !(t[i] == ' ' && t[i + 1] == ' ')) && PlainFrom(t, i + 1))
  }

  /** A character-by-character description of a clean token. */
  predicate IsPlainTerm(t: string) {
    t != "" && t[0] !in DashOrSpace && t[|t| - 1] !in DashOrSpace && PlainFrom(t, 0)
  }

  lemma {:induction false} PlainIsClean(t: string, i: nat)
    requires PlainFrom(t, i)
    ensures CleanFrom(t, i)
    decreases |t| - i
  {
    if i < |t| {
      PlainIsClean(t, i + 1);
    }
  }

  lemma PlainTermIsClean(t: string)
    requires IsPlainTerm(t)
    ensures IsCleanSkill(t)
  {
    PlainIsClean(t, 0);
  }

  lemma LexiconPart1IsPlain()
    ensures IsPlainTerm("sql")
         && IsPlainTerm("python")
         && IsPlainTerm("excel")
         && IsPlainTerm("tableau")
         && IsPlainTerm("power bi")
         && IsPlainTerm("r")
         && IsPlainTerm("spark")
  {
    assert IsPlainTerm("sql");
    assert PlainFrom("python", 5);
    assert IsPlainTerm("python");
    assert IsPlainTerm("excel");
    assert PlainFrom("tableau", 5);
    assert IsPlainTerm("tableau");
    assert PlainFrom("power bi", 5);
    assert IsPlainTerm("power bi");
    assert IsPlainTerm("r");
    assert IsPlainTerm("spark");
  }

  lemma LexiconPart2IsPlain()
    ensures IsPlainTerm("hadoop")
         && IsPlainTerm("aws")
         && IsPlainTerm("azure")
         && IsPlainTerm("gcp")
         && IsPlainTerm("machine learning")
  {
    assert PlainFrom("hadoop", 5);
    assert IsPlainTerm("hadoop");
    assert IsPlainTerm("aws");
    assert IsPlainTerm("azure");
    assert IsPlainTerm("gcp");
    assert PlainFrom("machine learning", 15);
    assert PlainFrom("machine learning", 10);
    assert PlainFrom("machine learning", 5);
    assert IsPlainTerm("machine learning");
  }

  lemma LexiconPart3IsPlain()
    ensures IsPlainTerm("deep learning")
         && IsPlainTerm("statistics")
         && IsPlainTerm("data analysis")
  {
    assert PlainFrom("deep learning", 10);
    assert PlainFrom("deep learning", 5);
    assert IsPlainTerm("deep learning");
    assert PlainFrom("statistics", 5);
    assert IsPlainTerm("statistics");
    assert PlainFrom("data analysis", 10);
    assert PlainFrom("data analysis", 5);
    assert IsPlainTerm("data analysis");
  }

  lemma LexiconPart4IsPlain()
    ensures IsPlainTerm("data visualization")
         && IsPlainTerm("pandas")
         && IsPlainTerm("numpy")
  {
    assert PlainFrom("data visualization", 15);
    assert PlainFrom("data visualization", 10);
    assert PlainFrom("data visualization", 5);
    assert IsPlainTerm("data visualization");
    assert PlainFrom("pandas", 5);
    assert IsPlainTerm("pandas");
    assert IsPlainTerm("numpy");
  }

  lemma LexiconPart5IsPlain()
    ensures IsPlainTerm("scikit-learn")
         && IsPlainTerm("tensorflow")
         && IsPlainTerm("pytorch")
         && IsPlainTerm("etl")
  {
    assert PlainFrom("scikit-learn", 10);
    assert PlainFrom("scikit-learn", 5);
    assert IsPlainTerm("scikit-learn");
    assert PlainFrom("tensorflow", 5);
    assert IsPlainTerm("tensorflow");
    assert PlainFrom("pytorch", 5);
    assert IsPlainTerm("pytorch");
    assert IsPlainTerm("etl");
  }

  lemma LexiconPart6IsPlain()
    ensures IsPlainTerm("airflow")
         && IsPlainTerm("snowflake")
         && IsPlainTerm("databricks")
         && IsPlainTerm("docker")
  {
    assert PlainFrom("airflow", 5);
    assert IsPlainTerm("airflow");
    assert PlainFrom("snowflake", 5);
    assert IsPlainTerm("snowflake");
    assert PlainFrom("databricks", 5);
    assert IsPlainTerm("databricks");
    assert PlainFrom("docker", 5);
    assert IsPlainTerm("docker");
  }

  lemma LexiconPart7IsPlain()
    ensures IsPlainTerm("kubernetes")
         && IsPlainTerm("java")
         && IsPlainTerm("javascript")
         && IsPlainTerm("typescript")
  {
    assert PlainFrom("kubernetes", 5);
    assert IsPlainTerm("kubernetes");
    assert IsPlainTerm("java");
    assert PlainFrom("javascript", 5);
    assert IsPlainTerm("javascript");
    assert PlainFrom("typescript", 5);
    assert IsPlainTerm("typescript");
  }

  lemma LexiconPart8IsPlain()
    ensures IsPlainTerm("react")
         && IsPlainTerm("node.js")
         && IsPlainTerm("c#")
         && IsPlainTerm(".net")
         && IsPlainTerm("go")
         && IsPlainTerm("rust")
         && IsPlainTerm("nlp")
         && IsPlainTerm("llm")
  {
    assert IsPlainTerm("react");
    assert PlainFrom("node.js", 5);
    assert IsPlainTerm("node.js");
    assert IsPlainTerm("c#");
    assert IsPlainTerm(".net");
    assert IsPlainTerm("go");
    assert IsPlainTerm("rust");
    assert IsPlainTerm("nlp");
    assert IsPlainTerm("llm");
  }

  lemma LexiconPart9IsPlain()
    ensures IsPlainTerm("prompt engineering")
         && IsPlainTerm("git")
         && IsPlainTerm("agile")
         && IsPlainTerm("linux")
  {
    assert PlainFrom("prompt engineering", 15);
    assert PlainFrom("prompt engineering", 10);
    assert PlainFrom("prompt engineering", 5);
    assert IsPlainTerm("prompt engineering");
    assert IsPlainTerm("git");
    assert IsPlainTerm("agile");
    assert IsPlainTerm("linux");
  }

  /** Every lexicon term is a clean token. */
  lemma LexiconIsClean()
    ensures forall w :: w in SkillLexicon ==> IsCleanSkill(w)
  {
    forall i | 0 <= i < |SkillLexicon| ensures IsCleanSkill(SkillLexicon[i]) {
      if i < 7 {
        LexiconPart1IsPlain();
      } else if i < 12 {
        LexiconPart2IsPlain();
      } else if i < 15 {
        LexiconPart3IsPlain();
      } else if i < 18 {
        LexiconPart4IsPlain();
      } else if i < 22 {
        LexiconPart5IsPlain();
      } else if i < 26 {
        LexiconPart6IsPlain();
      } else if i < 30 {
        LexiconPart7IsPlain();
      } else if i < 38 {
        LexiconPart8IsPlain();
      } else {
        LexiconPart9IsPlain();
      }
      PlainTermIsClean(SkillLexicon[i]);
    }
  }

  lemma LexiconNotEmpty()
    ensures forall i :: 0 <= i < |SkillLexicon| ==> |SkillLexicon[i]| > 0
  {
    LexiconIsClean();
  }

  /**
   * Skills extracted from a description, joined with ", " as ingestion stores them, split back
   * into exactly the extracted list.
   */
  lemma ExtractedSkillsRoundTrip(description: Option<string>)
    ensures SmartSplitSkills(Some(Join(ExtractSkillsFromDescription(description), ", ")))
            == ExtractSkillsFromDescription(description)
  {
    LexiconTermsRoundTrip(ExtractSkillsFromDescription(description));
  }

  /** Any sorted selection of lexicon terms survives joining and re-splitting. */
  lemma LexiconTermsRoundTrip(r: seq<string>)
    requires StrictlySorted(r) && forall w :: w in r ==> w in SkillLexicon
    ensures SmartSplitSkills(Some(Join(r, ", "))) == r
  {
    LexiconIsClean();
    forall i, j | 0 <= i < j < |r| ensures r[i] != r[j] {
      StrictlySortedDistinct(r, i, j);
    }
    SplitJoinRoundTrip(r);
  }

  // ---------------------------------------------------------------------------------------------
  // similarity and best_match

  /** A string-similarity ratio in [0, 1]; `difflib.SequenceMatcher.ratio` in the original. */
  type Ratio = f: (string, string) -> real | forall a, b :: 0.0 <= f(a, b) <= 1.0
    witness (a: string, b: string) => 0.0

  /** The comparison key of a hint or candidate: lower-cased and stripped. */
  function MatchKey(s: string): string {
    Strip(Lower(s))
  }

  /** `similarity(a, b)`: the ratio of the two comparison keys. */
  function Similarity(ratio: Ratio, a: string, b: string): (r: real)
    ensures 0.0 <= r <= 1.0
  {
    ratio(MatchKey(a), MatchKey(b))
  }

  /** The result of `best_match`: the matched candidate, if any, and its score. */
  datatype Match = Match(value: Option<string>, score: real)

  /** The comparison key of an optional hint; empty when the hint is missing. */
  function HintKey(hint: Option<string>): string {
    match hint
    case None => ""
    case Some(h) => MatchKey(h)
  }

  predicate IsExact(q: string, c: string) {
    c != "" && MatchKey(c) == q
  }

  /** The containment test, with Python's precedence: `(c and key in q) or q in key`. */
  predicate IsContaining(q: string, c: string) {
    (c != "" && Contains(q, MatchKey(c))) || Contains(MatchKey(c), q)
  }

  function ExactTo(q: string): string -> bool {
    c => IsExact(q, c)
  }

  function ContainingTo(q: string): string -> bool {
    c => IsContaining(q, c)
  }

  /** The fuzzy score of every candidate against the hint key. */
  function ScoreTo(ratio: Ratio, q: string): string -> real {
    c => Similarity(ratio, q, c)
  }

  function Length(c: string): int {
    |c|
  }

  function NotEmpty(c: string): bool {
    c != ""
  }

  /**
   * The fuzzy tier of `best_match`: the first non-empty candidate of the highest similarity to
   * `q`, reported only when that similarity is positive and reaches `threshold`.
   */
  function FuzzyMatch(q: string, candidates: seq<string>, threshold: real, ratio: Ratio): (r: Match)
    ensures 0.0 <= r.score <= 1.0
    ensures forall c :: c in candidates && c != "" ==> Similarity(ratio, q, c) <= r.score
    ensures r.score == 0.0 || exists c :: c in candidates && c != "" && Similarity(ratio, q, c) == r.score
    ensures r.value.None? <==> r.score < threshold || r.score == 0.0
    ensures r.value.Some? ==>
              && r.value.value in candidates && r.value.value != ""
              && Similarity(ratio, q, r.value.value) == r.score
              && forall j :: 0 <= j < FirstIndex(candidates, r.value.value) ==>
                   candidates[j] == "" || Similarity(ratio, q, candidates[j]) < r.score
  {
    var (best, score) := ArgMaxFrom(candidates, NotEmpty, ScoreTo(ratio, q), None, 0.0);
    assert score > 0.0 ==> best.value in candidates && Similarity(ratio, q, best.value) == score;
    if score < threshold then Match(None, score) else Match(best, score)
  }

  /**
   * The containment tier of `best_match`: the first of the longest candidates that contain, or
   * are contained in, `q`; `None` when no candidate does.
   */
  function ContainMatch(q: string, candidates: seq<string>): (r: Option<string>)
    ensures r.None? <==> forall c :: c in candidates ==> !IsContaining(q, c)
    ensures r.Some? ==>
              && r.value in candidates && IsContaining(q, r.value)
              && (forall c :: c in candidates && IsContaining(q, c) ==> |c| <= |r.value|)
              && forall j :: 0 <= j < FirstIndex(candidates, r.value) ==>
                   !IsContaining(q, candidates[j]) || |candidates[j]| < |r.value|
  {
    MaxWhere(candidates, ContainingTo(q), Length)
  }

  /**
   * `best_match`: an exact match (score 1.0) beats a containing candidate (score 0.92), which
   * beats the best fuzzy candidate; a fuzzy score below `threshold` yields no match.
   */
  function BestMatch(hint: Option<string>, candidates: seq<string>, threshold: real, ratio: Ratio): (r: Match)
    ensures 0.0 <= r.score <= 1.0
    ensures r.value.Some? ==> r.value.value in candidates
    ensures HintKey(hint) == "" ==> r == Match(None, 0.0)
    ensures HintKey(hint) != "" && FirstWhere(candidates, ExactTo(HintKey(hint))) < |candidates| ==>
              r == Match(Some(candidates[FirstWhere(candidates, ExactTo(HintKey(hint)))]), 1.0)
    ensures HintKey(hint) != "" && (forall c :: c in candidates ==> !IsExact(HintKey(hint), c)) &&
            ContainMatch(HintKey(hint), candidates).Some? ==>
              r == Match(ContainMatch(HintKey(hint), candidates), 0.92)
    ensures HintKey(hint) != "" && (forall c :: c in candidates ==> !IsExact(HintKey(hint), c)) &&
            ContainMatch(HintKey(hint), candidates).None? ==>
              r == FuzzyMatch(HintKey(hint), candidates, threshold, ratio)
  {
    var q := HintKey(hint);
    if q == "" then Match(None, 0.0)
    else
      var i := FirstWhere(candidates, ExactTo(q));
      if i < |candidates| then
        Match(Some(candidates[i]), 1.0)
      else
        assert forall c :: c in candidates ==> !IsExact(q, c);
        match ContainMatch(q, candidates)
        case Some(c) => Match(Some(c), 0.92)
        case None => FuzzyMatch(q, candidates, threshold, ratio)
  }
}
