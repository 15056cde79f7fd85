/**
 * Skill parsing of the upload pipeline (backend/services/skills_parser.py): a skills cell is
 * split on `,`, `|` and `;`, and a description is searched for dictionary entries by plain
 * substring containment.
 */
module SkillsParser {
  import opened Base
  import opened Strings

  // ---------------------------------------------------------------------------------------------
  // parse_skills_cell

  /** The delimiter class `[,\|;]` of the cell splitter (a slash is not a delimiter here). */
  const CellDelimiters: set<char> := {',', '|', ';'}

  /** A stripped cell that stands for no value: empty, "nan" or "none" in any letter case. */
  predicate IsNullText(s: string) {
    s == "" || IsNullWord(s)
  }

  /** A stripped cell written as a bracketed list that the literal parser reads as a list. */
  predicate ListLiteral(s: string, literal: string -> Option<seq<string>>) {
    StartsWith(s, "[") && EndsWith(s, "]") && literal(s).Some?
  }

  /**
   * `parse_skills_cell`. The `ast.literal_eval` branch is the parameter `literal`: it yields the
   * `str()` of every element when the text parses as a list and `None` otherwise (a parse error
   * or a value that is not a list), which falls through to the delimiter split. Splitting on
   * single delimiters and dropping empty parts gives the same tokens as splitting on runs.
   */
  function ParseSkillsCell(value: Option<string>, literal: string -> Option<seq<string>>): (r: seq<string>)
    ensures value.None? ==> r == []
    ensures value.Some? && IsNullText(Strip(value.value)) ==> r == []
    ensures forall i :: 0 <= i < |r| ==> r[i] != "" && Strip(r[i]) == r[i]
    ensures value.Some? && !ListLiteral(Strip(value.value), literal) ==>
              forall i :: 0 <= i < |r| ==> IsToken(r[i], CellDelimiters)
  {
    match value
    case None => []
    case Some(v) =>
      var s := Strip(v);
      if IsNullText(s) then []
      else if ListLiteral(s, literal) then StrippedTokens(literal(s).value)
      else
        var r := StrippedTokens(SplitOn(s, CellDelimiters));
        DelimiterTokens(s);
        r
  }

  lemma DelimiterTokens(s: string)
    ensures forall i :: 0 <= i < |StrippedTokens(SplitOn(s, CellDelimiters))| ==>
              IsToken(StrippedTokens(SplitOn(s, CellDelimiters))[i], CellDelimiters)
  {
    StrippedTokensFree(SplitOn(s, CellDelimiters), CellDelimiters);
  }

  /**
   * Round trip: tokens without delimiters, joined with ", ", parse back to themselves, unless
   * the text would be read as a list literal or as a null marker.
   */
  lemma ParseJoinRoundTrip(ts: seq<string>, literal: string -> Option<seq<string>>)
    requires forall i :: 0 <= i < |ts| ==> IsToken(ts[i], CellDelimiters)
    requires |ts| > 0 ==> !StartsWith(ts[0], "[")
    requires |ts| == 1 ==> !IsNullText(ts[0])
    ensures ParseSkillsCell(Some(Join(ts, ", ")), literal) == ts
  {
    if |ts| > 0 {
      JoinedParse(ts, literal);
      TokensBack(ts);
    }
  }

  lemma JoinedParse(ts: seq<string>, literal: string -> Option<seq<string>>)
    requires |ts| > 0 && forall i :: 0 <= i < |ts| ==> IsToken(ts[i], CellDelimiters)
    requires !StartsWith(ts[0], "[")
    requires |ts| == 1 ==> !IsNullText(ts[0])
    ensures ParseSkillsCell(Some(Join(ts, ", ")), literal) == StrippedTokens(SplitOn(Join(ts, ", "), CellDelimiters))
  {
    JoinedCell(ts);
    ParseDelimited(Join(ts, ", "), literal);
  }

  lemma TokensBack(ts: seq<string>)
    requires |ts| > 0 && forall i :: 0 <= i < |ts| ==> IsToken(ts[i], CellDelimiters)
    ensures StrippedTokens(SplitOn(Join(ts, ", "), CellDelimiters)) == ts
  {
    assert ',' in CellDelimiters && ' ' !in CellDelimiters;
    StrippedTokensOfJoin(ts, "", CellDelimiters);
    assert "" + Join(ts, ", ") == Join(ts, ", ");
  }

  /** A cell that is neither null nor bracketed takes the delimiter path. */
  lemma ParseDelimited(v: string, literal: string -> Option<seq<string>>)
    requires !IsNullText(Strip(v)) && !StartsWith(Strip(v), "[")
    ensures ParseSkillsCell(Some(v), literal) == StrippedTokens(SplitOn(Strip(v), CellDelimiters))
  {
  }

  /** The joined text is its own strip and is neither a list literal nor a null marker. */
  lemma JoinedCell(ts: seq<string>)
    requires |ts| > 0 && forall i :: 0 <= i < |ts| ==> IsToken(ts[i], CellDelimiters)
    requires !StartsWith(ts[0], "[")
    requires |ts| == 1 ==> !IsNullText(ts[0])
    ensures Strip(Join(ts, ", ")) == Join(ts, ", ")
    ensures !StartsWith(Join(ts, ", "), "[")
    ensures !IsNullText(Join(ts, ", "))
  {
    JoinStripped(ts);
    JoinNotList(ts);
    if |ts| > 1 {
      JoinNotNull(ts);
    }
  }

  lemma JoinNotList(ts: seq<string>)
    requires |ts| > 0 && ts[0] != "" && !StartsWith(ts[0], "[")
    ensures !StartsWith(Join(ts, ", "), "[")
  {
    if |ts| > 1 {
      assert Join(ts, ", ") == ts[0] + (", " + Join(ts[1..], ", "));
    }
  }

  lemma JoinNotNull(ts: seq<string>)
    requires |ts| > 1
    ensures !IsNullText(Join(ts, ", "))
  {
    var j := Join(ts, ", ");
    assert j == ts[0] + ", " + Join(ts[1..], ", ");
    assert j[|ts[0]|] == ',';
    NotNullWithComma(j, |ts[0]|);
  }

  /** A text holding a comma is not a null marker. */
  lemma NotNullWithComma(s: string, k: int)
    requires 0 <= k < |s| && s[k] == ','
    ensures !IsNullText(s)
  {
    assert Lower(s)[k] == ',';
    assert ',' !in "nan" && ',' !in "none";
  }

  // ---------------------------------------------------------------------------------------------
  // extract_skills_from_text

  /** A dictionary entry holds no comma, so a stored ", "-joined list splits back into entries. */
  type SkillWord = w: string | ',' !in w

  /** `SKILL_DICTIONARY`, one constant per line of the source list, in order. */
  const SkillDictionary: seq<SkillWord> := DictLine1 + DictLine2 + DictLine3 + DictLine4 + DictLine5 + DictLine6 + DictLine7

  const DictLine1: seq<SkillWord> := ["python", "sql", "aws", "azure", "gcp", "docker", "kubernetes"]
  const DictLine2: seq<SkillWord> := ["react", "fastapi", "django", "flask", "node", "express"]
  const DictLine3: seq<SkillWord> := ["java", "c++", "c", "javascript", "typescript"]
  const DictLine4: seq<SkillWord> := ["pandas", "numpy", "scikit-learn", "tensorflow", "pytorch"]
  const DictLine5: seq<SkillWord> := ["power bi", "tableau", "excel", "spark", "hadoop"]
  const DictLine6: seq<SkillWord> := ["mongodb", "postgresql", "mysql", "sqlite"]
  const DictLine7: seq<SkillWord> := ["git", "linux", "rest", "graphql"]

  /**
   * `str.title()` on ASCII: a letter is upper-cased when the character before it is not a
   * letter and lower-cased when it is; other characters are kept.
   */
  function TitleFrom(s: string, afterLetter: bool): (r: string)
    ensures |r| == |s|
    ensures Lower(r) == Lower(s)
    ensures forall i :: 0 <= i < |s| ==>
              r[i] == if (if i == 0 then afterLetter else IsLetter(s[i - 1])) then LowerChar(s[i]) else UpperChar(s[i])
  {
    if |s| == 0 then ""
    else
      var c := if afterLetter then LowerChar(s[0]) else UpperChar(s[0]);
      var rest := TitleFrom(s[1..], IsLetter(s[0]));
      var r := [c] + rest;
      assert Lower(r)[0] == Lower(s)[0];
      assert Lower(r)[1..] == Lower(r[1..]);
      assert forall i :: 0 < i < |s| ==> r[i] == rest[i - 1] && s[1..][i - 1] == s[i];
      r
  }

  /**
   * `str.title()` on ASCII: the first letter of every run of letters upper-cased, every other
   * letter lower-cased, every other character kept.
   */
  function Title(s: string): (r: string)
    ensures |r| == |s| && Lower(r) == Lower(s)
    ensures forall i :: 0 <= i < |s| ==>
              r[i] == if i > 0 && IsLetter(s[i - 1]) then LowerChar(s[i]) else UpperChar(s[i])
  {
    TitleFrom(s, false)
  }

  /** The title-cased dictionary entries found in the lower-cased text `t`, in dictionary order. */
  function FoundSkills(t: string, dict: seq<string>): (r: seq<string>)
    ensures forall y :: y in r <==> exists i :: 0 <= i < |dict| && Contains(t, dict[i]) && y == Title(dict[i])
  {
    if |dict| == 0 then []
    else
      var rest := FoundSkills(t, dict[1..]);
      assert forall i :: 0 < i < |dict| ==> dict[i] == dict[1..][i - 1];
      (if Contains(t, dict[0]) then [Title(dict[0])] else []) + rest
  }

  /** A dictionary entry whose title-cased form was found. */
  predicate FoundIn(text: string, y: string) {
    exists i :: 0 <= i < |SkillDictionary| && Contains(Lower(text), SkillDictionary[i]) && y == Title(SkillDictionary[i])
  }

  /**
   * `extract_skills_from_text`: `sorted(set(...))` of the title-cased entries that occur as
   * substrings of the lower-cased text (no word boundaries).
   */
  function ExtractSkillsFromText(text: string): (r: seq<string>)
    ensures text == "" ==> r == []
    ensures StrictlySorted(r)
    ensures forall y :: y in r <==> text != "" && FoundIn(text, y)
    ensures forall y :: y in r ==> Contains(Lower(text), Lower(y))
  {
    if text == "" then []
    else
      var r := SortedDistinct(FoundSkills(Lower(text), SkillDictionary));
      assert forall y :: y in r ==> Contains(Lower(text), Lower(y)) by {
        forall y | y in r ensures Contains(Lower(text), Lower(y)) {
          var i :| 0 <= i < |SkillDictionary| && Contains(Lower(text), SkillDictionary[i]) && y == Title(SkillDictionary[i]);
          LowerContained(Lower(text), SkillDictionary[i]);
          LowerOfLowered(Lower(text));
        }
      }
      r
  }

  /** A substring of `t` lower-cases to a substring of `Lower(t)`. */
  lemma LowerContained(t: string, w: string)
    requires Contains(t, w)
    ensures Contains(Lower(t), Lower(w))
  {
    var i :| 0 <= i <= |t| && OccursAt(t, w, i);
    LowerSlice(t, i, i + |w|);
    assert OccursAt(Lower(t), Lower(w), i);
  }

  /** Plain substring matching: any text with the letter c, in either case, yields "C". */
  lemma LetterCYieldsC(text: string, k: int)
    requires 0 <= k < |text| && (text[k] == 'c' || text[k] == 'C')
    ensures "C" in ExtractSkillsFromText(text)
  {
    var t := Lower(text);
    assert t[k..k + 1] == "c";
    assert OccursAt(t, "c", k);
    assert SkillDictionary[15] == "c";
    assert Title("c") == "C";
    assert FoundIn(text, "C");
  }

  /** A longer text finds every skill a text it contains finds. */
  lemma ExtractMonotone(a: string, b: string)
    requires a != "" && Contains(b, a)
    ensures forall y :: y in ExtractSkillsFromText(a) ==> y in ExtractSkillsFromText(b)
  {
    LowerContained(b, a);
    forall y | y in ExtractSkillsFromText(a) ensures y in ExtractSkillsFromText(b) {
      var i :| 0 <= i < |SkillDictionary| && Contains(Lower(a), SkillDictionary[i]) && y == Title(SkillDictionary[i]);
      ContainsTransitive(Lower(b), Lower(a), SkillDictionary[i]);
      assert FoundIn(b, y);
    }
  }
}
