/**
 * The upload pipeline (backend/services/upload_service.py): every row of an uploaded table
 * becomes one `job_postings` row, built from the columns `detect_columns` found, and the new
 * rows replace whatever the table held before.
 */
module UploadService {
  import opened Base
  import opened Strings
  import opened Models
  import opened ColumnMapper
  import opened SkillsParser
  import opened RoleCleaner
  import opened AnalyticsService

  // ---------------------------------------------------------------------------------------------
  // safe_str, safe_float, safe_date

  /**
   * `safe_str`: the stripped text of a cell, or `default` for a missing cell and for "nan" or
   * "none" in any letter case. An empty cell stays empty.
   */
  function SafeStr(x: Option<string>, default: string): (r: string)
    ensures x.None? ==> r == default
    ensures x.Some? && IsNullWord(Strip(x.value)) ==> r == default
    ensures r == default || (Strip(r) == r && !IsNullWord(r) && x.Some? && r == Strip(x.value))
  {
    match x
    case None => default
    case Some(v) =>
      var s := Strip(v);
      StripIdempotent(v);
      if IsNullWord(s) then default else s
  }

  /** A value `safe_str` produced comes back unchanged, provided the default is itself clean. */
  lemma SafeStrIdempotent(x: Option<string>, default: string)
    requires Strip(default) == default && !IsNullWord(default)
    ensures SafeStr(Some(SafeStr(x, default)), default) == SafeStr(x, default)
  {
  }

  /** The stripped cell stands for no value: empty, "nan" or "none" (the guard of `safe_float`, `safe_date`). */
  predicate NoValue(x: Option<string>) {
    x.None? || IsNullText(Strip(x.value))
  }

  /**
   * `safe_float` and `safe_date`, which share one guard: `parse` stands for `float()` or for
   * `pd.to_datetime(...).date()`, and is `None` where that raises or yields NaT. Only a cell
   * with a value reaches it, stripped.
   */
  function SafeParse<T>(x: Option<string>, parse: string -> Option<T>): (r: Option<T>)
    ensures r.None? <==> NoValue(x) || parse(Strip(x.value)).None?
    ensures r.Some? ==> r == parse(Strip(x.value))
  {
    if NoValue(x) then None else parse(Strip(x.value))
  }

  /** Whitespace around a cell never changes what `safe_float` or `safe_date` reads from it. */
  lemma SafeParsePadding<T>(v: string, parse: string -> Option<T>)
    ensures SafeParse(Some(Strip(v)), parse) == SafeParse(Some(v), parse)
  {
    StripIdempotent(v);
  }

  /** `safe_str` with the empty default gives "" exactly for the cells the parsers treat as empty. */
  lemma SafeStrAgreesOnNull(x: Option<string>)
    ensures SafeStr(x, "") == "" <==> NoValue(x)
  {
    if x.Some? {
      StripIdempotent(x.value);
      assert !IsNullWord("");
    }
  }

  // ---------------------------------------------------------------------------------------------
  // process_upload

  /** `if mapping[key]`: a detected, non-empty column name. */
  predicate Mapped(col: Option<string>) {
    col.Some? && col.value != ""
  }

  /** `safe_str(row.get(col), default) if col else default`. */
  function FieldText(columns: seq<string>, row: seq<Cell>, col: Option<string>, default: string): (r: string)
    ensures !Mapped(col) ==> r == default
    ensures Mapped(col) ==> r == SafeStr(CellOf(columns, row, col.value), default)
    ensures r == default || (Mapped(col) && CellOf(columns, row, col.value).Some? && r == Strip(CellOf(columns, row, col.value).value))
  {
    if Mapped(col) then SafeStr(CellOf(columns, row, col.value), default) else default
  }

  /** The ways a row's skills are read, one per branch of the upload. */
  datatype SkillsSource = FromCell | FromDescription

  function SkillsSourceOf(m: ColumnMapping): SkillsSource {
    if Mapped(m.skills) then FromCell else FromDescription
  }

  /** The skills list of a row: the skills cell when a skills column was found, else the description. */
  function SkillsList(columns: seq<string>, row: seq<Cell>, m: ColumnMapping, description: string,
                      literal: string -> Option<seq<string>>): (r: seq<string>)
    ensures SkillsSourceOf(m) == FromCell ==> r == ParseSkillsCell(CellOf(columns, row, m.skills.value), literal)
    ensures SkillsSourceOf(m) == FromDescription ==> r == ExtractSkillsFromText(description)
    ensures SkillsSourceOf(m) == FromDescription ==> forall y :: y in r <==> description != "" && FoundIn(description, y)
    ensures SkillsSourceOf(m) == FromCell && !NoValue(CellOf(columns, row, m.skills.value))
              && !ListLiteral(Strip(CellOf(columns, row, m.skills.value).value), literal) ==>
              forall i :: 0 <= i < |r| ==> IsToken(r[i], CellDelimiters)
  {
    if Mapped(m.skills) then ParseSkillsCell(CellOf(columns, row, m.skills.value), literal)
    else ExtractSkillsFromText(description)
  }

  /** No skill holds a comma. */
  predicate CommaFree(skills: seq<string>) {
    forall i, k :: 0 <= i < |skills| && 0 <= k < |skills[i]| ==> skills[i][k] != ','
  }

  /**
   * `", ".join(sorted(set(s.strip() for s in skills if s.strip())))`. Skills without a comma
   * survive storage: reading the stored text back with `_parse_skills` gives the sorted,
   * duplicate-free, stripped, non-empty skills.
   */
  function StoredSkills(skills: seq<string>): (r: string)
    ensures CommaFree(skills) ==> ParseSkills(r) == SortedDistinct(StrippedTokens(skills))
    ensures CommaFree(skills) ==> StrictlySorted(ParseSkills(r))
  {
    var r := Join(SortedDistinct(StrippedTokens(skills)), ", ");
    if CommaFree(skills) then StoredSkillsRoundTrip(skills); r else r
  }

  /** The round trip of `StoredSkills`, over the joined text. */
  lemma StoredSkillsRoundTrip(skills: seq<string>)
    requires CommaFree(skills)
    ensures ParseSkills(Join(SortedDistinct(StrippedTokens(skills)), ", ")) == SortedDistinct(StrippedTokens(skills))
  {
    forall i | 0 <= i < |skills| ensures forall k :: 0 <= k < |skills[i]| ==> skills[i][k] !in Comma {
    }
    StrippedTokensFree(skills, Comma);
    var ts := SortedDistinct(StrippedTokens(skills));
    forall i | 0 <= i < |ts| ensures IsToken(ts[i], Comma) {
      assert ts[i] in StrippedTokens(skills);
    }
    ParseSkillsOfJoin(ts);
  }

  /**
   * `country_raw if country_raw else "Unknown"`: the stripped country cell, or "Unknown" when
   * the cell is missing, empty, "nan" or "none".
   */
  function CountryField(columns: seq<string>, row: seq<Cell>, m: ColumnMapping): (r: string)
    ensures r != ""
    ensures !Mapped(m.country) ==> r == "Unknown"
    ensures Mapped(m.country) ==>
              var x := CellOf(columns, row, m.country.value);
              r == if NoValue(x) then "Unknown" else Strip(x.value)
    ensures r == "Unknown" || (Mapped(m.country) && CellOf(columns, row, m.country.value).Some?
                               && r == Strip(CellOf(columns, row, m.country.value).value))
  {
    var raw := FieldText(columns, row, m.country, "Unknown");
    if raw != "" then raw else "Unknown"
  }

  /**
   * `clean_role(role_raw)`, with "Unknown" standing in for an unmapped role: the cleaned role
   * cell, or "Unknown" when the cell is missing, empty, "nan" or "none".
   */
  function RoleField(columns: seq<string>, row: seq<Cell>, m: ColumnMapping): (r: string)
    ensures r != "" && |r| <= MaxRoleLength
    ensures !Mapped(m.datasetRole) ==> r == Unknown
    ensures Mapped(m.datasetRole) ==>
              var x := CellOf(columns, row, m.datasetRole.value);
              r == if NoValue(x) then Unknown else CleanRole(Some(Strip(x.value)))
  {
    var raw := FieldText(columns, row, m.datasetRole, "Unknown");
    UnknownIsClean();
    assert CleanRole(Some("")) == Unknown;
    CleanRole(Some(raw))
  }

  /** `safe_date(row.get(col)) if col else None` and `safe_float(row.get(col)) if col else None`. */
  function ParsedField<T>(columns: seq<string>, row: seq<Cell>, col: Option<string>, parse: string -> Option<T>): (r: Option<T>)
    ensures !Mapped(col) ==> r.None?
    ensures Mapped(col) ==> r == SafeParse(CellOf(columns, row, col.value), parse)
    ensures r.Some? ==> Mapped(col) && !NoValue(CellOf(columns, row, col.value))
  {
    if Mapped(col) then SafeParse(CellOf(columns, row, col.value), parse) else None
  }

  /** A row's posting as `process_upload` builds it. */
  function BuildPosting(columns: seq<string>, row: seq<Cell>, m: ColumnMapping,
                        literal: string -> Option<seq<string>>,
                        parseDate: string -> Option<int>, parseFloat: string -> Option<real>): (p: JobPosting)
    ensures p.jobTitle == FieldText(columns, row, m.jobTitle, "")
    ensures p.company == FieldText(columns, row, m.company, "")
    ensures p.location == FieldText(columns, row, m.location, "")
    ensures p.description == FieldText(columns, row, m.description, "")
    ensures p.country == CountryField(columns, row, m)
    ensures p.datasetRole == RoleField(columns, row, m)
    ensures p.roleCategory == ""
    ensures p.postedDate == ParsedField(columns, row, m.postedDate, parseDate)
    ensures p.salaryMin == ParsedField(columns, row, m.salaryMin, parseFloat)
    ensures p.salaryMax == ParsedField(columns, row, m.salaryMax, parseFloat)
    ensures p.extractedSkills == StoredSkills(SkillsList(columns, row, m, p.description, literal))
  {
    var description := FieldText(columns, row, m.description, "");
    JobPosting(
      FieldText(columns, row, m.jobTitle, ""),
      FieldText(columns, row, m.company, ""),
      FieldText(columns, row, m.location, ""),
      CountryField(columns, row, m),
      RoleField(columns, row, m),
      "",
      description,
      ParsedField(columns, row, m.postedDate, parseDate),
      ParsedField(columns, row, m.salaryMin, parseFloat),
      ParsedField(columns, row, m.salaryMax, parseFloat),
      StoredSkills(SkillsList(columns, row, m, description, literal)))
  }

  /** Every posting has a country and a short role, and no category. */
  predicate WellFormedPosting(p: JobPosting) {
    p.country != "" && p.datasetRole != "" && |p.datasetRole| <= MaxRoleLength && p.roleCategory == ""
  }

  lemma BuiltPostingWellFormed(columns: seq<string>, row: seq<Cell>, m: ColumnMapping,
                               literal: string -> Option<seq<string>>,
                               parseDate: string -> Option<int>, parseFloat: string -> Option<real>)
    ensures WellFormedPosting(BuildPosting(columns, row, m, literal, parseDate, parseFloat))
  {
    var p := BuildPosting(columns, row, m, literal, parseDate, parseFloat);
    assert p.country == CountryField(columns, row, m);
    assert p.datasetRole == RoleField(columns, row, m);
  }

  /** A skill found in a description holds no comma. */
  lemma FoundCommaFree(text: string, y: string)
    requires FoundIn(text, y)
    ensures forall k :: 0 <= k < |y| ==> y[k] != ','
  {
    var i :| 0 <= i < |SkillDictionary| && Contains(Lower(text), SkillDictionary[i]) && y == Title(SkillDictionary[i]);
    TitleCommaFree(SkillDictionary[i]);
  }

  /** Title-casing adds no comma. */
  lemma TitleCommaFree(d: string)
    requires ',' !in d
    ensures forall k :: 0 <= k < |Title(d)| ==> Title(d)[k] != ','
  {
    var y := Title(d);
    forall k | 0 <= k < |y| ensures y[k] != ',' {
      assert Lower(y)[k] == LowerChar(y[k]);
      assert Lower(d)[k] == LowerChar(d[k]);
      assert d[k] in d;
    }
  }

  /** A row's skills contain no comma unless they came from a list literal in the skills cell. */
  lemma SkillsListCommaFree(columns: seq<string>, row: seq<Cell>, m: ColumnMapping, description: string,
                            literal: string -> Option<seq<string>>)
    requires SkillsSourceOf(m) == FromCell ==>
               NoValue(CellOf(columns, row, m.skills.value)) || !ListLiteral(Strip(CellOf(columns, row, m.skills.value).value), literal)
    ensures var s := SkillsList(columns, row, m, description, literal);
            CommaFree(s)
  {
    var s := SkillsList(columns, row, m, description, literal);
    if SkillsSourceOf(m) == FromDescription {
      forall i | 0 <= i < |s| ensures forall k :: 0 <= k < |s[i]| ==> s[i][k] != ',' {
        assert s[i] in s;
        FoundCommaFree(description, s[i]);
      }
    } else if NoValue(CellOf(columns, row, m.skills.value)) {
      assert s == [];
    } else {
      assert ',' in CellDelimiters;
      forall i | 0 <= i < |s| ensures forall k :: 0 <= k < |s[i]| ==> s[i][k] != ',' {
        assert IsToken(s[i], CellDelimiters);
      }
    }
  }

  /**
   * Unless a skills cell held a list literal, the skills the analytics read back from a stored
   * posting are the row's distinct skills, sorted, so no posting lists a skill twice.
   */
  lemma PostingSkillsReadBack(columns: seq<string>, row: seq<Cell>, m: ColumnMapping,
                              literal: string -> Option<seq<string>>,
                              parseDate: string -> Option<int>, parseFloat: string -> Option<real>)
    requires SkillsSourceOf(m) == FromCell ==>
               NoValue(CellOf(columns, row, m.skills.value)) || !ListLiteral(Strip(CellOf(columns, row, m.skills.value).value), literal)
    ensures var p := BuildPosting(columns, row, m, literal, parseDate, parseFloat);
            && ParseSkills(p.extractedSkills) == SortedDistinct(StrippedTokens(SkillsList(columns, row, m, p.description, literal)))
            && StrictlySorted(ParseSkills(p.extractedSkills))
  {
    var p := BuildPosting(columns, row, m, literal, parseDate, parseFloat);
    SkillsListCommaFree(columns, row, m, p.description, literal);
  }

  /** `[str(c).strip() for c in df.columns]`. */
  function StripColumns(columns: seq<string>): (r: seq<string>)
    ensures |r| == |columns| && forall i :: 0 <= i < |r| ==> r[i] == Strip(columns[i])
  {
    if |columns| == 0 then [] else [Strip(columns[0])] + StripColumns(columns[1..])
  }

  /** The response of `process_upload`, with the table that replaces `job_postings`. */
  datatype UploadResult = UploadResult(
    message: string,
    rowsReceived: nat,
    rowsInserted: nat,
    rowsSkipped: nat,
    detectedColumns: ColumnMapping,
    postings: seq<JobPosting>)

  const UploadMessage: string := "Upload processed successfully"

  function BuildPostings(columns: seq<string>, rows: seq<seq<Cell>>, m: ColumnMapping,
                         literal: string -> Option<seq<string>>,
                         parseDate: string -> Option<int>, parseFloat: string -> Option<real>): (ps: seq<JobPosting>)
    ensures |ps| == |rows|
    ensures forall i :: 0 <= i < |rows| ==> ps[i] == BuildPosting(columns, rows[i], m, literal, parseDate, parseFloat)
  {
    if |rows| == 0 then []
    else [BuildPosting(columns, rows[0], m, literal, parseDate, parseFloat)]
         + BuildPostings(columns, rows[1..], m, literal, parseDate, parseFloat)
  }

  lemma PostingsWellFormed(columns: seq<string>, rows: seq<seq<Cell>>, m: ColumnMapping,
                           literal: string -> Option<seq<string>>,
                           parseDate: string -> Option<int>, parseFloat: string -> Option<real>)
    ensures var ps := BuildPostings(columns, rows, m, literal, parseDate, parseFloat);
            forall i :: 0 <= i < |ps| ==> WellFormedPosting(ps[i])
  {
    var ps := BuildPostings(columns, rows, m, literal, parseDate, parseFloat);
    forall i | 0 <= i < |ps| ensures WellFormedPosting(ps[i]) {
      BuiltPostingWellFormed(columns, rows[i], m, literal, parseDate, parseFloat);
    }
  }

  /**
   * The upload once the mapping is known: the old postings are deleted and every row is
   * inserted, nothing is skipped.
   */
  function UploadWith(columns: seq<string>, rows: seq<seq<Cell>>, m: ColumnMapping,
                      literal: string -> Option<seq<string>>,
                      parseDate: string -> Option<int>, parseFloat: string -> Option<real>): (r: UploadResult)
    ensures r.message == UploadMessage && r.detectedColumns == m
    ensures r.rowsReceived == r.rowsInserted == |rows| == |r.postings| && r.rowsSkipped == 0
    ensures forall i :: 0 <= i < |r.postings| ==>
              r.postings[i] == BuildPosting(columns, rows[i], m, literal, parseDate, parseFloat)
    ensures forall i :: 0 <= i < |r.postings| ==> WellFormedPosting(r.postings[i])
  {
    PostingsWellFormed(columns, rows, m, literal, parseDate, parseFloat);
    UploadResult(UploadMessage, |rows|, |rows|, 0, m, BuildPostings(columns, rows, m, literal, parseDate, parseFloat))
  }

  /** `process_upload`: the upload against the columns detected on the stripped header. */
  function ProcessUpload(table: Table, literal: string -> Option<seq<string>>,
                         parseDate: string -> Option<int>, parseFloat: string -> Option<real>): (r: UploadResult)
    ensures r.detectedColumns == DetectColumns(StripColumns(table.columns))
    ensures MappingWithin(r.detectedColumns, StripColumns(table.columns))
    ensures r == UploadWith(StripColumns(table.columns), table.rows, r.detectedColumns, literal, parseDate, parseFloat)
  {
    var columns := StripColumns(table.columns);
    UploadWith(columns, table.rows, DetectColumns(columns), literal, parseDate, parseFloat)
  }
}
