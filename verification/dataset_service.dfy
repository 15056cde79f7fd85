/**
 * Ingestion of an uploaded job-postings table (backend/app/services/dataset_service.py): the
 * columns holding role, country, skills, description and date are found by alias, then by
 * fuzzy matching; a table without a usable role, country or skill source is rejected before
 * anything is written; otherwise the previous dataset is replaced by the new one.
 */
module DatasetService {
  import opened Base
  import opened Seqs
  import opened Strings
  import opened TextUtils
  import opened Models

  // ---------------------------------------------------------------------------------------------
  // Column detection

  const RoleAliases: seq<string> := ["role", "job title", "job_title", "title", "position", "occupation"]
  const CountryAliases: seq<string> := ["country", "location", "job_country", "region", "market"]
  const SkillsAliases: seq<string> := ["skills", "skill", "key_skills", "core_skills"]
  const DescriptionAliases: seq<string> := ["description", "job_description", "summary", "responsibilities"]
  const DateAliases: seq<string> := ["date", "posted_date", "posting_date", "created_at", "publish_date"]

  /** `_clean_columns`: every header trimmed. */
  function CleanColumns(columns: seq<string>): (r: seq<string>)
    ensures |r| == |columns|
    ensures forall i :: 0 <= i < |r| ==> r[i] == Strip(columns[i])
  {
    seq(|columns|, i requires 0 <= i < |columns| => Strip(columns[i]))
  }

  /** Cleaning headers twice changes nothing more. */
  lemma CleanColumnsIdempotent(columns: seq<string>)
    ensures CleanColumns(CleanColumns(columns)) == CleanColumns(columns)
  {
    forall i | 0 <= i < |columns| ensures Strip(Strip(columns[i])) == Strip(columns[i]) {
      StripIdempotent(columns[i]);
    }
  }

  /** The comparison key of every column: lower-cased and trimmed. */
  function ColumnKeys(columns: seq<string>): (ks: seq<string>)
    ensures |ks| == |columns|
    ensures forall i :: 0 <= i < |ks| ==> ks[i] == MatchKey(columns[i])
  {
    seq(|columns|, i requires 0 <= i < |columns| => MatchKey(columns[i]))
  }

  function InKeys(keys: seq<string>): string -> bool {
    a => a in keys
  }

  /**
   * `_detect_column`: the first alias, in list order, that equals a column's key selects the
   * first such column with score 1.0; when no alias does, the best fuzzy match of all the
   * aliases joined by spaces, accepted at any score.
   */
  function DetectColumn(columns: seq<string>, aliases: seq<string>, ratio: Ratio): (r: Match)
    ensures 0.0 <= r.score <= 1.0
    ensures r.value.Some? ==> r.value.value in columns
    ensures (forall a :: a in aliases ==> a !in ColumnKeys(columns)) ==>
              r == BestMatch(Some(Join(aliases, " ")), columns, 0.0, ratio)
  {
    var keys := ColumnKeys(columns);
    var k := FirstWhere(aliases, InKeys(keys));
    if k < |aliases| then
      Match(Some(columns[FirstIndex(keys, aliases[k])]), 1.0)
    else
      assert forall a :: a in aliases ==> a !in keys;
      BestMatch(Some(Join(aliases, " ")), columns, 0.0, ratio)
  }

  /** The first alias, in list order, that is some column's key picks the first such column. */
  lemma DetectByAlias(columns: seq<string>, aliases: seq<string>, ratio: Ratio, k: int)
    requires 0 <= k < |aliases| && aliases[k] in ColumnKeys(columns)
    requires forall j :: 0 <= j < k ==> aliases[j] !in ColumnKeys(columns)
    ensures DetectColumn(columns, aliases, ratio) == Match(Some(columns[FirstIndex(ColumnKeys(columns), aliases[k])]), 1.0)
  {
    assert FirstWhere(aliases, InKeys(ColumnKeys(columns))) == k;
  }

  /**
   * Without an alias hit, a non-blank column whose key occurs in the joined aliases is found
   * at the containment tier: some column is chosen and the score is at least 0.92.
   */
  lemma DetectByContainment(columns: seq<string>, aliases: seq<string>, ratio: Ratio, c: string)
    requires forall a :: a in aliases ==> a !in ColumnKeys(columns)
    requires c in columns && MatchKey(c) != "" && Contains(MatchKey(Join(aliases, " ")), MatchKey(c))
    ensures DetectColumn(columns, aliases, ratio).value.Some?
    ensures DetectColumn(columns, aliases, ratio).score >= 0.92
  {
    var q := HintKey(Some(Join(aliases, " ")));
    assert q != "";
    assert IsContaining(q, c);
    if FirstWhere(columns, ExactTo(q)) == |columns| {
      assert forall x :: x in columns ==> !IsExact(q, x);
    }
  }

  // ---------------------------------------------------------------------------------------------
  // Validation

  datatype FileKind = Csv | Excel

  /** The reader chosen by file extension, case-insensitively; `None` for anything else. */
  function FileKindOf(name: string): (r: Option<FileKind>)
    ensures r == Some(Csv) <==> EndsWith(Lower(name), ".csv")
    ensures r.None? <==>
              !EndsWith(Lower(name), ".csv") && !EndsWith(Lower(name), ".xlsx") && !EndsWith(Lower(name), ".xls")
  {
    var n := Lower(name);
    if EndsWith(n, ".csv") then Some(Csv)
    else if EndsWith(n, ".xlsx") || EndsWith(n, ".xls") then Some(Excel)
    else None
  }

  /** The reasons an upload is rejected, in the order they are checked. */
  datatype IngestError = UnsupportedFileType | EmptyDataset | NoRoleColumn | NoCountryColumn | NoSkillSource

  /** What column detection found for each field. */
  datatype Detection = Detection(role: Match, country: Match, skills: Match, description: Match, date: Match)

  predicate ScoresInRange(d: Detection) {
    && 0.0 <= d.role.score <= 1.0 && 0.0 <= d.country.score <= 1.0 && 0.0 <= d.skills.score <= 1.0
    && 0.0 <= d.description.score <= 1.0 && 0.0 <= d.date.score <= 1.0
  }

  /** All five detections over the cleaned headers. */
  function DetectAll(columns: seq<string>, ratio: Ratio): (d: Detection)
    ensures ScoresInRange(d)
  {
    Detection(
      DetectColumn(columns, RoleAliases, ratio),
      DetectColumn(columns, CountryAliases, ratio),
      DetectColumn(columns, SkillsAliases, ratio),
      DetectColumn(columns, DescriptionAliases, ratio),
      DetectColumn(columns, DateAliases, ratio))
  }

  /** The minimum score for the skills column. */
  const SkillsThreshold: real := 0.45
  /** The minimum score for the description and date columns. */
  const TextThreshold: real := 0.35

  /** A column is used when one was found and its score reaches the threshold. */
  predicate Accepts(m: Match, threshold: real) {
    m.value.Some? && m.score >= threshold
  }

  /** `not col`: no column, or an empty column name. */
  predicate Missing(m: Match) {
    m.value.None? || m.value.value == ""
  }

  /** `df.empty`: no rows or no columns. */
  predicate IsEmpty(t: Table) {
    |t.rows| == 0 || |t.columns| == 0
  }

  function Max(a: real, b: real): (r: real)
    ensures r >= a && r >= b && (r == a || r == b)
  {
    if a >= b then a else b
  }

  /**
   * The mapping confidence: the mean of the role, country and date scores and the better of
   * the skills and description scores.
   */
  function MappingConfidence(d: Detection): (r: real)
    ensures ScoresInRange(d) ==> 0.0 <= r <= 1.0
    ensures ScoresInRange(d) ==>
              (r == 1.0 <==> && d.role.score == 1.0 && d.country.score == 1.0 && d.date.score == 1.0
                             && (d.skills.score == 1.0 || d.description.score == 1.0))
    ensures ScoresInRange(d) ==>
              (r == 0.0 <==> && d.role.score == 0.0 && d.country.score == 0.0 && d.date.score == 0.0
                             && d.skills.score == 0.0 && d.description.score == 0.0)
  {
    (d.role.score + d.country.score + Max(d.skills.score, d.description.score) + d.date.score) / 4.0
  }

  /** A column name, or `None` when the field is not used. */
  function UsedColumn(m: Match, used: bool): Option<string> {
    if used then m.value else None
  }

  /**
   * The checks of `ingest_dataset` up to the new `Dataset` row: file type, emptiness, role,
   * country, and at least one skill source; then the accepted columns and flags.
   */
  function NewDataset(fileName: string, table: Table, ratio: Ratio, id: int): (r: Result<Dataset, IngestError>)
    ensures var d := DetectAll(CleanColumns(table.columns), ratio);
            && (r == Failure(UnsupportedFileType) <==> FileKindOf(fileName).None?)
            && (r == Failure(EmptyDataset) <==> FileKindOf(fileName).Some? && IsEmpty(table))
            && (r == Failure(NoRoleColumn) <==>
                  FileKindOf(fileName).Some? && !IsEmpty(table) && Missing(d.role))
            && (r == Failure(NoCountryColumn) <==>
                  FileKindOf(fileName).Some? && !IsEmpty(table) && !Missing(d.role) && Missing(d.country))
            && (r == Failure(NoSkillSource) <==>
                  && FileKindOf(fileName).Some? && !IsEmpty(table) && !Missing(d.role) && !Missing(d.country)
                  && !Accepts(d.skills, SkillsThreshold) && !Accepts(d.description, TextThreshold))
    ensures r.Success? ==> ValidDataset(r.value, fileName, table, ratio, id)
  {
    if FileKindOf(fileName).None? then Failure(UnsupportedFileType)
    else if IsEmpty(table) then Failure(EmptyDataset)
    else
      var d := DetectAll(CleanColumns(table.columns), ratio);
      if Missing(d.role) then Failure(NoRoleColumn)
      else if Missing(d.country) then Failure(NoCountryColumn)
      else
        var hasSkills := Accepts(d.skills, SkillsThreshold);
        var hasDescription := Accepts(d.description, TextThreshold);
        var hasDate := Accepts(d.date, TextThreshold);
        if !hasSkills && !hasDescription then Failure(NoSkillSource)
        else
          Success(Dataset(
            id, fileName, |table.rows|,
            d.role.value, d.country.value,
            UsedColumn(d.skills, hasSkills),
            UsedColumn(d.description, hasDescription),
            UsedColumn(d.date, hasDate),
            hasSkills, !hasSkills, hasDate,
            MappingConfidence(d)))
  }

  /**
   * What an accepted upload records about itself: the role and country columns found, each
   * optional column present exactly when accepted at its threshold, at least one skill source,
   * description extraction exactly when there is no skills column, and a confidence in [0, 1].
   */
  ghost predicate ValidDataset(ds: Dataset, fileName: string, table: Table, ratio: Ratio, id: int) {
    var d := DetectAll(CleanColumns(table.columns), ratio);
    && ds.id == id && ds.filename == fileName && ds.totalJobs == |table.rows| && |table.rows| > 0
    && ds.roleColumn.Some? && ds.roleColumn == d.role.value && ds.roleColumn.value in CleanColumns(table.columns)
    && ds.countryColumn.Some? && ds.countryColumn == d.country.value
    && ds.countryColumn.value in CleanColumns(table.columns)
    && (ds.hasSkillsColumn <==> d.skills.value.Some? && d.skills.score >= SkillsThreshold)
    && (ds.skillsColumn.Some? <==> ds.hasSkillsColumn)
    && (ds.skillsColumn.Some? ==> ds.skillsColumn == d.skills.value)
    && (ds.descriptionColumn.Some? <==> d.description.value.Some? && d.description.score >= TextThreshold)
    && (ds.descriptionColumn.Some? ==> ds.descriptionColumn == d.description.value)
    && (ds.hasDateColumn <==> d.date.value.Some? && d.date.score >= TextThreshold)
    && (ds.dateColumn.Some? <==> ds.hasDateColumn)
    && (ds.dateColumn.Some? ==> ds.dateColumn == d.date.value)
    && (ds.skillsColumn.Some? || ds.descriptionColumn.Some?)
    && ds.usedDescriptionExtraction == !ds.hasSkillsColumn
    && 0.0 <= ds.mappingConfidence <= 1.0
    && ds.mappingConfidence == MappingConfidence(d)
  }

  // ---------------------------------------------------------------------------------------------
  // Rows

  /** `row.get(col)`, where `row.get(None)` gives `None`. */
  function CellFor(columns: seq<string>, row: seq<Cell>, col: Option<string>): Cell {
    match col
    case None => None
    case Some(c) => CellOf(columns, row, c)
  }

  /** The normalised description of a row, or "" when no description column is used. */
  function RowDescription(ds: Dataset, columns: seq<string>, row: seq<Cell>): string {
    if ds.descriptionColumn.Some? then NormalizeText(CellFor(columns, row, ds.descriptionColumn)) else ""
  }

  /**
   * The skills of a row: the split skills cell when the skills column is used, otherwise the
   * lexicon terms found in the normalised description.
   */
  function RowSkills(ds: Dataset, columns: seq<string>, row: seq<Cell>): (r: seq<string>)
    ensures Distinct(r)
    ensures ds.hasSkillsColumn ==> r == SmartSplitSkills(CellFor(columns, row, ds.skillsColumn))
    ensures !ds.hasSkillsColumn ==> r == ExtractSkillsFromDescription(Some(RowDescription(ds, columns, row)))
  {
    if ds.hasSkillsColumn then SmartSplitSkills(CellFor(columns, row, ds.skillsColumn))
    else
      var found := ExtractSkillsFromDescription(Some(RowDescription(ds, columns, row)));
      assert Distinct(found) by {
        forall i, j | 0 <= i < j < |found| ensures found[i] != found[j] {
          StrictlySortedDistinct(found, i, j);
        }
      }
      found
  }

  /** The `job_records` row built from one table row; `parseDate` stands for `_parse_date`. */
  function BuildRecord(ds: Dataset, columns: seq<string>, row: seq<Cell>, parseDate: Cell -> Option<int>): (r: JobRecord)
    ensures r.datasetId == ds.id
    ensures r.role == NormalizeText(CellFor(columns, row, ds.roleColumn))
    ensures r.country == NormalizeText(CellFor(columns, row, ds.countryColumn))
    ensures ds.descriptionColumn.Some? ==> r.description == NormalizeText(CellFor(columns, row, ds.descriptionColumn))
    ensures ds.descriptionColumn.None? ==> r.description == ""
    ensures IsSqueezed(r.role) && IsSqueezed(r.country) && IsSqueezed(r.description)
    ensures ds.hasDateColumn ==> r.postedDate == parseDate(CellFor(columns, row, ds.dateColumn))
    ensures !ds.hasDateColumn ==> r.postedDate.None?
    ensures r.skillsText == Join(RowSkills(ds, columns, row), ", ")
    ensures SmartSplitSkills(Some(r.skillsText)) == RowSkills(ds, columns, row)
  {
    var skills := RowSkills(ds, columns, row);
    StoredSkillsRoundTrip(ds, columns, row);
    JobRecord(
      ds.id,
      NormalizeText(CellFor(columns, row, ds.roleColumn)),
      NormalizeText(CellFor(columns, row, ds.countryColumn)),
      Join(skills, ", "),
      RowDescription(ds, columns, row),
      if ds.hasDateColumn then parseDate(CellFor(columns, row, ds.dateColumn)) else None)
  }

  /** The stored skills text splits back into exactly the row's skills. */
  lemma StoredSkillsRoundTrip(ds: Dataset, columns: seq<string>, row: seq<Cell>)
    ensures SmartSplitSkills(Some(Join(RowSkills(ds, columns, row), ", "))) == RowSkills(ds, columns, row)
  {
    if ds.hasSkillsColumn {
      SmartSplitRoundTrip(CellFor(columns, row, ds.skillsColumn));
    } else {
      ExtractedSkillsRoundTrip(Some(RowDescription(ds, columns, row)));
    }
  }

  function BuildRecords(ds: Dataset, columns: seq<string>, rows: seq<seq<Cell>>, parseDate: Cell -> Option<int>): (r: seq<JobRecord>)
    ensures |r| == |rows|
    ensures forall i :: 0 <= i < |rows| ==> r[i] == BuildRecord(ds, columns, rows[i], parseDate)
  {
    seq(|rows|, i requires 0 <= i < |rows| => BuildRecord(ds, columns, rows[i], parseDate))
  }

  /**
   * `ingest_dataset` against a store: a rejected upload leaves the store untouched; an accepted
   * one replaces every dataset and job record by the new dataset and one record per row, and
   * keeps the run log.
   */
  function IngestDataset<Run>(fileName: string, table: Table, ratio: Ratio, parseDate: Cell -> Option<int>,
                              id: int, store: Store<Run>): (r: (Result<Dataset, IngestError>, Store<Run>))
    ensures r.0 == NewDataset(fileName, table, ratio, id)
    ensures r.0.Failure? ==> r.1 == store
    ensures r.0.Success? ==>
              && r.1.datasets == [r.0.value] && r.1.runs == store.runs
              && r.1.jobs == BuildRecords(r.0.value, CleanColumns(table.columns), table.rows, parseDate)
              && |r.1.jobs| == |table.rows|
              && forall i :: 0 <= i < |table.rows| ==>
                   && r.1.jobs[i].datasetId == id
                   && SmartSplitSkills(Some(r.1.jobs[i].skillsText)) ==
                        RowSkills(r.0.value, CleanColumns(table.columns), table.rows[i])
  {
    match NewDataset(fileName, table, ratio, id)
    case Failure(e) => (Failure(e), store)
    case Success(ds) =>
      var records := BuildRecords(ds, CleanColumns(table.columns), table.rows, parseDate);
      (Success(ds), Store([ds], records, store.runs))
  }

  // ---------------------------------------------------------------------------------------------
  // Suggested questions

  const DefaultRole: string := "Data Analyst"
  const DefaultCountry: string := "USA"

  /** The first key of a count table, or the default when it is empty. */
  function FirstKey(keys: seq<string>, default: string): (r: string)
    ensures |keys| > 0 ==> r == keys[0]
    ensures |keys| == 0 ==> r == default
  {
    if |keys| > 0 then keys[0] else default
  }

  /**
   * `_suggest_questions`: three questions (top, rising, trends) about the most frequent role
   * and country, given as the keys of the count tables in order.
   */
  function SuggestQuestions(roleKeys: seq<string>, countryKeys: seq<string>): (r: seq<string>)
    ensures |r| == 3
    ensures forall i :: 0 <= i < 3 ==>
              Contains(r[i], FirstKey(roleKeys, DefaultRole)) && Contains(r[i], FirstKey(countryKeys, DefaultCountry))
  {
    var role := FirstKey(roleKeys, DefaultRole);
    var country := FirstKey(countryKeys, DefaultCountry);
    var r := [
      "What are the top skills for " + role + " in " + country + "?",
      "Show rising skills for " + role + " in " + country + " for last 6 months",
      "Give me skill trends for " + role + " in " + country];
    QuestionMentions("What are the top skills for ", role, " in ", country, "?");
    QuestionMentions("Show rising skills for ", role, " in ", country, " for last 6 months");
    QuestionMentions("Give me skill trends for ", role, " in ", country, "");
    assert r[2] == "Give me skill trends for " + role + " in " + country + "";
    r
  }

  /** A question built around a role and a country mentions both. */
  lemma QuestionMentions(a: string, role: string, b: string, country: string, c: string)
    ensures Contains(a + role + b + country + c, role) && Contains(a + role + b + country + c, country)
  {
    var s := a + role + b + country + c;
    assert s[|a|..|a| + |role|] == role;
    assert OccursAt(s, role, |a|);
    assert s[|a + role + b|..|a + role + b| + |country|] == country;
    assert OccursAt(s, country, |a + role + b|);
  }
}
