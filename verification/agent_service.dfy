/**
 * The question-answering agent (backend/app/services/agent_service.py): the execution plan,
 * one row per (job, skill), top skills, rising skills over two adjacent windows, monthly
 * trends, the confidence score, and the control flow of a query with its run log.
 */
module AgentService {
  import opened Base
  import opened Seqs
  import opened Strings
  import opened Counting
  import opened TextUtils
  import opened QueryParser
  import opened Models

  // ---------------------------------------------------------------------------------------------
  // Execution plan

  const ParseStep: string := "Parse natural language query into intent and filters"
  const MatchStep: string := "Auto-match role and country against dataset values with fuzzy correction"
  const SkillsColumnStep: string := "Use skills column for skill aggregation"
  const ExtractStep: string := "Extract skills from description-derived values"
  const DateStep: string := "Use date windowing for trend calculations"
  const DateFallbackStep: string := "Date missing: fallback to top skills with warning"
  const PersistStep: string := "Compute result, confidence score, warnings, and persist run logs"

  /** The intents whose analysis needs dates. */
  predicate NeedsDate(intent: Option<Intent>) {
    intent == Some(Intent.RisingSkills) || intent == Some(Intent.SkillTrends)
  }

  /**
   * `_build_plan`: parse and match first, then the skill source, a date step only for the
   * date-based intents, and the persist step last. A missing intent reads as "unknown".
   */
  function BuildPlan(intent: Option<Intent>, hasSkills: bool, hasDate: bool): (r: seq<string>)
    ensures |r| == if NeedsDate(intent) then 5 else 4
    ensures r[0] == ParseStep && r[1] == MatchStep && r[|r| - 1] == PersistStep
    ensures r[2] == if hasSkills then SkillsColumnStep else ExtractStep
    ensures NeedsDate(intent) ==> r[3] == if hasDate then DateStep else DateFallbackStep
    ensures (DateStep in r || DateFallbackStep in r) <==> NeedsDate(intent)
  {
    var source := if hasSkills then SkillsColumnStep else ExtractStep;
    var date := if NeedsDate(intent) then [if hasDate then DateStep else DateFallbackStep] else [];
    // The step strings differ, if only in length.
    assert |ParseStep| == 52 && |MatchStep| == 72 && |SkillsColumnStep| == 39 && |ExtractStep| == 46;
    assert |DateStep| == 41 && |DateFallbackStep| == 49 && |PersistStep| == 64;
    [ParseStep, MatchStep, source] + date + [PersistStep]
  }

  // ---------------------------------------------------------------------------------------------
  // One row per (job, skill)

  /** A row of the exploded skills table. */
  datatype SkillRow = SkillRow(role: string, country: string, postedDate: Option<int>, skill: string)

  /** The skills of a stored job: its skills text split again. */
  function JobSkills(j: JobRecord): (r: seq<string>)
    ensures Distinct(r)
  {
    SmartSplitSkills(Some(j.skillsText))
  }

  /** The rows of one job: one per skill, in order, each with the job's role, country and date. */
  function RowsOf(j: JobRecord): (r: seq<SkillRow>)
    ensures |r| == |JobSkills(j)|
    ensures forall i :: 0 <= i < |r| ==> r[i] == SkillRow(j.role, j.country, j.postedDate, JobSkills(j)[i])
  {
    var skills := JobSkills(j);
    seq(|skills|, i requires 0 <= i < |skills| => SkillRow(j.role, j.country, j.postedDate, skills[i]))
  }

  /** `_parse_skills_column`: the rows of every job in order; a job without skills adds none. */
  function ParseSkillsColumn(jobs: seq<JobRecord>): (r: seq<SkillRow>)
    ensures forall row :: row in r <==> exists j :: j in jobs && row in RowsOf(j)
  {
    if |jobs| == 0 then []
    else
      var rest := ParseSkillsColumn(jobs[1..]);
      assert forall j :: j in jobs <==> j == jobs[0] || j in jobs[1..];
      RowsOf(jobs[0]) + rest
  }

  /** The skill column of a table of rows. */
  function SkillsOf(rows: seq<SkillRow>): (r: seq<string>)
    ensures |r| == |rows|
    ensures forall i :: 0 <= i < |rows| ==> r[i] == rows[i].skill
  {
    seq(|rows|, i requires 0 <= i < |rows| => rows[i].skill)
  }

  function HasSkill(x: string): JobRecord -> bool {
    j => x in JobSkills(j)
  }

  /** Each skill occurs in the exploded table once for every job that lists it. */
  lemma {:induction false} SkillRowCount(jobs: seq<JobRecord>, x: string)
    ensures Count(SkillsOf(ParseSkillsColumn(jobs)), x) == |Filter(jobs, HasSkill(x))|
    decreases |jobs|
  {
    if |jobs| > 0 {
      SkillRowCount(jobs[1..], x);
      SkillsOfAppend(RowsOf(jobs[0]), ParseSkillsColumn(jobs[1..]));
      SkillsOfRows(jobs[0]);
      OneCount(JobSkills(jobs[0]), x);
      FilterCons(jobs, HasSkill(x));
    }
  }

  lemma SkillsOfAppend(a: seq<SkillRow>, b: seq<SkillRow>)
    ensures SkillsOf(a + b) == SkillsOf(a) + SkillsOf(b)
  {
  }

  lemma SkillsOfRows(j: JobRecord)
    ensures SkillsOf(RowsOf(j)) == JobSkills(j)
  {
  }

  lemma FilterCons(jobs: seq<JobRecord>, p: JobRecord -> bool)
    requires |jobs| > 0
    ensures |Filter(jobs, p)| == (if p(jobs[0]) then 1 else 0) + |Filter(jobs[1..], p)|
  {
  }

  /** A sequence without repetitions holds a value once if it holds it at all. */
  lemma OneCount(xs: seq<string>, x: string)
    requires Distinct(xs)
    ensures Count(xs, x) == if x in xs then 1 else 0
  {
    DistinctMultiplicity(xs, x);
    if x in xs {
      assert x in multiset(xs);
    }
  }

  // ---------------------------------------------------------------------------------------------
  // Top skills

  /** How many skills a top list or a rising list shows. */
  const ListSize: int := 15

  /**
   * `_top_skills`: the (at most) 15 most frequent skills with their exact counts, largest
   * count first; empty for an empty table.
   */
  function TopSkills(rows: seq<SkillRow>): (r: seq<Entry<string>>)
    ensures |rows| == 0 ==> r == []
    ensures |r| <= ListSize
    ensures DistinctKeys(r) && SortedDesc(r, CountRank)
    ensures forall e :: e in r ==> e.count == Count(SkillsOf(rows), e.key) && e.count > 0
    ensures forall x :: x in SkillsOf(rows) && x !in Keys(r) ==>
              |r| == ListSize && forall e :: e in r ==> Count(SkillsOf(rows), x) <= e.count
  {
    TopCounts(SkillsOf(rows), ListSize)
  }

  // ---------------------------------------------------------------------------------------------
  // Rising skills

  predicate IsDated(r: SkillRow) {
    r.postedDate.Some?
  }

  function Dated(rows: seq<SkillRow>): (r: seq<SkillRow>)
    ensures forall x :: x in r <==> x in rows && x.postedDate.Some?
    ensures forall i :: 0 <= i < |r| ==> r[i].postedDate.Some?
  {
    Filter(rows, IsDated)
  }

  /** The latest date of a non-empty table of dated rows. */
  function LatestDate(rows: seq<SkillRow>): (d: int)
    requires |rows| > 0 && forall i :: 0 <= i < |rows| ==> rows[i].postedDate.Some?
    ensures forall i :: 0 <= i < |rows| ==> rows[i].postedDate.value <= d
    ensures exists i :: 0 <= i < |rows| && rows[i].postedDate.value == d
  {
    if |rows| == 1 then rows[0].postedDate.value
    else
      var m := LatestDate(rows[1..]);
      assert forall i :: 1 <= i < |rows| ==> rows[i].postedDate.value == rows[1..][i - 1].postedDate.value;
      if rows[0].postedDate.value >= m then rows[0].postedDate.value else m
  }

  /** Which window a date falls in, counting back from `end` in steps of `delta`. */
  datatype Window = Current | Previous | Outside

  /**
   * The current window is (end - delta, end] and the previous one (end - 2 delta, end - delta];
   * a date is in at most one of them.
   */
  function WindowOf(d: int, end: int, delta: int): (w: Window)
    ensures w == Current <==> end - delta < d <= end
    ensures w == Previous <==> end - delta - delta < d <= end - delta
  {
    if end - delta < d <= end then Current
    else if end - delta - delta < d <= end - delta then Previous
    else Outside
  }

  function InWindow(end: int, delta: int, w: Window): SkillRow -> bool {
    (r: SkillRow) => r.postedDate.Some? && WindowOf(r.postedDate.value, end, delta) == w
  }

  /** The skills of the rows dated in window `w`. */
  function WindowSkills(rows: seq<SkillRow>, end: int, delta: int, w: Window): seq<string> {
    SkillsOf(Filter(rows, InWindow(end, delta, w)))
  }

  /** One entry of the rising list. */
  datatype RisingItem = RisingItem(skill: string, currentCount: nat, previousCount: nat, growth: int,
                                   growthPercent: Option<real>)

  /** The growth of a skill between the windows, in absolute terms and as a percentage. */
  function RisingItemOf(skill: string, cur: nat, prev: nat): (r: RisingItem)
    ensures r.skill == skill && r.currentCount == cur && r.previousCount == prev
    ensures r.growth == cur - prev
    ensures r.growthPercent.None? <==> prev == 0
    ensures r.growthPercent.Some? ==> r.growthPercent.value * (prev as real) == (r.growth as real) * 100.0
  {
    RisingItem(skill, cur, prev, cur - prev, if prev == 0 then None else Some(((cur - prev) as real / prev as real) * 100.0))
  }

  /** The sort key of the rising list: growth, then current count. */
  function GrowthRank(it: RisingItem): Rank {
    Rank(it.growth, it.currentCount)
  }

  /** What every entry of the rising list satisfies, given the windows' skills. */
  predicate RisingEntry(it: RisingItem, cur: seq<string>, prev: seq<string>) {
    && it.currentCount == Count(cur, it.skill) && it.previousCount == Count(prev, it.skill)
    && it.growth == it.currentCount - it.previousCount
    && (it.growthPercent.None? <==> it.previousCount == 0)
    && it.currentCount + it.previousCount > 0
  }

  /** One item per skill of either window, in first-occurrence order. */
  function RisingItems(cur: seq<string>, prev: seq<string>): (r: seq<RisingItem>)
    ensures forall it :: it in r ==> RisingEntry(it, cur, prev)
    ensures forall i, j :: 0 <= i < j < |r| ==> r[i].skill != r[j].skill
    ensures forall x :: x in cur + prev ==> exists it :: it in r && it.skill == x
  {
    var t := Tally(cur + prev);
    var ks := Keys(t);
    var r := seq(|ks|, i requires 0 <= i < |ks| => RisingItemOf(ks[i], Count(cur, ks[i]), Count(prev, ks[i])));
    forall it | it in r ensures RisingEntry(it, cur, prev) {
      var i :| 0 <= i < |r| && r[i] == it;
      assert ks[i] in cur + prev;
      assert multiset(cur + prev)[ks[i]] == Count(cur, ks[i]) + Count(prev, ks[i]);
      assert ks[i] in multiset(cur + prev);
    }
    forall x | x in cur + prev ensures exists it :: it in r && it.skill == x {
      var i :| 0 <= i < |ks| && ks[i] == x;
      assert r[i].skill == x;
    }
    r
  }

  /**
   * The rising list of two windows' skills: every skill seen in either window with both
   * counts and the growth, sorted by growth and then current count, largest first, at most 15.
   * The candidates are visited in first-occurrence order (the source iterates a set).
   */
  function RisingRanked(cur: seq<string>, prev: seq<string>): (r: seq<RisingItem>)
    ensures |r| <= ListSize
    ensures SortedDesc(r, GrowthRank)
    ensures forall i, j :: 0 <= i < j < |r| ==> r[i].skill != r[j].skill
    ensures forall it :: it in r ==> RisingEntry(it, cur, prev)
    ensures forall x :: x in cur + prev && (forall it :: it in r ==> it.skill != x) ==>
              |r| == ListSize && forall e :: e in r ==> RankLe(Rank(Count(cur, x) - Count(prev, x), Count(cur, x)), GrowthRank(e))
  {
    forall x | x in cur + prev && (forall it :: it in RankRising(RisingItems(cur, prev)) ==> it.skill != x)
      ensures |RankRising(RisingItems(cur, prev))| == ListSize
      ensures forall e :: e in RankRising(RisingItems(cur, prev)) ==>
                RankLe(Rank(Count(cur, x) - Count(prev, x), Count(cur, x)), GrowthRank(e))
    {
      RisingDropped(cur, prev, x);
    }
    RankRising(RisingItems(cur, prev))
  }

  /**
   * `_rising_skills`: empty when no row is dated; otherwise, with `end` the latest date, the
   * rising list of the current window (end - delta, end] and the previous one
   * (end - 2 delta, end - delta].
   */
  function RisingSkills(rows: seq<SkillRow>, delta: int): (r: seq<RisingItem>)
    ensures |Dated(rows)| == 0 ==> r == []
    ensures |Dated(rows)| > 0 ==>
              var end := LatestDate(Dated(rows));
              r == RisingRanked(WindowSkills(rows, end, delta, Current), WindowSkills(rows, end, delta, Previous))
  {
    var dated := Dated(rows);
    if |dated| == 0 then []
    else
      var end := LatestDate(dated);
      RisingRanked(WindowSkills(rows, end, delta, Current), WindowSkills(rows, end, delta, Previous))
  }

  /** The skill an item is about. */
  function SkillOf(it: RisingItem): string {
    it.skill
  }

  /** `sorted(items, key=(growth, current), reverse=True)[:15]`. */
  function RankRising(items: seq<RisingItem>): (r: seq<RisingItem>)
    requires forall i, j :: 0 <= i < j < |items| ==> items[i].skill != items[j].skill
    ensures |r| <= ListSize
    ensures SortedDesc(r, GrowthRank)
    ensures forall i, j :: 0 <= i < j < |r| ==> r[i].skill != r[j].skill
    ensures forall it :: it in r ==> it in items
    ensures forall it :: it in items && it !in r ==>
              |r| == ListSize && forall e :: e in r ==> RankLe(GrowthRank(it), GrowthRank(e))
  {
    var sorted := SortDesc(items, GrowthRank);
    PermutationMembers(items, sorted);
    assert forall i, j :: 0 <= i < j < |sorted| ==> sorted[i].skill != sorted[j].skill by {
      KeysStayDistinct(items, sorted, SkillOf);
    }
    forall it | it in items && it !in SliceTo(sorted, ListSize)
      ensures |SliceTo(sorted, ListSize)| == ListSize
      ensures forall e :: e in SliceTo(sorted, ListSize) ==> RankLe(GrowthRank(it), GrowthRank(e))
    {
      SliceDropped(sorted, ListSize, GrowthRank, it);
    }
    SliceTo(sorted, ListSize)
  }

  /**
   * A skill of either window that the list leaves out ranks, by its growth and current count,
   * no higher than any skill the list keeps, and the list is full.
   */
  lemma RisingDropped(cur: seq<string>, prev: seq<string>, x: string)
    requires x in cur + prev
    requires forall it :: it in RankRising(RisingItems(cur, prev)) ==> it.skill != x
    ensures var r := RankRising(RisingItems(cur, prev));
            && |r| == ListSize
            && forall e :: e in r ==> RankLe(Rank(Count(cur, x) - Count(prev, x), Count(cur, x)), GrowthRank(e))
  {
    var items := RisingItems(cur, prev);
    var it :| it in items && it.skill == x;
    assert GrowthRank(it) == Rank(Count(cur, x) - Count(prev, x), Count(cur, x));
  }


  // ---------------------------------------------------------------------------------------------
  // Monthly trends

  /** How many skills the trends chart follows. */
  const TrendSize: int := 8

  /** The months of the dated rows of one skill, in row order. */
  function MonthsOf(rows: seq<SkillRow>, skill: string, monthOf: int -> int): seq<int> {
    if |rows| == 0 then []
    else
      (if rows[0].skill == skill && rows[0].postedDate.Some? then [monthOf(rows[0].postedDate.value)] else [])
      + MonthsOf(rows[1..], skill, monthOf)
  }

  /** A skill has one month entry for each of its dated rows. */
  lemma {:induction false} MonthsOfCount(rows: seq<SkillRow>, skill: string, monthOf: int -> int)
    ensures |MonthsOf(rows, skill, monthOf)| == Count(SkillsOf(Dated(rows)), skill)
    decreases |rows|
  {
    if |rows| > 0 {
      MonthsOfCount(rows[1..], skill, monthOf);
      assert Dated(rows) == (if IsDated(rows[0]) then [rows[0]] else []) + Dated(rows[1..]);
      SkillsOfAppend(if IsDated(rows[0]) then [rows[0]] else [], Dated(rows[1..]));
    }
  }

  /** One line of the trends chart. */
  datatype Series = Series(skill: string, points: seq<Entry<int>>)

  /** The series of one skill: its postings per month. */
  function SeriesOf(rows: seq<SkillRow>, skill: string, monthOf: int -> int): (s: Series)
    ensures s.skill == skill
    ensures Ascending(s.points) && AllPositive(s.points)
    ensures Total(s.points) == Count(SkillsOf(Dated(rows)), skill)
    ensures forall k :: Lookup(s.points, k) == Count(MonthsOf(rows, skill, monthOf), k)
  {
    MonthsOfCount(rows, skill, monthOf);
    Series(skill, MonthCounts(MonthsOf(rows, skill, monthOf)))
  }

  /**
   * `_skill_trends`: for the (at most) 8 skills most frequent among dated rows, in that order,
   * the number of postings per month in ascending month order, without empty months; no
   * series when no row is dated. `monthOf` stands for the calendar month of a date.
   */
  function SkillTrends(rows: seq<SkillRow>, monthOf: int -> int): (r: seq<Series>)
    ensures |Dated(rows)| == 0 ==> r == []
    ensures |r| <= TrendSize
    ensures forall i, j :: 0 <= i < j < |r| ==> r[i].skill != r[j].skill
    ensures forall s :: s in r ==>
              && Ascending(s.points) && AllPositive(s.points)
              && Total(s.points) == Count(SkillsOf(Dated(rows)), s.skill) > 0
              && forall k :: Lookup(s.points, k) == Count(MonthsOf(rows, s.skill, monthOf), k)
    ensures forall x :: x in SkillsOf(Dated(rows)) && (forall s :: s in r ==> s.skill != x) ==>
              |r| == TrendSize && forall s :: s in r ==> Count(SkillsOf(Dated(rows)), x) <= Total(s.points)
    ensures forall i, j :: 0 <= i < j < |r| ==> Total(r[j].points) <= Total(r[i].points)
  {
    var dated := Dated(rows);
    if |dated| == 0 then []
    else
      var top := TopCounts(SkillsOf(dated), TrendSize);
      var r := TrendSeries(rows, top, monthOf);
      TrendsComplete(SkillsOf(dated), top, r);
      TrendFacts(rows, monthOf, top, r);
      TrendsOrdered(rows, monthOf, top, r);
      r
  }

  /** One series per selected skill, in the order of the selection. */
  function TrendSeries(rows: seq<SkillRow>, top: seq<Entry<string>>, monthOf: int -> int): (r: seq<Series>)
    ensures |r| == |top|
    ensures forall i :: 0 <= i < |r| ==> r[i] == SeriesOf(rows, top[i].key, monthOf)
  {
    seq(|top|, i requires 0 <= i < |top| => SeriesOf(rows, top[i].key, monthOf))
  }

  /** A skill without a series is not among the selected keys. */
  lemma TrendsComplete(xs: seq<string>, top: seq<Entry<string>>, r: seq<Series>)
    requires |r| == |top| && forall i :: 0 <= i < |r| ==> r[i].skill == top[i].key
    ensures forall x :: (forall s :: s in r ==> s.skill != x) ==> x !in Keys(top)
    ensures DistinctKeys(top) ==> forall i, j :: 0 <= i < j < |r| ==> r[i].skill != r[j].skill
  {
    forall x | (forall s :: s in r ==> s.skill != x)
      ensures x !in Keys(top)
    {
      forall i | 0 <= i < |top| ensures Keys(top)[i] != x {
        assert r[i] in r;
      }
    }
  }

  /** Series built from a selection sorted by count come most frequent first. */
  lemma TrendsOrdered(rows: seq<SkillRow>, monthOf: int -> int, top: seq<Entry<string>>, r: seq<Series>)
    requires forall e :: e in top ==> e.count == Count(SkillsOf(Dated(rows)), e.key)
    requires SortedDesc(top, CountRank)
    requires r == TrendSeries(rows, top, monthOf)
    ensures forall i, j :: 0 <= i < j < |r| ==> Total(r[j].points) <= Total(r[i].points)
  {
    forall i, j | 0 <= i < j < |r|
      ensures Total(r[j].points) <= Total(r[i].points)
    {
      assert top[i] in top && top[j] in top;
      assert RankLe(CountRank(top[j]), CountRank(top[i]));
    }
  }

  /** What the selected series say about the dated rows. */
  lemma TrendFacts(rows: seq<SkillRow>, monthOf: int -> int, top: seq<Entry<string>>, r: seq<Series>)
    requires forall e :: e in top ==> e.count == Count(SkillsOf(Dated(rows)), e.key) && e.count > 0
    requires r == TrendSeries(rows, top, monthOf)
    ensures forall s :: s in r ==>
              && Ascending(s.points) && AllPositive(s.points)
              && Total(s.points) == Count(SkillsOf(Dated(rows)), s.skill) > 0
              && forall k :: Lookup(s.points, k) == Count(MonthsOf(rows, s.skill, monthOf), k)
  {
    forall s | s in r
      ensures Total(s.points) == Count(SkillsOf(Dated(rows)), s.skill) > 0
    {
      var i :| 0 <= i < |r| && r[i] == s;
      assert top[i] in top;
    }
  }

  // ---------------------------------------------------------------------------------------------
  // Confidence

  function MinReal(a: real, b: real): real {
    if a <= b then a else b
  }

  function MaxReal(a: real, b: real): real {
    if a >= b then a else b
  }

  /** The unclamped score: 0.5, plus 0.2 for an intent, plus up to 0.15 per matched filter, minus the warning penalty. */
  function RawConfidence(hasIntent: bool, roleScore: real, countryScore: real, warnings: nat): real {
    0.5
    + (if hasIntent then 0.2 else 0.0)
    + (if roleScore > 0.0 then MinReal(roleScore, 1.0) * 0.15 else 0.0)
    + (if countryScore > 0.0 then MinReal(countryScore, 1.0) * 0.15 else 0.0)
    - (if warnings > 0 then MinReal(0.2, 0.05 * warnings as real) else 0.0)
  }

  /** `_confidence` before rounding: the raw score clamped to [0.1, 0.99]. */
  function Confidence(hasIntent: bool, roleScore: real, countryScore: real, warnings: nat): (r: real)
    ensures 0.1 <= r <= 0.99
    ensures 0.1 <= RawConfidence(hasIntent, roleScore, countryScore, warnings) <= 0.99 ==>
              r == RawConfidence(hasIntent, roleScore, countryScore, warnings)
  {
    MaxReal(0.1, MinReal(0.99, RawConfidence(hasIntent, roleScore, countryScore, warnings)))
  }

  /**
   * The raw score stays within [0.3, 1.0]. It is 0.3 exactly without an intent, without
   * positive match scores and with at least four warnings, and 1.0 exactly with an intent, both
   * match scores at least 1 and no warning.
   */
  lemma RawConfidenceRange(hasIntent: bool, roleScore: real, countryScore: real, warnings: nat)
    ensures 0.3 <= RawConfidence(hasIntent, roleScore, countryScore, warnings) <= 1.0
    ensures RawConfidence(hasIntent, roleScore, countryScore, warnings) == 0.3 <==>
              !hasIntent && roleScore <= 0.0 && countryScore <= 0.0 && warnings >= 4
    ensures RawConfidence(hasIntent, roleScore, countryScore, warnings) == 1.0 <==>
              hasIntent && roleScore >= 1.0 && countryScore >= 1.0 && warnings == 0
  {
  }

  /** More warnings never raise the score, and beyond four they no longer lower it. */
  lemma ConfidenceWarnings(hasIntent: bool, roleScore: real, countryScore: real, w1: nat, w2: nat)
    requires w1 <= w2
    ensures Confidence(hasIntent, roleScore, countryScore, w2) <= Confidence(hasIntent, roleScore, countryScore, w1)
    ensures w1 >= 4 ==> Confidence(hasIntent, roleScore, countryScore, w2) == Confidence(hasIntent, roleScore, countryScore, w1)
  {
  }

  /** An intent and better match scores never lower the score. */
  lemma ConfidenceMonotone(roleScore: real, countryScore: real, role2: real, country2: real, warnings: nat)
    requires roleScore <= role2 && countryScore <= country2
    ensures Confidence(false, roleScore, countryScore, warnings) <= Confidence(true, roleScore, countryScore, warnings)
    ensures Confidence(true, roleScore, countryScore, warnings) <= Confidence(true, role2, country2, warnings)
  {
  }

  // ---------------------------------------------------------------------------------------------
  // Clarification questions

  const IntentQuestion: string := "Do you want top skills, rising skills, or trends?"
  const RoleQuestion: string := "Which job role should I analyze?"
  const CountryQuestion: string := "Which country should I filter by?"

  /** Where a question belongs in the list: intent, then role, then country. */
  function QuestionOrder(q: string): int {
    if q == IntentQuestion then 0 else if q == RoleQuestion then 1 else 2
  }

  /**
   * The questions of a query that needs clarification: one for a missing intent, one for an
   * unmatched role, and one for an unmatched country when there is more than one to choose from.
   */
  function ClarificationQuestions(hasIntent: bool, hasRole: bool, hasCountry: bool, countries: int): (r: seq<string>)
    ensures IntentQuestion in r <==> !hasIntent
    ensures RoleQuestion in r <==> !hasRole
    ensures CountryQuestion in r <==> !hasCountry && countries > 1
    ensures forall q :: q in r ==> q == IntentQuestion || q == RoleQuestion || q == CountryQuestion
    ensures forall i, j :: 0 <= i < j < |r| ==> QuestionOrder(r[i]) < QuestionOrder(r[j])
  {
    assert |IntentQuestion| == 49 && |RoleQuestion| == 32 && |CountryQuestion| == 33;
    (if hasIntent then [] else [IntentQuestion])
    + (if hasRole then [] else [RoleQuestion])
    + (if !hasCountry && countries > 1 then [CountryQuestion] else [])
  }

  // ---------------------------------------------------------------------------------------------
  // Filtering the exploded table

  const CountryFallbackWarning: string := "No exact country match after filtering; expanded to role-level results."
  const DateFallbackWarning: string := "Date column missing; fallback to top skills."
  const ClarificationWarning: string := "Incomplete query. Clarification requested."

  function RoleIs(role: string): SkillRow -> bool {
    (r: SkillRow) => r.role == role
  }

  /** The exact filter; pandas never finds a cell equal to `None`, so a missing country matches no row. */
  function RoleAndCountryAre(role: string, country: Option<string>): SkillRow -> bool {
    (r: SkillRow) => r.role == role && country == Some(r.country)
  }

  /** The rows an analysis runs on, and whether the filter had to drop the country. */
  datatype Filtered = Filtered(rows: seq<SkillRow>, widened: bool)

  /**
   * Lines 233-238 with the column lookup made safe: the rows of the matched role and country,
   * or, when there are none, every row of the role.
   */
  function FilterSkillRows(rows: seq<SkillRow>, role: string, country: Option<string>): (r: Filtered)
    ensures r.widened <==> forall x :: x in rows ==> !(x.role == role && country == Some(x.country))
    ensures country.None? ==> r.widened
    ensures forall x :: x in r.rows <==> x in rows && x.role == role && (r.widened || country == Some(x.country))
    ensures r.rows == Filter(rows, if r.widened then RoleIs(role) else RoleAndCountryAre(role, country))
  {
    var exact := Filter(rows, RoleAndCountryAre(role, country));
    if |exact| == 0 then Filtered(Filter(rows, RoleIs(role)), true)
    else
      assert exact[0] in exact;
      Filtered(exact, false)
  }

  /**
   * Lines 233-234 as written. `_parse_skills_column` builds its frame from a list of row
   * dictionaries, so when no job yields a skill the frame has no columns at all, and
   * `skill_df["role"]` raises `KeyError` instead of filtering an empty table.
   */
  function FilterSkillRowsAsWritten(rows: seq<SkillRow>, role: string, country: Option<string>): (r: Result<Filtered, string>)
    ensures r.Failure? <==> |rows| == 0
    ensures r.Success? ==> r.value == FilterSkillRows(rows, role, country)
  {
    if |rows| == 0 then Failure("KeyError: 'role'") else Success(FilterSkillRows(rows, role, country))
  }

  /** Jobs that list no skill add no row. */
  lemma {:induction false} NoSkillsNoRows(jobs: seq<JobRecord>)
    requires forall j :: j in jobs ==> JobSkills(j) == []
    ensures ParseSkillsColumn(jobs) == []
    decreases |jobs|
  {
    if |jobs| > 0 {
      assert jobs[0] in jobs;
      assert forall j :: j in jobs[1..] ==> j in jobs;
      NoSkillsNoRows(jobs[1..]);
    }
  }

  /**
   * A dataset whose one job has an empty skills text: as written, the completed path fails;
   * corrected, it answers with an empty role-level table and the widening warning.
   */
  lemma SkillLessDatasetFails()
    ensures var jobs := [JobRecord(1, "Data Analyst", "USA", "", "", None)];
            var rows := ParseSkillsColumn(jobs);
            && FilterSkillRowsAsWritten(rows, "Data Analyst", Some("USA")).Failure?
            && FilterSkillRows(rows, "Data Analyst", Some("USA")) == Filtered([], true)
  {
    var jobs := [JobRecord(1, "Data Analyst", "USA", "", "", None)];
    assert NormalizeText(Some("")) == "";
    NoSkillsNoRows(jobs);
  }

  // ---------------------------------------------------------------------------------------------
  // Running a query

  /** What the analysis returns, tagged as the response's `intent` field tags it. */
  datatype Outcome =
    | TopList(items: seq<Entry<string>>)
    | TopFallback(items: seq<Entry<string>>)
    | RisingList(rising: seq<RisingItem>)
    | TrendChart(series: seq<Series>)

  function IntentName(i: Intent): string {
    match i
    case RisingSkills => "rising_skills"
    case SkillTrends => "skill_trends"
    case TopSkills => "top_skills"
  }

  function IntentNameOf(i: Option<Intent>): Option<string> {
    match i
    case None => None
    case Some(x) => Some(IntentName(x))
  }

  /**
   * The rising-skills window: `parsed.time_value or 6` of `parsed.time_unit or "months"`, so six
   * months (180 days) when the query names no window.
   */
  function WindowDays(value: Option<nat>, unit: Option<string>): (r: int)
    ensures value.None? && unit.None? ==> r == 180
    ensures forall u :: unit == Some(UnitName(u)) ==>
              r == DaysPer(u) * (if value.None? || value.value == 0 then 6 else value.value)
    ensures unit.None? || unit.value in Units ==> r > 0
  {
    var v := if value.None? || value.value == 0 then 6 else value.value;
    var name := if unit.None? || unit.value == "" then "months" else unit.value;
    WindowOfNames(v, unit, name);
    TimeDeltaDays(Some(v), Some(name))
  }

  /** The unit a window is counted in: the parsed one, or months when there is none. */
  lemma WindowOfNames(v: nat, unit: Option<string>, name: string)
    requires v > 0 && name == if unit.None? || unit.value == "" then "months" else unit.value
    ensures forall u :: unit == Some(UnitName(u)) ==> TimeDeltaDays(Some(v), Some(name)) == DaysPer(u) * v
    ensures unit.None? ==> TimeDeltaDays(Some(v), Some(name)) == 30 * v
    ensures unit.None? || unit.value in Units ==> TimeDeltaDays(Some(v), Some(name)) > 0
  {
    forall u | unit == Some(UnitName(u))
      ensures TimeDeltaDays(Some(v), Some(name)) == DaysPer(u) * v
    {
      TimeDeltaOfUnit(v, u, name);
    }
    if unit.None? {
      TimeDeltaOfUnit(v, Month, name);
    } else if unit.value in Units {
      var u := UnitNamed(unit.value);
      TimeDeltaOfUnit(v, u, name);
    }
  }

  /** The largest number of days a Python `timedelta` holds; a larger one raises `OverflowError`. */
  const MaxTimedeltaDays: int := 999_999_999

  /** The exception `time_delta_from_value` raises for a window `timedelta` cannot hold. */
  const WindowOverflow: string := "OverflowError"

  /** The window of a parsed query is too large for a `timedelta`. */
  predicate WindowOverflows(parsed: ParsedQuery) {
    WindowDays(parsed.timeValue, parsed.timeUnit) > MaxTimedeltaDays
  }

  /** Where the limit falls: 999,999,999 days or 2,739,726 years still fit, one more does not. */
  lemma WindowLimit()
    ensures WindowDays(Some(999_999_999), Some(UnitName(Day))) <= MaxTimedeltaDays
    ensures WindowDays(Some(1_000_000_000), Some(UnitName(Day))) > MaxTimedeltaDays
    ensures WindowDays(Some(2_739_726), Some(UnitName(Year))) <= MaxTimedeltaDays
    ensures WindowDays(Some(2_739_727), Some(UnitName(Year))) > MaxTimedeltaDays
  {
  }

  /**
   * The analysis of a completed query and the date warning it adds: the intent's own analysis,
   * except that rising skills and trends without a date column fall back to top skills.
   */
  function Analyze(intent: Intent, rows: seq<SkillRow>, hasDate: bool, windowDays: int, monthOf: int -> int): (r: (Outcome, seq<string>))
    ensures r.1 == (if intent != Intent.TopSkills && !hasDate then [DateFallbackWarning] else [])
    ensures r.0.TopFallback? <==> intent != Intent.TopSkills && !hasDate
    ensures r.0.TopList? <==> intent == Intent.TopSkills
    ensures r.0.RisingList? <==> intent == Intent.RisingSkills && hasDate
    ensures r.0.TrendChart? <==> intent == Intent.SkillTrends && hasDate
    ensures r.0.TopList? || r.0.TopFallback? ==> r.0.items == TopSkills(rows)
    ensures r.0.RisingList? ==> r.0.rising == RisingSkills(rows, windowDays)
    ensures r.0.TrendChart? ==> r.0.series == SkillTrends(rows, monthOf)
  {
    match intent
    case TopSkills => (TopList(TopSkills(rows)), [])
    case RisingSkills =>
      if hasDate then (RisingList(RisingSkills(rows, windowDays)), [])
      else (TopFallback(TopSkills(rows)), [DateFallbackWarning])
    case SkillTrends =>
      if hasDate then (TrendChart(SkillTrends(rows, monthOf)), [])
      else (TopFallback(TopSkills(rows)), [DateFallbackWarning])
  }

  // ---------------------------------------------------------------------------------------------
  // The query state machine

  datatype Status = Error | ClarificationNeeded | Completed

  function StatusName(s: Status): string {
    match s
    case Error => "error"
    case ClarificationNeeded => "clarification_needed"
    case Completed => "completed"
  }

  /** The answer to a query (the filters block, scores and time window are left out). */
  datatype Response = Response(
    status: Status,
    message: string,
    plan: seq<string>,
    parsedIntent: Option<string>,
    roleMatch: Option<string>,
    countryMatch: Option<string>,
    result: Option<Outcome>,
    confidence: real,
    warnings: seq<string>,
    questions: seq<string>)

  const NoDatasetMessage: string := "No dataset uploaded yet."
  const NoDatasetWarning: string := "Upload a dataset first."
  const EmptyDatasetMessage: string := "Dataset is available but contains no records."
  const EmptyDatasetWarning: string := "Upload a non-empty dataset."
  const ClarificationMessage: string := "Need a bit more detail before execution."
  const CompletedMessage: string := "Agent execution completed."

  /** A pre-flight failure: no plan, no result and confidence 0. */
  function ErrorResponse(message: string, warning: string): (r: Response)
    ensures r.status == Error && r.plan == [] && r.result.None? && r.confidence == 0.0
    ensures r.message == message && r.warnings == [warning] && r.questions == []
  {
    Response(Error, message, [], None, None, None, None, 0.0, [warning], [])
  }

  /** `latest_dataset`: the dataset with the largest id, if there is any. */
  function LatestDataset(datasets: seq<Dataset>): (r: Option<Dataset>)
    ensures r.None? <==> |datasets| == 0
    ensures r.Some? ==> r.value in datasets && forall d :: d in datasets ==> d.id <= r.value.id
  {
    if |datasets| == 0 then None
    else
      match LatestDataset(datasets[1..])
      case None => Some(datasets[0])
      case Some(d) => if d.id > datasets[0].id then Some(d) else Some(datasets[0])
  }

  /** `_load_df`: the stored jobs of one dataset. */
  function DatasetJobs(jobs: seq<JobRecord>, id: int): (r: seq<JobRecord>)
    ensures forall j :: j in r <==> j in jobs && j.datasetId == id
  {
    Filter(jobs, (j: JobRecord) => j.datasetId == id)
  }

  predicate NotBlank(s: string) {
    Strip(s) != ""
  }

  /** `sorted` distinct non-blank values: what a role or country can be matched against. */
  function Choices(values: seq<string>): (r: seq<string>)
    ensures StrictlySorted(r)
    ensures forall v :: v in r <==> v in values && Strip(v) != ""
  {
    SortedDistinct(Filter(values, NotBlank))
  }

  function Roles(jobs: seq<JobRecord>): (r: seq<string>)
    ensures forall v :: v in r <==> exists j :: j in jobs && j.role == v
  {
    var r := seq(|jobs|, i requires 0 <= i < |jobs| => jobs[i].role);
    assert forall j :: j in jobs ==> j.role in r by {
      forall j | j in jobs ensures j.role in r {
        var i :| 0 <= i < |jobs| && jobs[i] == j;
        assert r[i] == j.role;
      }
    }
    r
  }

  function Countries(jobs: seq<JobRecord>): (r: seq<string>)
    ensures forall v :: v in r <==> exists j :: j in jobs && j.country == v
  {
    var r := seq(|jobs|, i requires 0 <= i < |jobs| => jobs[i].country);
    assert forall j :: j in jobs ==> j.country in r by {
      forall j | j in jobs ensures j.country in r {
        var i :| 0 <= i < |jobs| && jobs[i] == j;
        assert r[i] == j.country;
      }
    }
    r
  }

  /** The similarity a fuzzy role or country match must reach. */
  const MatchThreshold: real := 0.4

  /** The matched role and country with their scores, and the countries on offer. */
  datatype Filters = Filters(role: Match, country: Match, countries: seq<string>)

  /**
   * Lines 185-189: the hints matched against the sorted distinct non-blank roles and countries
   * of the dataset's jobs.
   */
  function MatchFilters(parsed: ParsedQuery, jobs: seq<JobRecord>, ratio: Ratio): (r: Filters)
    ensures StrictlySorted(r.countries)
    ensures forall c :: c in r.countries <==> NotBlank(c) && exists j :: j in jobs && j.country == c
    ensures 0.0 <= r.role.score <= 1.0 && 0.0 <= r.country.score <= 1.0
    ensures r.role.value.Some? ==> NotBlank(r.role.value.value) && exists j :: j in jobs && j.role == r.role.value.value
    ensures r.country.value.Some? ==> r.country.value.value in r.countries
    ensures HintKey(parsed.roleHint) == "" ==> r.role == Match(None, 0.0)
    ensures HintKey(parsed.countryHint) == "" ==> r.country == Match(None, 0.0)
  {
    var roles := Choices(Roles(jobs));
    var countries := Choices(Countries(jobs));
    Filters(BestMatch(parsed.roleHint, roles, MatchThreshold, ratio),
            BestMatch(parsed.countryHint, countries, MatchThreshold, ratio),
            countries)
  }

  /** The questions a parsed query leaves open against the matched filters. */
  function OpenQuestions(parsed: ParsedQuery, f: Filters): seq<string> {
    ClarificationQuestions(parsed.intent.Some?, f.role.value.Some?, f.country.value.Some?, |f.countries|)
  }

  /** The `parsed_filters` column of a logged run. */
  datatype RunFilters =
    | NoFilters
      /** `{"role": ..., "country": ...}`, logged with a clarification. */
    | MatchedFilters(role: Option<string>, country: Option<string>)
      /** The seven entries logged with a completed query (the scores unrounded). */
    | QueryFilters(roleRequested: Option<string>, roleMatched: Option<string>, roleScore: real,
                   countryRequested: Option<string>, countryMatched: Option<string>, countryScore: real,
                   timeValue: Option<nat>, timeUnit: Option<string>)

  /** The `output_summary` column of a logged run. */
  datatype RunOutput = NoOutput | QuestionsAsked(questions: seq<string>) | ResultGiven(result: Outcome)

  /** A row of the `agent_runs` table (timestamps and the JSON encoding of its columns left out). */
  datatype AgentRun = AgentRun(
    datasetId: int,
    query: string,
    parsedIntent: Option<string>,
    parsedFilters: RunFilters,
    plan: seq<string>,
    outputSummary: RunOutput,
    status: string,
    confidence: real,
    warnings: seq<string>)

  /**
   * `_log_run` as the two call sites fill it in: a clarification logs the matched role and
   * country and the questions asked (lines 203-215); a completed query logs the requested and
   * matched filters with their scores and the time window, and its result (lines 275-297). An
   * error response is never logged, and has neither.
   */
  function RunOf(datasetId: int, query: string, parsed: ParsedQuery, f: Filters, resp: Response): (run: AgentRun)
    ensures run.datasetId == datasetId && run.query == query
    ensures run.status == StatusName(resp.status) && run.plan == resp.plan
    ensures run.parsedIntent == resp.parsedIntent && run.confidence == resp.confidence
    ensures run.warnings == resp.warnings
    ensures resp.status == ClarificationNeeded ==>
              && run.parsedFilters == MatchedFilters(f.role.value, f.country.value)
              && run.outputSummary == QuestionsAsked(resp.questions)
    ensures resp.status == Completed ==>
              && run.parsedFilters == QueryFilters(parsed.roleHint, f.role.value, f.role.score,
                                                   parsed.countryHint, f.country.value, f.country.score,
                                                   parsed.timeValue, parsed.timeUnit)
              && (resp.result.Some? ==> run.outputSummary == ResultGiven(resp.result.value))
    ensures resp.status == Error ==> run.parsedFilters == NoFilters && run.outputSummary == NoOutput
  {
    var filters := match resp.status
      case Error => NoFilters
      case ClarificationNeeded => MatchedFilters(f.role.value, f.country.value)
      case Completed => QueryFilters(parsed.roleHint, f.role.value, f.role.score, parsed.countryHint,
                                     f.country.value, f.country.score, parsed.timeValue, parsed.timeUnit);
    var output := match resp.status
      case Error => NoOutput
      case ClarificationNeeded => QuestionsAsked(resp.questions)
      case Completed => if resp.result.Some? then ResultGiven(resp.result.value) else NoOutput;
    AgentRun(datasetId, query, resp.parsedIntent, filters, resp.plan, output, StatusName(resp.status),
             resp.confidence, resp.warnings)
  }

  /** Lines 201-230: ask the open questions; the confidence counts one warning. */
  function Clarify(parsed: ParsedQuery, f: Filters, plan: seq<string>, questions: seq<string>): (r: Response)
    ensures r.status == ClarificationNeeded && r.result.None? && r.questions == questions
    ensures r.warnings == [ClarificationWarning]
    ensures r.confidence == Confidence(parsed.intent.Some?, f.role.score, f.country.score, 1)
    ensures r.parsedIntent == IntentNameOf(parsed.intent)
  {
    Response(ClarificationNeeded, ClarificationMessage, plan, IntentNameOf(parsed.intent),
             f.role.value, f.country.value, None,
             Confidence(parsed.intent.Some?, f.role.score, f.country.score, 1),
             [ClarificationWarning], questions)
  }

  /**
   * Lines 232-309: filter the exploded table by role and country (widening to the role), run
   * the intent's analysis (falling back to top skills without dates), and score the result.
   */
  function CompletedResponse(parsed: ParsedQuery, ds: Dataset, jobs: seq<JobRecord>, f: Filters, plan: seq<string>,
                             monthOf: int -> int): (r: Response)
    requires f.role.value.Some?
    ensures r.status == Completed && r.result.Some? && r.questions == []
    ensures r.roleMatch == f.role.value && r.countryMatch == f.country.value
    ensures var intent := parsed.intent.GetOr(Intent.TopSkills);
            var filtered := FilterSkillRows(ParseSkillsColumn(jobs), f.role.value.value, f.country.value);
            && r.parsedIntent == Some(IntentName(intent))
            && r.warnings == (if filtered.widened then [CountryFallbackWarning] else [])
                             + (if intent != Intent.TopSkills && !ds.hasDateColumn then [DateFallbackWarning] else [])
            && r.result.value == Analyze(intent, filtered.rows, ds.hasDateColumn,
                                         WindowDays(parsed.timeValue, parsed.timeUnit), monthOf).0
    ensures r.confidence == Confidence(true, f.role.score, f.country.score, |r.warnings|)
  {
    var intent := parsed.intent.GetOr(Intent.TopSkills);
    var filtered := FilterSkillRows(ParseSkillsColumn(jobs), f.role.value.value, f.country.value);
    var widening := if filtered.widened then [CountryFallbackWarning] else [];
    var (outcome, dateWarnings) := Analyze(intent, filtered.rows, ds.hasDateColumn,
                                           WindowDays(parsed.timeValue, parsed.timeUnit), monthOf);
    var warnings := widening + dateWarnings;
    Response(Completed, CompletedMessage, plan, Some(IntentName(intent)), f.role.value, f.country.value,
             Some(outcome), Confidence(true, f.role.score, f.country.score, |warnings|), warnings, [])
  }

  /**
   * The completed path of lines 232-309, which raises at line 250 for a rising query with a
   * date column whose window `timedelta` cannot hold: a `Failure` naming the exception.
   */
  function Complete(parsed: ParsedQuery, ds: Dataset, jobs: seq<JobRecord>, f: Filters, plan: seq<string>,
                    monthOf: int -> int): (r: Result<Response, string>)
    requires f.role.value.Some?
    ensures r.Failure? <==> parsed.intent == Some(Intent.RisingSkills) && ds.hasDateColumn && WindowOverflows(parsed)
    ensures r.Failure? ==> r.error == WindowOverflow
    ensures r.Success? ==> r.value == CompletedResponse(parsed, ds, jobs, f, plan, monthOf)
  {
    if parsed.intent == Some(Intent.RisingSkills) && ds.hasDateColumn && WindowOverflows(parsed) then
      Failure(WindowOverflow)
    else
      Success(CompletedResponse(parsed, ds, jobs, f, plan, monthOf))
  }

  /**
   * The response to a parsed query once a non-empty dataset is at hand, or the exception the
   * completed path raises for a window too large for a `timedelta`.
   */
  function Answer(parsed: ParsedQuery, ds: Dataset, jobs: seq<JobRecord>, ratio: Ratio, monthOf: int -> int): (r: Result<Response, string>)
    ensures var f := MatchFilters(parsed, jobs, ratio);
            r.Failure? <==> && OpenQuestions(parsed, f) == [] && parsed.intent == Some(Intent.RisingSkills)
                            && ds.hasDateColumn && WindowOverflows(parsed)
    ensures r.Success? ==> r.value.status != Error && 0.1 <= r.value.confidence <= 0.99
    ensures r.Success? ==> r.value.plan == BuildPlan(parsed.intent, ds.hasSkillsColumn, ds.hasDateColumn)
    ensures var f := MatchFilters(parsed, jobs, ratio);
            var plan := BuildPlan(parsed.intent, ds.hasSkillsColumn, ds.hasDateColumn);
            if OpenQuestions(parsed, f) != [] then r == Success(Clarify(parsed, f, plan, OpenQuestions(parsed, f)))
            else f.role.value.Some? && r == Complete(parsed, ds, jobs, f, plan, monthOf)
  {
    var f := MatchFilters(parsed, jobs, ratio);
    var plan := BuildPlan(parsed.intent, ds.hasSkillsColumn, ds.hasDateColumn);
    var questions := OpenQuestions(parsed, f);
    if questions != [] then Success(Clarify(parsed, f, plan, questions))
    else
      assert RoleQuestion !in questions;
      Complete(parsed, ds, jobs, f, plan, monthOf)
  }

  /** Lines 155-183: the latest dataset and its jobs, or the error response when either is missing. */
  function Preflight(store: Store<AgentRun>): (r: Result<(Dataset, seq<JobRecord>), Response>)
    ensures |store.datasets| == 0 ==> r == Failure(ErrorResponse(NoDatasetMessage, NoDatasetWarning))
    ensures |store.datasets| > 0 ==>
              var ds := LatestDataset(store.datasets).value;
              if DatasetJobs(store.jobs, ds.id) == [] then r == Failure(ErrorResponse(EmptyDatasetMessage, EmptyDatasetWarning))
              else r == Success((ds, DatasetJobs(store.jobs, ds.id)))
  {
    match LatestDataset(store.datasets)
    case None => Failure(ErrorResponse(NoDatasetMessage, NoDatasetWarning))
    case Some(ds) =>
      var jobs := DatasetJobs(store.jobs, ds.id);
      if jobs == [] then Failure(ErrorResponse(EmptyDatasetMessage, EmptyDatasetWarning))
      else Success((ds, jobs))
  }

  /**
   * `run_agent_query` over a store: the two pre-flight errors are returned and leave the store
   * as it is; a raised exception (a `Failure`) returns nothing and logs nothing; every other
   * query appends exactly one run, the log of its response, and changes nothing else.
   */
  function RunAgentQuery(query: string, store: Store<AgentRun>, ratio: Ratio, monthOf: int -> int): (r: (Result<Response, string>, Store<AgentRun>))
    ensures Preflight(store).Failure? ==> r.0 == Success(Preflight(store).error) && r.0.value.status == Error && r.1 == store
    ensures Preflight(store).Success? ==>
              var ds := Preflight(store).value.0;
              var jobs := Preflight(store).value.1;
              var f := MatchFilters(ParseQuery(query), jobs, ratio);
              && r.0 == Answer(ParseQuery(query), ds, jobs, ratio, monthOf)
              && r.1 == if r.0.Failure? then store
                        else Store(store.datasets, store.jobs, store.runs + [RunOf(ds.id, query, ParseQuery(query), f, r.0.value)])
    ensures r.0.Failure? ==> r.0.error == WindowOverflow && r.1 == store
    ensures r.0.Failure? || r.0.value.status == Error <==> r.1.runs == store.runs
    ensures r.0.Success? && r.0.value.status != Error ==>
              0.1 <= r.0.value.confidence <= 0.99 && |r.1.runs| == |store.runs| + 1
  {
    var pre := Preflight(store);
    if pre.Failure? then (Success(pre.error), store)
    else
      var ds := pre.value.0;
      var parsed := ParseQuery(query);
      var resp := Answer(parsed, ds, pre.value.1, ratio, monthOf);
      var f := MatchFilters(parsed, pre.value.1, ratio);
      if resp.Failure? then (resp, store)
      else (resp, Store(store.datasets, store.jobs, store.runs + [RunOf(ds.id, query, parsed, f, resp.value)]))
  }
}
