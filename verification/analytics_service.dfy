/**
 * Analytics of the upload pipeline (backend/services/analytics_service.py) over the stored
 * `job_postings` rows: top skills, skills rising between two three-month windows, and the
 * monthly trend of one skill. The database queries become filters over a sequence of rows.
 */
module AnalyticsService {
  import opened Base
  import opened Seqs
  import opened Strings
  import opened Counting
  import opened Models

  // ---------------------------------------------------------------------------------------------
  // _parse_skills

  /** `_parse_skills` splits on commas only. */
  const Comma: set<char> := {','}

  /** `_parse_skills`: the stripped, non-empty parts of a comma-separated text. */
  function ParseSkills(text: string): (r: seq<string>)
    ensures text == "" ==> r == []
    ensures forall i :: 0 <= i < |r| ==> IsToken(r[i], Comma)
  {
    if text == "" then []
    else
      StrippedTokensFree(SplitOn(text, Comma), Comma);
      StrippedTokens(SplitOn(text, Comma))
  }

  /** Comma-free tokens joined with ", " (as uploads store them) parse back to themselves. */
  lemma ParseSkillsOfJoin(ts: seq<string>)
    requires forall i :: 0 <= i < |ts| ==> IsToken(ts[i], Comma)
    ensures ParseSkills(Join(ts, ", ")) == ts
  {
    if |ts| > 0 {
      forall i | 0 <= i < |ts| ensures ts[i] != "" && Strip(ts[i]) == ts[i] {
        assert IsToken(ts[i], Comma);
      }
      JoinStripped(ts);
      assert ',' in Comma && ' ' !in Comma;
      StrippedTokensOfJoin(ts, "", Comma);
      assert "" + Join(ts, ", ") == Join(ts, ", ");
    }
  }

  /** Parsing the ", "-join of a parse gives the same skills again. */
  lemma ParseSkillsRoundTrip(text: string)
    ensures ParseSkills(Join(ParseSkills(text), ", ")) == ParseSkills(text)
  {
    ParseSkillsOfJoin(ParseSkills(text));
  }

  // ---------------------------------------------------------------------------------------------
  // Row selection

  /** The `dataset_role == role` and `country == country` filters. */
  predicate InSegment(p: JobPosting, role: string, country: string) {
    p.datasetRole == role && p.country == country
  }

  function Segment(rows: seq<JobPosting>, role: string, country: string): (r: seq<JobPosting>)
    ensures forall p :: p in r <==> p in rows && InSegment(p, role, country)
  {
    Filter(rows, (p: JobPosting) => InSegment(p, role, country))
  }

  /** The segment's rows with `posted_date != None`. */
  function DatedSegment(rows: seq<JobPosting>, role: string, country: string): (r: seq<JobPosting>)
    ensures forall p :: p in r <==> p in rows && InSegment(p, role, country) && p.postedDate.Some?
    ensures forall i :: 0 <= i < |r| ==> r[i].postedDate.Some?
  {
    Filter(rows, (p: JobPosting) => InSegment(p, role, country) && p.postedDate.Some?)
  }

  predicate AllDated(rows: seq<JobPosting>) {
    forall i :: 0 <= i < |rows| ==> rows[i].postedDate.Some?
  }

  /** Every skill occurrence of the rows, row by row. */
  function SkillsOf(rows: seq<JobPosting>): seq<string> {
    if |rows| == 0 then [] else ParseSkills(rows[0].extractedSkills) + SkillsOf(rows[1..])
  }

  /** How many of the rows list `s` among their skills. */
  function PostingsWith(rows: seq<JobPosting>, s: string): nat {
    if |rows| == 0 then 0 else (if s in ParseSkills(rows[0].extractedSkills) then 1 else 0) + PostingsWith(rows[1..], s)
  }

  /**
   * When no row lists a skill twice (uploads store a sorted set), a skill's occurrence count is
   * the number of postings that list it.
   */
  lemma {:induction false} OccurrencesArePostings(rows: seq<JobPosting>, s: string)
    requires forall i :: 0 <= i < |rows| ==> Distinct(ParseSkills(rows[i].extractedSkills))
    ensures Count(SkillsOf(rows), s) == PostingsWith(rows, s)
    decreases |rows|
  {
    if |rows| > 0 {
      var first := ParseSkills(rows[0].extractedSkills);
      OccurrencesArePostings(rows[1..], s);
      assert multiset(first + SkillsOf(rows[1..])) == multiset(first) + multiset(SkillsOf(rows[1..]));
      DistinctMultiplicity(first, s);
      assert s in first <==> s in multiset(first);
    }
  }

  // ---------------------------------------------------------------------------------------------
  // get_top_skills

  /**
   * `get_top_skills`: `Counter.most_common(k)` over the skills of the segment's rows (`k <= 0`
   * gives nothing), largest count first.
   */
  function GetTopSkills(rows: seq<JobPosting>, role: string, country: string, k: int): (r: seq<Entry<string>>)
    ensures k <= 0 ==> r == []
    ensures k > 0 ==> |r| <= k
    ensures DistinctKeys(r) && SortedDesc(r, CountRank)
    ensures forall e :: e in r ==> e.count == Count(SkillsOf(Segment(rows, role, country)), e.key) && e.count > 0
    ensures forall x :: k > 0 && x in SkillsOf(Segment(rows, role, country)) && x !in Keys(r) ==>
              |r| == k && forall e :: e in r ==> Count(SkillsOf(Segment(rows, role, country)), x) <= e.count
  {
    TopCounts(SkillsOf(Segment(rows, role, country)), k)
  }

  // ---------------------------------------------------------------------------------------------
  // get_rising_skills

  const LastMonths: int := 3
  const PrevMonths: int := 6

  /** The latest posting date of non-empty dated rows. */
  function MaxDate(rows: seq<JobPosting>): (d: int)
    requires |rows| > 0 && AllDated(rows)
    ensures forall i :: 0 <= i < |rows| ==> rows[i].postedDate.value <= d
    ensures exists i :: 0 <= i < |rows| && rows[i].postedDate.value == d
  {
    if |rows| == 1 then rows[0].postedDate.value
    else
      var m := MaxDate(rows[1..]);
      assert forall i :: 1 <= i < |rows| ==> rows[i] == rows[1..][i - 1];
      if rows[0].postedDate.value >= m then rows[0].postedDate.value else m
  }

  /** Rows dated at or after `start`. */
  function DatedFrom(rows: seq<JobPosting>, start: int): seq<JobPosting> {
    Filter(rows, (p: JobPosting) => p.postedDate.Some? && p.postedDate.value >= start)
  }

  /** Rows dated in `[lo, hi)`. */
  function DatedBetween(rows: seq<JobPosting>, lo: int, hi: int): seq<JobPosting> {
    Filter(rows, (p: JobPosting) => p.postedDate.Some? && lo <= p.postedDate.value < hi)
  }

  /** The two windows of `get_rising_skills`. */
  datatype Windows = Windows(last: seq<JobPosting>, prev: seq<JobPosting>)

  /**
   * With `end` the latest date and `monthsBack(end, n)` the date `n` months earlier
   * (`DateOffset`), "last" holds the rows dated at or after `end - 3 months` and "previous" the
   * rows in `[end - 6 months, end - 3 months)`; no row is in both.
   */
  function RisingWindows(dated: seq<JobPosting>, monthsBack: (int, int) -> int): (w: Windows)
    requires |dated| > 0 && AllDated(dated)
    ensures forall p :: p in w.last <==> p in dated && p.postedDate.value >= monthsBack(MaxDate(dated), LastMonths)
    ensures forall p :: p in w.prev <==>
              p in dated && monthsBack(MaxDate(dated), PrevMonths) <= p.postedDate.value < monthsBack(MaxDate(dated), LastMonths)
    ensures forall p :: p in w.last ==> p !in w.prev
  {
    var end := MaxDate(dated);
    var lastStart := monthsBack(end, LastMonths);
    var prevStart := monthsBack(end, PrevMonths);
    assert forall p :: p in dated ==> p.postedDate.Some?;
    Windows(DatedFrom(dated, lastStart), DatedBetween(dated, prevStart, lastStart))
  }

  /** One entry of the rising list. */
  datatype RisingSkill = RisingSkill(skill: string, last: nat, prev: nat, growth: int)

  function GrowthRank(it: RisingSkill): Rank {
    Rank(it.growth, 0)
  }

  /** What every entry satisfies, given the skills of the two windows. */
  predicate RisingEntry(it: RisingSkill, last: seq<string>, prev: seq<string>) {
    && it.last == Count(last, it.skill) && it.prev == Count(prev, it.skill)
    && it.growth == it.last - it.prev
    && it.growth > 0
  }

  function RisingOf(s: string, last: seq<string>, prev: seq<string>): RisingSkill {
    RisingSkill(s, Count(last, s), Count(prev, s), Count(last, s) - Count(prev, s))
  }

  /**
   * The loop over `set(last) | set(prev)` keeping `diff > 0`; the skills are visited in
   * first-occurrence order (the set's iteration order is unspecified).
   */
  function RisingCandidates(ks: seq<string>, last: seq<string>, prev: seq<string>): (r: seq<RisingSkill>)
    requires Distinct(ks)
    ensures forall it :: it in r ==> RisingEntry(it, last, prev) && it.skill in ks
    ensures forall i, j :: 0 <= i < j < |r| ==> r[i].skill != r[j].skill
    ensures forall x :: x in ks && Count(last, x) > Count(prev, x) ==> RisingOf(x, last, prev) in r
  {
    if |ks| == 0 then []
    else
      var it := RisingOf(ks[0], last, prev);
      var rest := RisingCandidates(ks[1..], last, prev);
      assert forall x :: x in ks[1..] ==> x != ks[0];
      if it.growth > 0 then [it] + rest else rest
  }

  /** The skill an item is about. */
  function SkillOf(it: RisingSkill): string {
    it.skill
  }

  /** `rising.sort(key=growth, reverse=True)` (stable) followed by `rising[:k]`. */
  function RankRising(items: seq<RisingSkill>, k: int): (r: seq<RisingSkill>)
    requires forall i, j :: 0 <= i < j < |items| ==> items[i].skill != items[j].skill
    ensures SortedDesc(r, GrowthRank)
    ensures forall i, j :: 0 <= i < j < |r| ==> r[i].skill != r[j].skill
    ensures forall it :: it in r ==> it in items
    ensures k >= 0 ==> |r| <= k
    ensures forall it :: it in items && it !in r ==>
              |r| < |items| && (k >= 0 ==> |r| == k) && forall e :: e in r ==> it.growth <= e.growth
  {
    var sorted := SortDesc(items, GrowthRank);
    RankedPrefix(items, sorted, k);
    SliceTo(sorted, k)
  }

  /** The facts about a prefix of the sorted candidates that `RankRising` promises. */
  lemma RankedPrefix(items: seq<RisingSkill>, sorted: seq<RisingSkill>, k: int)
    requires forall i, j :: 0 <= i < j < |items| ==> items[i].skill != items[j].skill
    requires SortedDesc(sorted, GrowthRank) && multiset(sorted) == multiset(items)
    ensures forall i, j :: 0 <= i < j < |SliceTo(sorted, k)| ==> SliceTo(sorted, k)[i].skill != SliceTo(sorted, k)[j].skill
    ensures forall it :: it in SliceTo(sorted, k) ==> it in items
    ensures forall it :: it in items && it !in SliceTo(sorted, k) ==>
              |SliceTo(sorted, k)| < |items| && (k >= 0 ==> |SliceTo(sorted, k)| == k) &&
              forall e :: e in SliceTo(sorted, k) ==> it.growth <= e.growth
  {
    PermutationMembers(items, sorted);
    assert |sorted| == |multiset(sorted)| == |multiset(items)| == |items|;
    assert forall i, j :: 0 <= i < j < |sorted| ==> sorted[i].skill != sorted[j].skill by {
      KeysStayDistinct(items, sorted, SkillOf);
    }
    forall it | it in items && it !in SliceTo(sorted, k)
      ensures |SliceTo(sorted, k)| < |items| && (k >= 0 ==> |SliceTo(sorted, k)| == k)
      ensures forall e :: e in SliceTo(sorted, k) ==> it.growth <= e.growth
    {
      SliceDropped(sorted, k, GrowthRank, it);
      forall e | e in SliceTo(sorted, k) ensures it.growth <= e.growth {
        assert RankLe(GrowthRank(it), GrowthRank(e));
      }
    }
  }


  /** The skills of the last and previous windows of the segment's dated rows. */
  function WindowSkills(dated: seq<JobPosting>, monthsBack: (int, int) -> int): (s: (seq<string>, seq<string>))
    requires |dated| > 0 && AllDated(dated)
  {
    var w := RisingWindows(dated, monthsBack);
    (SkillsOf(w.last), SkillsOf(w.prev))
  }

  /**
   * The rising list of two windows' skills: every skill counted more often in `last` than in
   * `prev`, largest growth first, cut by `[:k]`. The candidates are visited in first-occurrence
   * order of `last + prev` (the source iterates a set).
   */
  function RisingRanked(last: seq<string>, prev: seq<string>, k: int): (r: seq<RisingSkill>)
    ensures SortedDesc(r, GrowthRank)
    ensures forall i, j :: 0 <= i < j < |r| ==> r[i].skill != r[j].skill
    ensures k >= 0 ==> |r| <= k
    ensures forall it :: it in r ==> RisingEntry(it, last, prev)
    ensures forall x :: Count(last, x) > Count(prev, x) && RisingOf(x, last, prev) !in r ==>
              (k >= 0 ==> |r| == k) && forall e :: e in r ==> Count(last, x) - Count(prev, x) <= e.growth
  {
    var ks := Keys(Tally(last + prev));
    TallyKeysDistinct(last + prev);
    var items := RisingCandidates(ks, last, prev);
    forall x | Count(last, x) > Count(prev, x)
      ensures RisingOf(x, last, prev) in items
    {
      RisingKey(last, prev, x);
    }
    RankRising(items, k)
  }

  /** A skill counted more often in `last` than in `prev` is a candidate key. */
  lemma RisingKey(last: seq<string>, prev: seq<string>, x: string)
    requires Count(last, x) > Count(prev, x)
    ensures x in Keys(Tally(last + prev))
  {
    assert x in multiset(last);
    assert x in last + prev;
    TallyKeys(last + prev, x);
  }

  /**
   * `get_rising_skills`: empty when no row of the segment is dated; otherwise the rising list of
   * the skills of the last and previous three-month windows.
   */
  function GetRisingSkills(rows: seq<JobPosting>, role: string, country: string, k: int,
                           monthsBack: (int, int) -> int): (r: seq<RisingSkill>)
    ensures |DatedSegment(rows, role, country)| == 0 ==> r == []
    ensures |DatedSegment(rows, role, country)| > 0 ==>
              var ws := WindowSkills(DatedSegment(rows, role, country), monthsBack);
              r == RisingRanked(ws.0, ws.1, k)
  {
    var dated := DatedSegment(rows, role, country);
    if |dated| == 0 then []
    else
      var ws := WindowSkills(dated, monthsBack);
      RisingRanked(ws.0, ws.1, k)
  }

  lemma TallyKeysDistinct(xs: seq<string>)
    ensures Distinct(Keys(Tally(xs)))
  {
    var t := Tally(xs);
    forall i, j | 0 <= i < j < |t| ensures Keys(t)[i] != Keys(t)[j] {
      assert t[i].key != t[j].key;
    }
  }

  lemma TallyKeys(xs: seq<string>, x: string)
    requires x in xs
    ensures x in Keys(Tally(xs))
  {
    TallyEntries(xs);
    var t := Tally(xs);
    var i :| 0 <= i < |t| && t[i] == Entry(x, Count(xs, x));
    assert Keys(t)[i] == x;
  }

  // ---------------------------------------------------------------------------------------------
  // get_skill_trend

  /** `[x.strip().lower() for x in _parse_skills(text)]`. */
  function SkillKeys(ts: seq<string>): (r: seq<string>)
    ensures |r| == |ts| && forall i :: 0 <= i < |ts| ==> r[i] == Lower(Strip(ts[i]))
  {
    if |ts| == 0 then [] else [Lower(Strip(ts[0]))] + SkillKeys(ts[1..])
  }

  /** The row lists the skill, compared after stripping and lower-casing. */
  predicate HasSkill(p: JobPosting, key: string) {
    key in SkillKeys(ParseSkills(p.extractedSkills))
  }

  function WithSkill(rows: seq<JobPosting>, key: string): (r: seq<JobPosting>)
    ensures forall p :: p in r <==> p in rows && HasSkill(p, key)
    ensures |r| <= |rows|
    ensures AllDated(rows) ==> AllDated(r)
  {
    Filter(rows, (p: JobPosting) => HasSkill(p, key))
  }

  /** The month of every row, in row order. */
  function MonthsOf(rows: seq<JobPosting>, monthOf: int -> int): (ms: seq<int>)
    requires AllDated(rows)
    ensures |ms| == |rows|
  {
    if |rows| == 0 then [] else [monthOf(rows[0].postedDate.value)] + MonthsOf(rows[1..], monthOf)
  }

  /**
   * `get_skill_trend`: the rows of the segment that are dated and list the skill (compared
   * stripped and lower-cased), counted per month (`monthOf` stands for the "YYYY-MM" period),
   * months ascending, no empty months; empty when the skill never occurs.
   */
  function GetSkillTrend(rows: seq<JobPosting>, skill: string, role: string, country: string,
                         monthOf: int -> int): (r: seq<Entry<int>>)
    ensures Ascending(r) && AllPositive(r)
    ensures r == [] <==> forall p :: p in DatedSegment(rows, role, country) ==> !HasSkill(p, Lower(Strip(skill)))
    ensures Total(r) == |WithSkill(DatedSegment(rows, role, country), Lower(Strip(skill)))|
    ensures forall m :: Lookup(r, m) == Count(MonthsOf(WithSkill(DatedSegment(rows, role, country), Lower(Strip(skill))), monthOf), m)
  {
    var dated := DatedSegment(rows, role, country);
    var having := WithSkill(dated, Lower(Strip(skill)));
    var r := MonthCounts(MonthsOf(having, monthOf));
    assert r != [] ==> r[0].count > 0;
    NoRowsNoSkill(dated, Lower(Strip(skill)));
    r
  }

  /** No row of `rows` lists the skill exactly when none is kept. */
  lemma NoRowsNoSkill(rows: seq<JobPosting>, key: string)
    ensures |WithSkill(rows, key)| == 0 <==> forall p :: p in rows ==> !HasSkill(p, key)
  {
    var having := WithSkill(rows, key);
    if |having| > 0 {
      assert having[0] in having;
    }
  }
}
