/**
 * The rule-based parser of free-text questions: an intent from keyword buckets tried in a
 * fixed order, role and country hints from "for ... in ..." phrases, and a time window
 * ("last 6 months") converted to a number of days.
 */
module QueryParser {
  import opened Base
  import opened Seqs
  import opened Strings
  import opened Scanning

  /** The analyses a question can ask for. */
  datatype Intent = RisingSkills | SkillTrends | TopSkills

  /** What `parse_query` extracts from a question. */
  datatype ParsedQuery = ParsedQuery(
    intent: Option<Intent>,
    roleHint: Option<string>,
    countryHint: Option<string>,
    timeValue: Option<nat>,
    timeUnit: Option<string>)

  // ---------------------------------------------------------------------------------------------
  // Intent

  const RisingWords: seq<string> := ["rising", "increase", "growing", "fastest growing"]
  const TrendWords: seq<string> := ["trend", "trends", "over time", "monthly"]
  const TopWords: seq<string> := ["top", "most", "best", "leading"]

  /** `INTENT_RULES`, in the order the dictionary is iterated. */
  const IntentRules: seq<(Intent, seq<string>)> :=
    [(RisingSkills, RisingWords), (SkillTrends, TrendWords), (TopSkills, TopWords)]

  /** Some keyword of the bucket occurs in `q`. */
  predicate Hits(q: string, words: seq<string>) {
    exists w :: w in words && Contains(q, w)
  }

  /** `any(w in q for w in words)`, word by word. */
  function AnyIn(q: string, words: seq<string>): (r: bool)
    ensures r <==> Hits(q, words)
  {
    if |words| == 0 then false
    else
      assert forall w :: w in words <==> w == words[0] || w in words[1..];
      Contains(q, words[0]) || AnyIn(q, words[1..])
  }

  /** The loop over the rules: the intent of the first bucket that hits. */
  function FirstRule(q: string, rules: seq<(Intent, seq<string>)>): (r: Option<Intent>)
    ensures r.None? <==> forall k :: 0 <= k < |rules| ==> !Hits(q, rules[k].1)
    ensures r.Some? ==> exists k :: (0 <= k < |rules| && rules[k].0 == r.value && Hits(q, rules[k].1) &&
              forall j :: 0 <= j < k ==> !Hits(q, rules[j].1))
  {
    if |rules| == 0 then None
    else if AnyIn(q, rules[0].1) then Some(rules[0].0)
    else
      var r := FirstRule(q, rules[1..]);
      if r.Some? then
        var k :| 0 <= k < |rules[1..]| && rules[1..][k].0 == r.value && Hits(q, rules[1..][k].1) &&
                 forall j :: 0 <= j < k ==> !Hits(q, rules[1..][j].1);
        assert rules[k + 1].0 == r.value && Hits(q, rules[k + 1].1);
        r
      else
        r
  }

  /**
   * `detect_intent`: the buckets are tried in the order rising, trends, top on the lower-cased
   * question; when none hits, "skills" alone still means the top-skills question.
   */
  function DetectIntent(query: string): (r: Option<Intent>)
    ensures r == Some(RisingSkills) <==> Hits(Lower(query), RisingWords)
    ensures r == Some(SkillTrends) <==> !Hits(Lower(query), RisingWords) && Hits(Lower(query), TrendWords)
    ensures r == Some(TopSkills) <==>
              && !Hits(Lower(query), RisingWords) && !Hits(Lower(query), TrendWords)
              && (Hits(Lower(query), TopWords) || Contains(Lower(query), "skills"))
    ensures r.None? <==>
              && !Hits(Lower(query), RisingWords) && !Hits(Lower(query), TrendWords)
              && !Hits(Lower(query), TopWords) && !Contains(Lower(query), "skills")
  {
    var q := Lower(query);
    var r := FirstRule(q, IntentRules);
    assert IntentRules[0] == (RisingSkills, RisingWords);
    assert IntentRules[1] == (SkillTrends, TrendWords);
    assert IntentRules[2] == (TopSkills, TopWords);
    if r.Some? then r
    else if Contains(q, "skills") then Some(TopSkills)
    else None
  }

  // ---------------------------------------------------------------------------------------------
  // Time window

  /** The units of the pattern's unit group `(day|days|week|weeks|month|months|year|years)`. */
  datatype Unit = Day | Week | Month | Year

  /** The singular alternative of a unit: the text the group captures. */
  function UnitName(u: Unit): (r: string)
    ensures |r| > 0 && IsLowerAscii(r[0])
    ensures r in Units
  {
    match u
    case Day => "day"
    case Week => "week"
    case Month => "month"
    case Year => "year"
  }

  /** The names a match can capture. */
  const Units: set<string> := {"day", "week", "month", "year"}

  /**
   * A plural alternative starts with the singular one, which the group lists first: wherever a
   * plural occurs the singular does too, and the singular is what the group captures.
   */
  lemma PluralOccurs(q: string, u: Unit, n: int)
    requires OccursAt(q, UnitName(u) + "s", n)
    ensures OccursAt(q, UnitName(u), n)
  {
    var w := UnitName(u);
    assert q[n..n + |w|] == q[n..n + |w| + 1][..|w|];
  }

  /** The unit group at `n`: the unit whose singular name occurs there. */
  function UnitAt(q: string, n: int): (r: Option<Unit>)
    ensures r.None? <==> forall u :: !OccursAt(q, UnitName(u), n)
    ensures r.Some? ==> OccursAt(q, UnitName(r.value), n)
  {
    if OccursAt(q, UnitName(Day), n) then Some(Day)
    else if OccursAt(q, UnitName(Week), n) then Some(Week)
    else if OccursAt(q, UnitName(Month), n) then Some(Month)
    else if OccursAt(q, UnitName(Year), n) then Some(Year)
    else None
  }

  /** The value of a run of ASCII digits, as `int()` reads it. */
  function DigitsValue(s: string): (r: nat)
    requires forall i :: 0 <= i < |s| ==> IsDigit(s[i])
  {
    if |s| == 0 then 0
    else
      assert IsDigit(s[|s| - 1]);
      DigitsValue(s[..|s| - 1]) * 10 + (s[|s| - 1] as int - '0' as int)
  }

  /**
   * The pieces of `last\s+(\d+)\s+(unit)` (with `withLast`) or `(\d+)\s+(unit)` matched at
   * `p`: the digits over [k, m), whitespace up to `n`, and the unit alternative `u` at `n`.
   */
  predicate TimeShape(q: string, p: int, withLast: bool, k: int, m: int, n: int, u: Unit) {
    && (withLast ==> OccursAt(q, "last", p) && p + 4 < k && AllSpaceIn(q, p + 4, k))
    && (!withLast ==> k == p)
    && 0 <= k < m && AllDigitIn(q, k, m)
    && m < n && AllSpaceIn(q, m, n)
    && OccursAt(q, UnitName(u), n)
  }

  /** One match of the time pattern: where the digits are, their value and the captured unit. */
  datatype TimeHit = TimeHit(digitsFrom: int, digitsTo: int, unitAt: int, value: nat, unit: Unit)

  /** The time pattern tried at `p` (the `\s+` and `\d+` runs can only be the longest ones). */
  function TimeAt(q: string, p: int, withLast: bool): (r: Option<TimeHit>)
    ensures r.Some? ==>
              && TimeShape(q, p, withLast, r.value.digitsFrom, r.value.digitsTo, r.value.unitAt, r.value.unit)
              && r.value.value == DigitsValue(q[r.value.digitsFrom..r.value.digitsTo])
  {
    var k0 := if withLast then p + 4 else p;
    if p < 0 || k0 > |q| || (withLast && !OccursAt(q, "last", p)) then
      None
    else
      var k := if withLast then WsEnd(q, k0) else k0;
      var m := DigitEnd(q, k);
      var n := WsEnd(q, m);
      if (withLast && k == k0) || m == k || n == m then
        None
      else
        match UnitAt(q, n)
        case None => None
        case Some(u) =>
          DigitSlice(q, k, m);
          TimeAtShape(q, p, withLast, k, m, n, u);
          Some(TimeHit(k, m, n, DigitsValue(q[k..m]), u))
  }

  lemma DigitSlice(q: string, k: int, m: int)
    requires AllDigitIn(q, k, m)
    ensures forall i :: 0 <= i < |q[k..m]| ==> IsDigit(q[k..m][i])
  {
    assert forall i :: 0 <= i < m - k ==> q[k..m][i] == q[k + i];
  }

  /** The longest runs `TimeAt` takes, followed by a unit, form a match. */
  lemma TimeAtShape(q: string, p: int, withLast: bool, k: int, m: int, n: int, u: Unit)
    requires 0 <= p && (if withLast then p + 4 else p) <= |q|
    requires withLast ==> OccursAt(q, "last", p) && k == WsEnd(q, p + 4) && k > p + 4
    requires !withLast ==> k == p
    requires m == DigitEnd(q, k) && m > k && n == WsEnd(q, m) && n > m
    requires OccursAt(q, UnitName(u), n)
    ensures TimeShape(q, p, withLast, k, m, n, u)
  {
  }

  /**
   * A match at `p` is the one `TimeAt` finds: the `\s+` and `\d+` runs of any match are the
   * longest ones, and only one unit can occur after them.
   */
  lemma TimeAtFinds(q: string, p: int, withLast: bool, k: int, m: int, n: int, u: Unit)
    requires TimeShape(q, p, withLast, k, m, n, u)
    ensures TimeAt(q, p, withLast) == Some(TimeHit(k, m, n, DigitsValue(q[k..m]), u))
  {
    TimeRunsForced(q, p, withLast, k, m, n, u);
    var r := UnitAt(q, n);
    // Two different units never occur at the same place: their names start differently.
    assert q[n] == UnitName(u)[0] && q[n] == UnitName(r.value)[0];
  }

  /** The runs of a match are the longest ones. */
  lemma TimeRunsForced(q: string, p: int, withLast: bool, k: int, m: int, n: int, u: Unit)
    requires TimeShape(q, p, withLast, k, m, n, u)
    ensures withLast ==> p + 4 <= |q| && k == WsEnd(q, p + 4)
    ensures m == DigitEnd(q, k) && n == WsEnd(q, m)
  {
    if withLast {
      assert IsDigit(q[k]);
      SpaceRunForced(q, p + 4, k);
    }
    assert IsSpace(q[m]);
    DigitRunForced(q, k, m);
    assert q[n] == UnitName(u)[0];
    SpaceRunForced(q, m, n);
  }

  /** The pattern matches somewhere in `q`. */
  ghost predicate HasTimeShape(q: string, withLast: bool) {
    exists p, k, m, n, u :: TimeShape(q, p, withLast, k, m, n, u)
  }

  /** `re.search`: the match of the time pattern that starts leftmost. */
  function FirstTime(q: string, withLast: bool): (r: Option<(int, TimeHit)>)
    ensures r.None? <==> !HasTimeShape(q, withLast)
    ensures r.Some? ==> TimeAt(q, r.value.0, withLast) == Some(r.value.1)
    ensures r.Some? ==> forall p, k, m, n, u :: p < r.value.0 ==> !TimeShape(q, p, withLast, k, m, n, u)
  {
    var f := (p: int) => TimeAt(q, p, withLast);
    var r := FirstIn(0, |q| + 1, f);
    if r.Some? then
      var (p0, h) := r.value;
      assert forall p :: 0 <= p < p0 ==> TimeAt(q, p, withLast).None? by {
        forall p | 0 <= p < p0 ensures TimeAt(q, p, withLast).None? {
          assert f(p).None?;
        }
      }
      NoShapeBefore(q, withLast, p0);
      assert TimeShape(q, p0, withLast, h.digitsFrom, h.digitsTo, h.unitAt, h.unit);
      r
    else
      assert forall p :: 0 <= p < |q| + 1 ==> TimeAt(q, p, withLast).None? by {
        forall p | 0 <= p < |q| + 1 ensures TimeAt(q, p, withLast).None? {
          assert f(p).None?;
        }
      }
      NoShapeBefore(q, withLast, |q| + 1);
      r
  }

  /** Where `TimeAt` finds nothing, there is no match. */
  lemma NoShapeBefore(q: string, withLast: bool, p0: int)
    requires forall p :: 0 <= p < p0 ==> TimeAt(q, p, withLast).None?
    ensures forall p, k, m, n, u :: p < p0 ==> !TimeShape(q, p, withLast, k, m, n, u)
  {
    forall p, k, m, n, u | p < p0 && TimeShape(q, p, withLast, k, m, n, u) ensures false {
      TimeAtFinds(q, p, withLast, k, m, n, u);
    }
  }

  /** The number and unit of the leftmost match, as `parse_time_range` returns them. */
  lemma FirstTimeResult(q: string, withLast: bool)
    requires FirstTime(q, withLast).Some?
    ensures TimeResult(q, withLast, (Some(FirstTime(q, withLast).value.1.value),
                                     Some(UnitName(FirstTime(q, withLast).value.1.unit))))
  {
    var (p, h) := FirstTime(q, withLast).value;
    assert TimeShape(q, p, withLast, h.digitsFrom, h.digitsTo, h.unitAt, h.unit);
  }

  /**
   * `parse_time_range`: the number and unit of the leftmost "last N unit" phrase of the
   * lower-cased question, else of the leftmost bare "N unit", else nothing.
   */
  function ParseTimeRange(query: string): (r: (Option<nat>, Option<string>))
    ensures r.0.Some? <==> r.1.Some?
    ensures r.1.Some? ==> r.1.value in Units
    ensures r.0.None? <==> !HasTimeShape(Lower(query), true) && !HasTimeShape(Lower(query), false)
    ensures HasTimeShape(Lower(query), true) ==> TimeResult(Lower(query), true, r)
    ensures !HasTimeShape(Lower(query), true) && HasTimeShape(Lower(query), false) ==>
              TimeResult(Lower(query), false, r)
  {
    var q := Lower(query);
    match FirstTime(q, true)
    case Some((p, h)) =>
      FirstTimeResult(q, true);
      (Some(h.value), Some(UnitName(h.unit)))
    case None =>
      match FirstTime(q, false)
      case Some((p, h)) =>
        FirstTimeResult(q, false);
        (Some(h.value), Some(UnitName(h.unit)))
      case None => (None, None)
  }

  /**
   * `r` holds the number and unit of a match that starts at the leftmost position where the
   * pattern matches at all.
   */
  ghost predicate TimeResult(q: string, withLast: bool, r: (Option<nat>, Option<string>)) {
    && r.0.Some? && r.1.Some?
    && exists p, k, m, n, u ::
         && TimeShape(q, p, withLast, k, m, n, u) && r.1.value == UnitName(u)
         && r.0.value == DigitsValue(q[k..m])
         && forall p', k', m', n', u' :: p' < p ==> !TimeShape(q, p', withLast, k', m', n', u')
  }

  /** The days a unit stands for: a week of 7 days, a month of 30 and a year of 365. */
  function DaysPer(u: Unit): nat {
    match u
    case Day => 1
    case Week => 7
    case Month => 30
    case Year => 365
  }

  /**
   * How `time_delta_from_value` reads a lower-cased unit: by substring, "day" first, then
   * "week", then "year", and anything else counts as months.
   */
  function UnitOf(u: string): Unit {
    if Contains(u, "day") then Day
    else if Contains(u, "week") then Week
    else if Contains(u, "year") then Year
    else Month
  }

  /**
   * `time_delta_from_value` in days: 180 without a (non-zero) value or a (non-empty) unit,
   * otherwise the value times the days of the unit it names.
   */
  function TimeDeltaDays(value: Option<int>, unit: Option<string>): (r: int)
    ensures value.None? || value.value == 0 || unit.None? || unit.value == "" ==> r == 180
  {
    if value.None? || value.value == 0 || unit.None? || unit.value == "" then 180
    else DaysPer(UnitOf(Lower(unit.value))) * value.value
  }

  /** Each unit name, singular or plural, converts at its own rate. */
  lemma TimeDeltaOfUnit(v: int, u: Unit, name: string)
    requires v != 0 && (name == UnitName(u) || name == UnitName(u) + "s")
    ensures TimeDeltaDays(Some(v), Some(name)) == DaysPer(u) * v
  {
    UnitOfName(u, name);
    LowerOfLowered(name);
  }

  /** A unit name reads back as its unit. */
  lemma UnitOfName(u: Unit, name: string)
    requires name == UnitName(u) || name == UnitName(u) + "s"
    ensures UnitOf(name) == u && IsLowered(name) && name != ""
  {
    match u
    case Day =>
      assert OccursAt(name, "day", 0);
    case Week =>
      assert name == "week" || name == "weeks";
      MissingChar(name, "day", 'd');
      assert OccursAt(name, "week", 0);
    case Month =>
      assert name == "month" || name == "months";
      MissingChar(name, "day", 'd');
      MissingChar(name, "week", 'w');
      MissingChar(name, "year", 'y');
    case Year =>
      assert name == "year" || name == "years";
      MissingChar(name, "day", 'd');
      MissingChar(name, "week", 'w');
      assert OccursAt(name, "year", 0);
  }

  // ---------------------------------------------------------------------------------------------
  // Role and country hints

  /**
   * The look-ahead `(?=\s+(?:for\s+last|last|during|over)\b|\?|$)` as a list of alternatives.
   * A look-ahead only asks whether one of them holds, so their order is immaterial.
   */
  const StopAlts: seq<Alt> :=
    [Question, End, Phrase(["for", "last"]), Phrase(["last"]), Phrase(["during"]), Phrase(["over"])]

  /**
   * `(?:\s+for\b|\s+in\b|\?|$)`, what ends the role of a role-only question. What it consumes
   * is not captured, so only whether one alternative holds matters.
   */
  const RoleAlts: seq<Alt> := [Question, End, Phrase(["for"]), Phrase(["in"])]

  predicate StopAhead(q: string, e: int) {
    0 <= e <= |q| && AnyAltAt(q, e, StopAlts)
  }

  predicate RoleStop(q: string, e: int) {
    0 <= e <= |q| && AnyAltAt(q, e, RoleAlts)
  }

  function StopTail(q: string): int -> Option<()> {
    e => if StopAhead(q, e) then Some(()) else None
  }

  function RoleTail(q: string): int -> Option<()> {
    e => if RoleStop(q, e) then Some(()) else None
  }

  /**
   * `\s+\bin\s+(.+?)` and the look-ahead from `e`: whitespace up to `c`, "in" at `c`, and the
   * group over [s, t). (`\b` always holds between whitespace and a letter.)
   */
  predicate InShape(q: string, e: int, c: int, s: int, t: int) {
    e < c && AllSpaceIn(q, e, c) && KeywordAt(q, c, "in") && SpacedGroup(q, c + 2, s, t) && StopAhead(q, t)
  }

  /** The rest of the combined pattern tried at `e`, in backtracking order. */
  function InAfter(q: string, e: int): (r: Option<(int, int, ())>)
    ensures r.Some? ==> 0 <= e <= |q| && InShape(q, e, WsEnd(q, e), r.value.0, r.value.1)
  {
    if 0 <= e <= |q| then
      var c := WsEnd(q, e);
      if c > e && KeywordAt(q, c, "in") then SpacedLazy(q, c + 2, StopTail(q)) else None
    else None
  }

  lemma InAfterAt(q: string, e: int, c: int)
    requires 0 <= e < c && c + 2 <= |q| && WsEnd(q, e) == c && KeywordAt(q, c, "in")
    ensures InAfter(q, e) == SpacedLazy(q, c + 2, StopTail(q))
  {
    var tail := StopTail(q);
    assert 0 <= e <= |q|;
    assert InAfter(q, e) == if c > e && KeywordAt(q, c, "in") then SpacedLazy(q, c + 2, tail) else None;
  }

  /** Whatever `InShape` holds for, `InAfter` finds it or a match it prefers. */
  lemma InAfterBest(q: string, e: int, c: int, s: int, t: int)
    requires InShape(q, e, c, s, t)
    ensures InAfter(q, e).Some?
    ensures s < InAfter(q, e).value.0 || (s == InAfter(q, e).value.0 && InAfter(q, e).value.1 <= t)
  {
    RunBeforeKeyword(q, e, c, "in");
    InAfterAt(q, e, c);
    assert StopTail(q)(t) == Some(());
    SpacedLazyBest(q, c + 2, s, t, StopTail(q));
  }

  function InTail(q: string): int -> Option<(int, int, ())> {
    e => InAfter(q, e)
  }

  /** `\bkw` at `p`: `kw` (ignoring ASCII case) starts a word there. */
  predicate Lead(q: string, p: int, kw: string) {
    KeywordAt(q, p, kw) && Boundary(q, p)
  }

  /** `\bfor\s+(.+?)\s+\bin\s+(.+?)` and the look-ahead at `p`, with "in" at `c`. */
  predicate CombinedShape(q: string, p: int, s1: int, e1: int, c: int, s2: int, e2: int) {
    Lead(q, p, "for") && SpacedGroup(q, p + 3, s1, e1) && InShape(q, e1, c, s2, e2)
  }

  /** `\bfor\s+(.+?)(?:\s+for\b|\s+in\b|\?|$)` at `p`, with its group. */
  predicate RoleShape(q: string, p: int, s: int, e: int) {
    Lead(q, p, "for") && SpacedGroup(q, p + 3, s, e) && RoleStop(q, e)
  }

  /** `\bin\s+(.+?)` and the look-ahead at `p`, with its group. */
  predicate CountryShape(q: string, p: int, s: int, e: int) {
    Lead(q, p, "in") && SpacedGroup(q, p + 2, s, e) && StopAhead(q, e)
  }

  /** A match of a one-group pattern: where it starts and where its group lies. */
  datatype Match1 = Match1(at: int, s: int, e: int)

  /** A match of the combined pattern: where it starts and where its two groups lie. */
  datatype Match2 = Match2(at: int, s1: int, e1: int, s2: int, e2: int)

  /**
   * `m` is the match `re.search` returns rather than one at `p` with group [s, e): it starts
   * further left, or at the same place with a longer `\s+` before the group, or with the same
   * `\s+` and a group no longer (the group is lazy).
   */
  predicate Prefers1(m: Match1, p: int, s: int, e: int) {
    m.at < p || (m.at == p && (m.s > s || (m.s == s && m.e <= e)))
  }

  /** The same order for the combined pattern, group by group. */
  predicate Prefers2(m: Match2, p: int, s1: int, e1: int, s2: int, e2: int) {
    || m.at < p
    || (m.at == p && (m.s1 > s1 || (m.s1 == s1 && (m.e1 < e1 || (m.e1 == e1 && (m.s2 > s2 || (m.s2 == s2 && m.e2 <= e2)))))))
  }

  // The three patterns tried at one start position, in backtracking order.

  function CombinedAt(q: string): int -> Option<(int, int, (int, int, ()))> {
    p => if 0 <= p <= |q| && Lead(q, p, "for") then SpacedLazy(q, p + 3, InTail(q)) else None
  }

  function RoleAt(q: string): int -> Option<(int, int, ())> {
    p => if 0 <= p <= |q| && Lead(q, p, "for") then SpacedLazy(q, p + 3, RoleTail(q)) else None
  }

  function CountryAt(q: string): int -> Option<(int, int, ())> {
    p => if 0 <= p <= |q| && Lead(q, p, "in") then SpacedLazy(q, p + 2, StopTail(q)) else None
  }

  /** `re.search` with the combined pattern. */
  function FindCombined(q: string): (r: Option<Match2>)
    ensures r.Some? ==> 0 <= r.value.e1 <= |q|
    ensures r.Some? ==> CombinedShape(q, r.value.at, r.value.s1, r.value.e1, WsEnd(q, r.value.e1), r.value.s2, r.value.e2)
  {
    match FirstIn(0, |q| + 1, CombinedAt(q))
    case None => None
    case Some((p, (s1, e1, (s2, e2, _)))) => Some(Match2(p, s1, e1, s2, e2))
  }

  /** `re.search` with the role-only pattern. */
  function FindRole(q: string): (r: Option<Match1>)
    ensures r.Some? ==> RoleShape(q, r.value.at, r.value.s, r.value.e)
  {
    match FirstIn(0, |q| + 1, RoleAt(q))
    case None => None
    case Some((p, (s, e, _))) => Some(Match1(p, s, e))
  }

  /** `re.search` with the country pattern. */
  function FindCountry(q: string): (r: Option<Match1>)
    ensures r.Some? ==> CountryShape(q, r.value.at, r.value.s, r.value.e)
  {
    match FirstIn(0, |q| + 1, CountryAt(q))
    case None => None
    case Some((p, (s, e, _))) => Some(Match1(p, s, e))
  }

  // Where a pattern matches, the search finds that match or one it prefers.

  lemma CombinedAtBest(q: string, p: int, s1: int, e1: int, c: int, s2: int, e2: int)
    requires CombinedShape(q, p, s1, e1, c, s2, e2)
    ensures CombinedAt(q)(p).Some?
    ensures var v := CombinedAt(q)(p).value; Prefers2(Match2(p, v.0, v.1, v.2.0, v.2.1), p, s1, e1, s2, e2)
  {
    InAfterBest(q, e1, c, s2, e2);
    InTailIs(q, e1);
    SpacedLazyNested(q, p + 3, s1, e1, s2, e2, InTail(q));
    CombinedAtIs(q, p);
  }

  // The two unfoldings below are kept apart from `CombinedAtBest`: unfolding the lambdas there
  // costs more than the solver may spend.

  lemma InTailIs(q: string, e: int)
    ensures InTail(q)(e) == InAfter(q, e)
  {
  }

  lemma CombinedAtIs(q: string, p: int)
    requires 0 <= p <= |q| && Lead(q, p, "for")
    ensures CombinedAt(q)(p) == SpacedLazy(q, p + 3, InTail(q))
  {
    var tail := InTail(q);
    assert CombinedAt(q)(p) == if 0 <= p <= |q| && Lead(q, p, "for") then SpacedLazy(q, p + 3, tail) else None;
  }

  lemma RoleAtBest(q: string, p: int, s: int, e: int)
    requires RoleShape(q, p, s, e)
    ensures RoleAt(q)(p).Some?
    ensures var v := RoleAt(q)(p).value; Prefers1(Match1(p, v.0, v.1), p, s, e)
  {
    assert RoleTail(q)(e) == Some(());
    SpacedLazyBest(q, p + 3, s, e, RoleTail(q));
  }

  lemma CountryAtBest(q: string, p: int, s: int, e: int)
    requires CountryShape(q, p, s, e)
    ensures CountryAt(q)(p).Some?
    ensures var v := CountryAt(q)(p).value; Prefers1(Match1(p, v.0, v.1), p, s, e)
  {
    assert StopTail(q)(e) == Some(());
    SpacedLazyBest(q, p + 2, s, e, StopTail(q));
  }

  /** `re.search` with the combined pattern returns its leftmost, preferred match. */
  lemma FindCombinedBest(q: string, p: int, s1: int, e1: int, c: int, s2: int, e2: int)
    requires CombinedShape(q, p, s1, e1, c, s2, e2)
    ensures FindCombined(q).Some? && Prefers2(FindCombined(q).value, p, s1, e1, s2, e2)
  {
    CombinedAtBest(q, p, s1, e1, c, s2, e2);
    FirstInBest(0, |q| + 1, CombinedAt(q), p);
  }

  /** `re.search` with the role-only pattern returns its leftmost, preferred match. */
  lemma FindRoleBest(q: string, p: int, s: int, e: int)
    requires RoleShape(q, p, s, e)
    ensures FindRole(q).Some? && Prefers1(FindRole(q).value, p, s, e)
  {
    RoleAtBest(q, p, s, e);
    FirstInBest(0, |q| + 1, RoleAt(q), p);
  }

  /** `re.search` with the country pattern returns its leftmost, preferred match. */
  lemma FindCountryBest(q: string, p: int, s: int, e: int)
    requires CountryShape(q, p, s, e)
    ensures FindCountry(q).Some? && Prefers1(FindCountry(q).value, p, s, e)
  {
    CountryAtBest(q, p, s, e);
    FirstInBest(0, |q| + 1, CountryAt(q), p);
  }

  // ---------------------------------------------------------------------------------------------
  // Hints

  /** What a hint is: a stripped piece of one line of the question. */
  predicate IsHint(query: string, h: string) {
    Contains(query, h) && Strip(h) == h && '\n' !in h
  }

  /** A captured group of the stripped question, stripped again, is a hint. */
  lemma GroupIsHint(query: string, s: int, e: int)
    requires DotRun(Strip(query), s, e)
    ensures IsHint(query, Strip(Strip(query)[s..e]))
  {
    var g := Strip(query)[s..e];
    GroupContained(query, s, e);
    StripIdempotent(g);
    assert forall k :: 0 <= k < |g| ==> g[k] == Strip(query)[s + k];
    StrippedOneLine(g);
  }

  lemma GroupContained(query: string, s: int, e: int)
    requires 0 <= s <= e <= |Strip(query)|
    ensures Contains(query, Strip(Strip(query)[s..e]))
  {
    var q := Strip(query);
    var g := q[s..e];
    StripContained(query);
    assert OccursAt(q, g, s);
    StripContained(g);
    ContainsTransitive(q, g, Strip(g));
    ContainsTransitive(query, q, Strip(g));
  }

  /** Stripping a line-free text keeps it line-free. */
  lemma StrippedOneLine(g: string)
    requires forall k :: 0 <= k < |g| ==> g[k] != '\n'
    ensures '\n' !in Strip(g)
  {
    StripSlice(g, Whitespace);
  }

  /**
   * `parse_role_country_hints`: the combined "for ROLE in COUNTRY" pattern first; failing that,
   * the role-only and the country-only patterns independently. Every hint is stripped.
   */
  function ParseRoleCountryHints(query: string): (r: (Option<string>, Option<string>))
    ensures r.0.Some? ==> IsHint(query, r.0.value)
    ensures r.1.Some? ==> IsHint(query, r.1.value)
    ensures var q := Strip(query); var m := FindCombined(q);
            m.Some? ==> r == (Some(Strip(q[m.value.s1..m.value.e1])), Some(Strip(q[m.value.s2..m.value.e2])))
    ensures var q := Strip(query); var m := FindRole(q);
            FindCombined(q).None? ==> r.0 == (if m.Some? then Some(Strip(q[m.value.s..m.value.e])) else None)
    ensures var q := Strip(query); var m := FindCountry(q);
            FindCombined(q).None? ==> r.1 == (if m.Some? then Some(Strip(q[m.value.s..m.value.e])) else None)
  {
    var q := Strip(query);
    match FindCombined(q)
    case Some(m) =>
      GroupIsHint(query, m.s1, m.e1);
      GroupIsHint(query, m.s2, m.e2);
      (Some(Strip(q[m.s1..m.e1])), Some(Strip(q[m.s2..m.e2])))
    case None =>
      var role := (match FindRole(q)
        case Some(m) => GroupIsHint(query, m.s, m.e); Some(Strip(q[m.s..m.e]))
        case None => None);
      var country := (match FindCountry(q)
        case Some(m) => GroupIsHint(query, m.s, m.e); Some(Strip(q[m.s..m.e]))
        case None => None);
      (role, country)
  }

  /** The role group of a combined match ends where the role-only pattern could also stop. */
  lemma CombinedRole(q: string, p: int, s1: int, e1: int, c: int, s2: int, e2: int)
    requires CombinedShape(q, p, s1, e1, c, s2, e2)
    ensures RoleShape(q, p, s1, e1)
  {
    assert IsSpace(q[c + 2]);
    KeywordWordChar(q, c, "in", 1);
    WordPhrase(q, e1, c, "in");
    assert RoleAlts[3] == Phrase(["in"]);
    AnyAltOf(q, e1, RoleAlts, 3);
  }

  /** The country group of a combined match is a match of the country-only pattern. */
  lemma CombinedCountry(q: string, p: int, s1: int, e1: int, c: int, s2: int, e2: int)
    requires CombinedShape(q, p, s1, e1, c, s2, e2)
    ensures CountryShape(q, c, s2, e2)
  {
    assert IsSpace(q[c - 1]);
    KeywordWordChar(q, c, "in", 0);
  }

  /** `h` is the stripped group of a role-pattern match in `q`. */
  ghost predicate RoleFound(q: string, h: string) {
    exists p, s, e :: RoleShape(q, p, s, e) && 0 <= s <= e <= |q| && h == Strip(q[s..e])
  }

  /** `h` is the stripped group of a country-pattern match in `q`. */
  ghost predicate CountryFound(q: string, h: string) {
    exists p, s, e :: CountryShape(q, p, s, e) && 0 <= s <= e <= |q| && h == Strip(q[s..e])
  }

  /** Every hint comes from a phrase the corresponding pattern matches in the stripped question. */
  lemma HintsSound(query: string)
    ensures var r := ParseRoleCountryHints(query);
            && (r.0.Some? ==> RoleFound(Strip(query), r.0.value))
            && (r.1.Some? ==> CountryFound(Strip(query), r.1.value))
  {
    var q := Strip(query);
    match FindCombined(q)
    case Some(m) =>
      CombinedRole(q, m.at, m.s1, m.e1, WsEnd(q, m.e1), m.s2, m.e2);
      CombinedCountry(q, m.at, m.s1, m.e1, WsEnd(q, m.e1), m.s2, m.e2);
    case None =>
  }

  /** A combined "for ROLE in COUNTRY" phrase yields both hints. */
  lemma HintsOfCombined(query: string, p: int, s1: int, e1: int, c: int, s2: int, e2: int)
    requires CombinedShape(Strip(query), p, s1, e1, c, s2, e2)
    ensures ParseRoleCountryHints(query).0.Some? && ParseRoleCountryHints(query).1.Some?
  {
    FindCombinedBest(Strip(query), p, s1, e1, c, s2, e2);
  }

  /** The combined match `re.search` returns: no other combined match is preferred to it. */
  ghost predicate BestCombined(q: string, p: int, s1: int, e1: int, c: int, s2: int, e2: int) {
    && CombinedShape(q, p, s1, e1, c, s2, e2)
    && forall p', s1', e1', c', s2', e2' :: CombinedShape(q, p', s1', e1', c', s2', e2') ==>
         Prefers2(Match2(p, s1, e1, s2, e2), p', s1', e1', s2', e2')
  }

  /** The role-only match `re.search` returns. */
  ghost predicate BestRole(q: string, p: int, s: int, e: int) {
    RoleShape(q, p, s, e) && forall p', s', e' :: RoleShape(q, p', s', e') ==> Prefers1(Match1(p, s, e), p', s', e')
  }

  /** The country match `re.search` returns. */
  ghost predicate BestCountry(q: string, p: int, s: int, e: int) {
    CountryShape(q, p, s, e) && forall p', s', e' :: CountryShape(q, p', s', e') ==> Prefers1(Match1(p, s, e), p', s', e')
  }

  /** The combined pattern matches nowhere. */
  ghost predicate NoCombined(q: string) {
    forall p, s1, e1, c, s2, e2 :: !CombinedShape(q, p, s1, e1, c, s2, e2)
  }

  /** Where the combined pattern matches, the hints are the stripped groups of its preferred match. */
  lemma HintsOfBestCombined(query: string, p: int, s1: int, e1: int, c: int, s2: int, e2: int)
    requires BestCombined(Strip(query), p, s1, e1, c, s2, e2)
    ensures 0 <= s1 <= e1 <= |Strip(query)| && 0 <= s2 <= e2 <= |Strip(query)|
    ensures ParseRoleCountryHints(query) ==
              (Some(Strip(Strip(query)[s1..e1])), Some(Strip(Strip(query)[s2..e2])))
  {
    var q := Strip(query);
    FindCombinedBest(q, p, s1, e1, c, s2, e2);
    var m := FindCombined(q).value;
    assert CombinedShape(q, m.at, m.s1, m.e1, WsEnd(q, m.e1), m.s2, m.e2);
    assert m == Match2(p, s1, e1, s2, e2);
  }

  /** Without a combined match, the role hint is the stripped group of the preferred role match. */
  lemma HintsOfBestRole(query: string, p: int, s: int, e: int)
    requires NoCombined(Strip(query)) && BestRole(Strip(query), p, s, e)
    ensures 0 <= s <= e <= |Strip(query)|
    ensures ParseRoleCountryHints(query).0 == Some(Strip(Strip(query)[s..e]))
  {
    var q := Strip(query);
    NoCombinedNone(q);
    FindRoleBest(q, p, s, e);
    var m := FindRole(q).value;
    assert RoleShape(q, m.at, m.s, m.e);
    assert m == Match1(p, s, e);
  }

  /** Without a combined match, the country hint is the stripped group of the preferred country match. */
  lemma HintsOfBestCountry(query: string, p: int, s: int, e: int)
    requires NoCombined(Strip(query)) && BestCountry(Strip(query), p, s, e)
    ensures 0 <= s <= e <= |Strip(query)|
    ensures ParseRoleCountryHints(query).1 == Some(Strip(Strip(query)[s..e]))
  {
    var q := Strip(query);
    NoCombinedNone(q);
    FindCountryBest(q, p, s, e);
    var m := FindCountry(q).value;
    assert CountryShape(q, m.at, m.s, m.e);
    assert m == Match1(p, s, e);
  }

  /** A question that none of the patterns matches has no hints. */
  lemma HintsOfNone(query: string)
    requires NoCombined(Strip(query))
    requires forall p, s, e :: !RoleShape(Strip(query), p, s, e)
    requires forall p, s, e :: !CountryShape(Strip(query), p, s, e)
    ensures ParseRoleCountryHints(query) == (None, None)
  {
    var q := Strip(query);
    NoCombinedNone(q);
  }

  /** Where the combined pattern matches nowhere, its search finds nothing. */
  lemma NoCombinedNone(q: string)
    requires NoCombined(q)
    ensures FindCombined(q).None?
  {
  }

  /** A phrase the role pattern matches yields a role hint. */
  lemma HintsOfRole(query: string, p: int, s: int, e: int)
    requires RoleShape(Strip(query), p, s, e)
    ensures ParseRoleCountryHints(query).0.Some?
  {
    FindRoleBest(Strip(query), p, s, e);
  }

  /** A phrase the country pattern matches yields a country hint. */
  lemma HintsOfCountry(query: string, p: int, s: int, e: int)
    requires CountryShape(Strip(query), p, s, e)
    ensures ParseRoleCountryHints(query).1.Some?
  {
    FindCountryBest(Strip(query), p, s, e);
  }

  // ---------------------------------------------------------------------------------------------
  // The whole question

  /**
   * `parse_query`: the intent, the two hints and the time window of one question, each from
   * its own parser.
   */
  function ParseQuery(query: string): (r: ParsedQuery)
    ensures r.intent == DetectIntent(query)
    ensures (r.roleHint, r.countryHint) == ParseRoleCountryHints(query)
    ensures (r.timeValue, r.timeUnit) == ParseTimeRange(query)
    ensures r.intent.None? <==>
              && !Hits(Lower(query), RisingWords) && !Hits(Lower(query), TrendWords)
              && !Hits(Lower(query), TopWords) && !Contains(Lower(query), "skills")
    ensures r.roleHint.Some? ==> IsHint(query, r.roleHint.value)
    ensures r.countryHint.Some? ==> IsHint(query, r.countryHint.value)
    ensures r.timeValue.Some? <==> r.timeUnit.Some?
    ensures r.timeUnit.Some? ==> r.timeUnit.value in Units
  {
    var (role, country) := ParseRoleCountryHints(query);
    var (value, unit) := ParseTimeRange(query);
    ParsedQuery(DetectIntent(query), role, country, value, unit)
  }

  /** A parsed time window with a non-zero number lasts that many of its unit's days. */
  lemma ParsedWindow(query: string)
    ensures var r := ParseQuery(query);
            r.timeValue.Some? && r.timeValue.value != 0 ==>
              exists u :: r.timeUnit == Some(UnitName(u)) &&
                TimeDeltaDays(Some(r.timeValue.value), r.timeUnit) == DaysPer(u) * r.timeValue.value
  {
    var r := ParseQuery(query);
    if r.timeValue.Some? && r.timeValue.value != 0 {
      var u := UnitNamed(r.timeUnit.value);
      TimeDeltaOfUnit(r.timeValue.value, u, r.timeUnit.value);
    }
  }

  /** Every name in `Units` is the name of a unit. */
  lemma UnitNamed(name: string) returns (u: Unit)
    requires name in Units
    ensures name == UnitName(u)
  {
    u := if name == "day" then Day else if name == "week" then Week else if name == "month" then Month else Year;
  }
}
