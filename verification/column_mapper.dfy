/**
 * Header detection of the upload pipeline (backend/services/column_mapper.py): column names
 * are compared after reducing them to lower-case letters and digits. An exact match, tried in
 * candidate order, wins; otherwise the first column whose reduced name contains a reduced
 * candidate is taken.
 */
module ColumnMapper {
  import opened Base
  import opened Strings

  // ---------------------------------------------------------------------------------------------
  // normalize_col

  /** The characters a normalised name is made of: `[a-z0-9]`. */
  predicate IsNormChar(c: char) {
    IsLowerAscii(c) || IsDigit(c)
  }

  predicate IsNormalized(s: string) {
    forall i :: 0 <= i < |s| ==> IsNormChar(s[i])
  }

  /** `re.sub(r"[^a-z0-9]", "", s)`. */
  function KeepNormChars(s: string): (r: string)
    ensures IsNormalized(r)
    ensures |r| <= |s|
  {
    if |s| == 0 then "" else (if IsNormChar(s[0]) then [s[0]] else "") + KeepNormChars(s[1..])
  }

  /** The class `[\s\-_]` removed before the special characters. */
  const Separators: set<char> := Whitespace + {'-', '_'}

  /** `normalize_col`: strip, lower-case, drop separators, drop everything outside `[a-z0-9]`. */
  function NormalizeCol(col: string): (r: string)
    ensures IsNormalized(r)
    ensures |r| <= |col|
  {
    KeepNormChars(Without(Lower(Strip(col)), Separators))
  }

  lemma {:induction false} KeepNormAppend(a: string, b: string)
    ensures KeepNormChars(a + b) == KeepNormChars(a) + KeepNormChars(b)
    decreases |a|
  {
    if |a| == 0 {
      assert a + b == b;
    } else {
      var h := if IsNormChar(a[0]) then [a[0]] else "";
      assert (a + b)[0] == a[0];
      assert (a + b)[1..] == a[1..] + b;
      KeepNormAppend(a[1..], b);
      calc {
        KeepNormChars(a + b);
        h + KeepNormChars(a[1..] + b);
        h + (KeepNormChars(a[1..]) + KeepNormChars(b));
        (h + KeepNormChars(a[1..])) + KeepNormChars(b);
        KeepNormChars(a) + KeepNormChars(b);
      }
    }
  }

  /** Removing characters that `KeepNormChars` drops anyway changes nothing. */
  lemma {:induction false} KeepNormWithout(s: string, cs: set<char>)
    requires forall c :: c in cs ==> !IsNormChar(c)
    ensures KeepNormChars(Without(s, cs)) == KeepNormChars(s)
    decreases |s|
  {
    if |s| > 0 {
      KeepNormWithout(s[1..], cs);
      KeepNormAppend(if s[0] in cs then "" else [s[0]], Without(s[1..], cs));
    }
  }

  /** Lower-casing commutes with removing whitespace. */
  lemma {:induction false} LowerWithoutSpace(s: string)
    ensures Without(Lower(s), Whitespace) == Lower(Without(s, Whitespace))
    decreases |s|
  {
    if |s| > 0 {
      LowerWithoutSpace(s[1..]);
      assert Lower(s)[1..] == Lower(s[1..]);
      var h := if s[0] in Whitespace then "" else [s[0]];
      LowerAppend(h, Without(s[1..], Whitespace));
    }
  }

  /** A string made of `[a-z0-9]` only is kept whole. */
  lemma {:induction false} KeepNormIdentity(s: string)
    requires IsNormalized(s)
    ensures KeepNormChars(s) == s
    decreases |s|
  {
    if |s| > 0 {
      KeepNormIdentity(s[1..]);
      assert [s[0]] + s[1..] == s;
    }
  }

  /**
   * Reference definition: the normalised name is the sequence of letters and digits of the
   * lower-cased name, in order (stripping and separator removal only drop characters that the
   * last step would drop anyway).
   */
  lemma NormalizeColIsLowerAlnum(col: string)
    ensures NormalizeCol(col) == KeepNormChars(Lower(col))
  {
    var s := Strip(col);
    assert forall c :: c in Separators ==> !IsNormChar(c);
    assert forall c :: c in Whitespace ==> !IsNormChar(c);
    KeepNormWithout(Lower(s), Separators);
    KeepNormWithout(Lower(s), Whitespace);
    LowerWithoutSpace(s);
    StripKeepsContent(col, Whitespace);
    LowerWithoutSpace(col);
    KeepNormWithout(Lower(col), Whitespace);
  }

  /** A name that is already normalised normalises to itself. */
  lemma NormalizedFixed(s: string)
    requires IsNormalized(s)
    ensures NormalizeCol(s) == s
  {
    NormalizeColIsLowerAlnum(s);
    assert IsLowered(s);
    LowerOfLowered(s);
    KeepNormIdentity(s);
  }

  /** `normalize_col(normalize_col(x)) == normalize_col(x)`. */
  lemma NormalizeColIdempotent(col: string)
    ensures NormalizeCol(NormalizeCol(col)) == NormalizeCol(col)
  {
    NormalizedFixed(NormalizeCol(col));
  }

  // ---------------------------------------------------------------------------------------------
  // find_best_column

  /** The normalised names, position by position. */
  function NormKeys(names: seq<string>): (ks: seq<string>)
    ensures |ks| == |names|
    ensures forall i :: 0 <= i < |names| ==> ks[i] == NormalizeCol(names[i])
  {
    if |names| == 0 then [] else [NormalizeCol(names[0])] + NormKeys(names[1..])
  }

  /** Index of the last occurrence of `key` in `ks`, if any. */
  function LastWithKey(ks: seq<string>, key: string): (r: Option<nat>)
    ensures r.Some? ==> r.value < |ks| && ks[r.value] == key
    ensures r.Some? ==> forall j :: r.value < j < |ks| ==> ks[j] != key
    ensures r.None? <==> key !in ks
  {
    if |ks| == 0 then None
    else if ks[|ks| - 1] == key then Some(|ks| - 1)
    else
      assert ks == ks[..|ks| - 1] + [ks[|ks| - 1]];
      LastWithKey(ks[..|ks| - 1], key)
  }

  /**
   * `{normalize_col(c): c for c in columns}`, given the normalised names `nks`: every name
   * present is a key, and a later column overwrites an earlier one with the same key.
   */
  function NormMap(columns: seq<string>, nks: seq<string>): (m: map<string, string>)
    requires |nks| == |columns|
    ensures forall key :: key in m <==> key in nks
    ensures forall key :: key in m ==> m[key] == columns[LastWithKey(nks, key).value]
  {
    if |columns| == 0 then map[]
    else
      var n := |columns| - 1;
      assert nks == nks[..n] + [nks[n]];
      NormMap(columns[..n], nks[..n])[nks[n] := columns[n]]
  }

  /** Candidate key `j` is the first, in candidate order, that is a key of `m`. */
  predicate FirstKnown(m: map<string, string>, cks: seq<string>, j: int) {
    && 0 <= j < |cks|
    && cks[j] in m
    && forall i :: 0 <= i < j ==> cks[i] !in m
  }

  /** The exact tier: the column stored under the first normalised candidate that is a key of `m`. */
  function ExactTier(m: map<string, string>, cks: seq<string>): (r: Option<string>)
    ensures forall j :: FirstKnown(m, cks, j) ==> r == Some(m[cks[j]])
    ensures r.Some? ==> exists j :: 0 <= j < |cks| && cks[j] in m && r.value == m[cks[j]]
    ensures r.None? <==> forall j :: 0 <= j < |cks| ==> cks[j] !in m
  {
    if |cks| == 0 then None
    else if cks[0] in m then Some(m[cks[0]])
    else
      var r := ExactTier(m, cks[1..]);
      assert forall j :: FirstKnown(m, cks, j) ==> FirstKnown(m, cks[1..], j - 1);
      r
  }

  /** Some normalised candidate occurs inside the normalised column name. */
  predicate PartlyMatches(ncol: string, cks: seq<string>) {
    exists j :: 0 <= j < |cks| && Contains(ncol, cks[j])
  }

  /** The inner loop of the partial tier. */
  function AnyCandidateIn(ncol: string, cks: seq<string>): (b: bool)
    ensures b <==> PartlyMatches(ncol, cks)
  {
    if |cks| == 0 then false
    else if Contains(ncol, cks[0]) then true
    else
      var b := AnyCandidateIn(ncol, cks[1..]);
      assert forall j :: 0 < j < |cks| ==> cks[j] == cks[1..][j - 1];
      b
  }

  /** Column `i` is the first, in column order, whose normalised name partly matches. */
  predicate FirstPartial(nks: seq<string>, cks: seq<string>, i: int) {
    && 0 <= i < |nks|
    && PartlyMatches(nks[i], cks)
    && forall k :: 0 <= k < i ==> !PartlyMatches(nks[k], cks)
  }

  /** The partial tier: the first column whose normalised name contains a normalised candidate. */
  function PartialTier(columns: seq<string>, nks: seq<string>, cks: seq<string>): (r: Option<string>)
    requires |nks| == |columns|
    ensures r.Some? ==> r.value in columns
    ensures forall i :: FirstPartial(nks, cks, i) ==> r == Some(columns[i])
    ensures r.None? <==> forall i :: 0 <= i < |nks| ==> !PartlyMatches(nks[i], cks)
  {
    if |columns| == 0 then None
    else if AnyCandidateIn(nks[0], cks) then Some(columns[0])
    else
      var r := PartialTier(columns[1..], nks[1..], cks);
      assert forall i :: FirstPartial(nks, cks, i) ==> FirstPartial(nks[1..], cks, i - 1);
      r
  }

  /** Candidate key `j` is the first that equals the normalised name of some column. */
  predicate FirstExact(nks: seq<string>, cks: seq<string>, j: int) {
    && 0 <= j < |cks|
    && cks[j] in nks
    && forall i :: 0 <= i < j ==> cks[i] !in nks
  }

  /** No candidate key equals the normalised name of any column. */
  predicate NoExact(nks: seq<string>, cks: seq<string>) {
    forall j :: 0 <= j < |cks| ==> cks[j] !in nks
  }

  /** `find_best_column(columns, candidates, allow_partial)`. */
  function FindBestColumn(columns: seq<string>, candidates: seq<string>, allowPartial: bool): (r: Option<string>)
    ensures r.Some? ==> r.value in columns
    ensures forall j :: FirstExact(NormKeys(columns), NormKeys(candidates), j) ==>
              r == Some(columns[LastWithKey(NormKeys(columns), NormKeys(candidates)[j]).value])
    ensures NoExact(NormKeys(columns), NormKeys(candidates)) && !allowPartial ==> r == None
    ensures NoExact(NormKeys(columns), NormKeys(candidates)) && allowPartial ==>
              && (forall i :: FirstPartial(NormKeys(columns), NormKeys(candidates), i) ==> r == Some(columns[i]))
              && (r.None? <==> forall i :: 0 <= i < |columns| ==>
                                 !PartlyMatches(NormKeys(columns)[i], NormKeys(candidates)))
  {
    var nks := NormKeys(columns);
    var cks := NormKeys(candidates);
    var r := ExactTier(NormMap(columns, nks), cks);
    ExactTierFacts(columns, nks, cks);
    match r
    case Some(c) => Some(c)
    case None => if !allowPartial then None else PartialTier(columns, nks, cks)
  }

  /** The exact tier, stated over the columns and the normalised names. */
  lemma ExactTierFacts(columns: seq<string>, nks: seq<string>, cks: seq<string>)
    requires |nks| == |columns|
    ensures ExactTier(NormMap(columns, nks), cks).Some? ==> ExactTier(NormMap(columns, nks), cks).value in columns
    ensures forall j :: FirstExact(nks, cks, j) ==>
              ExactTier(NormMap(columns, nks), cks) == Some(columns[LastWithKey(nks, cks[j]).value])
    ensures ExactTier(NormMap(columns, nks), cks).None? <==> NoExact(nks, cks)
  {
    var m := NormMap(columns, nks);
    assert forall j :: FirstExact(nks, cks, j) ==> FirstKnown(m, cks, j);
  }

  // ---------------------------------------------------------------------------------------------
  // detect_columns

  const JobTitleCandidates: seq<string> := ["jobtitle", "job title", "title", "position"]
  const DescriptionCandidates: seq<string> := ["jobdescription", "job description", "description", "details"]
  const CountryCandidates: seq<string> := ["country", "nation"]
  const RoleCandidates: seq<string> := ["category", "categories", "industry", "department", "role"]
  const CompanyCandidates: seq<string> := ["company", "employer", "organization"]
  const LocationCandidates: seq<string> := ["location", "city", "state"]
  const PostedDateCandidates: seq<string> := ["posteddate", "post date", "date", "createdat"]
  const SkillsCandidates: seq<string> := ["skills", "skill", "requiredskills", "keyskills", "key skills"]
  const SalaryMinCandidates: seq<string> := ["salarymin", "minsalary", "salary_min"]
  const SalaryMaxCandidates: seq<string> := ["salarymax", "maxsalary", "salary_max"]

  /** The ten keys `detect_columns` returns, each the chosen column or none. */
  datatype ColumnMapping = ColumnMapping(
    jobTitle: Option<string>,
    description: Option<string>,
    country: Option<string>,
    datasetRole: Option<string>,
    company: Option<string>,
    location: Option<string>,
    postedDate: Option<string>,
    skills: Option<string>,
    salaryMin: Option<string>,
    salaryMax: Option<string>)

  predicate MapsInto(o: Option<string>, columns: seq<string>) {
    o.None? || o.value in columns
  }

  /** Every key of the mapping names one of the given columns or nothing. */
  predicate MappingWithin(m: ColumnMapping, columns: seq<string>) {
    && MapsInto(m.jobTitle, columns) && MapsInto(m.description, columns)
    && MapsInto(m.country, columns) && MapsInto(m.datasetRole, columns)
    && MapsInto(m.company, columns) && MapsInto(m.location, columns)
    && MapsInto(m.postedDate, columns) && MapsInto(m.skills, columns)
    && MapsInto(m.salaryMin, columns) && MapsInto(m.salaryMax, columns)
  }

  /**
   * `detect_columns`: each of the ten keys gets `find_best_column` over its own candidate list,
   * with partial matching allowed.
   */
  function DetectColumns(columns: seq<string>): (r: ColumnMapping)
    ensures MappingWithin(r, columns)
    ensures r.jobTitle == FindBestColumn(columns, JobTitleCandidates, true)
    ensures r.description == FindBestColumn(columns, DescriptionCandidates, true)
    ensures r.country == FindBestColumn(columns, CountryCandidates, true)
    ensures r.datasetRole == FindBestColumn(columns, RoleCandidates, true)
    ensures r.company == FindBestColumn(columns, CompanyCandidates, true)
    ensures r.location == FindBestColumn(columns, LocationCandidates, true)
    ensures r.postedDate == FindBestColumn(columns, PostedDateCandidates, true)
    ensures r.skills == FindBestColumn(columns, SkillsCandidates, true)
    ensures r.salaryMin == FindBestColumn(columns, SalaryMinCandidates, true)
    ensures r.salaryMax == FindBestColumn(columns, SalaryMaxCandidates, true)
  {
    ColumnMapping(
      FindBestColumn(columns, JobTitleCandidates, true),
      FindBestColumn(columns, DescriptionCandidates, true),
      FindBestColumn(columns, CountryCandidates, true),
      FindBestColumn(columns, RoleCandidates, true),
      FindBestColumn(columns, CompanyCandidates, true),
      FindBestColumn(columns, LocationCandidates, true),
      FindBestColumn(columns, PostedDateCandidates, true),
      FindBestColumn(columns, SkillsCandidates, true),
      FindBestColumn(columns, SalaryMinCandidates, true),
      FindBestColumn(columns, SalaryMaxCandidates, true))
  }

  /**
   * A header that normalises to "country" (such as "Country" or " COUNTRY ") is chosen for the
   * country key; among several such headers the last one wins.
   */
  lemma {:induction false} CountryHeaderDetected(columns: seq<string>, i: int)
    requires 0 <= i < |columns| && NormalizeCol(columns[i]) == "country"
    ensures "country" in NormKeys(columns)
    ensures DetectColumns(columns).country == Some(columns[LastWithKey(NormKeys(columns), "country").value])
  {
    var c := "country";
    assert c == ['c', 'o', 'u', 'n', 't', 'r', 'y'];
    NormalizedFixed(c);
    assert CountryCandidates[0] == c;
    assert NormKeys(CountryCandidates)[0] == c;
    assert NormKeys(columns)[i] == c;
    assert FirstExact(NormKeys(columns), NormKeys(CountryCandidates), 0);
  }
}
