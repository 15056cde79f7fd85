# SKILLBUILDER job-skills analytics, modelled in Dafny

SKILLBUILDER ingests a table of job postings whose schema is not known in advance. It finds
the columns that hold role, country, skills, description and date, and stores one record per
posting with a normalised skills list. It then answers free-text questions such as "top
skills for Data Analyst in USA" or "rising skills for last 6 months" with skill statistics.
The repository has two pipelines. Both are deterministic string and sequence processing.

- The application pipeline is the `backend/app` tree:
  - text utilities;
  - a rule-based query parser;
  - dataset ingestion;
  - a question-answering agent that keeps a run log.
- The older pipeline is the `backend/services` tree:
  - header detection;
  - skill-cell parsing;
  - role cleaning;
  - upload row normalisation;
  - top, rising and trend analytics.

The model follows the source file by file: one Dafny module per source file. Each operation
is a pure function over immutable values, and the database is a value (`Models.Store`) holding
one sequence per table. Regular expressions are written out as scanners with Python's
leftmost-first, backtracking semantics. Dates are integers (day numbers). Library services the
code calls without defining become parameters:

- `difflib`'s similarity ratio, typed to stay in [0, 1];
- the calendar month of a date;
- month arithmetic;
- date and number parsing;
- `ast.literal_eval`.

Support modules:

- `Base`: `Option` and `Result`.
- `Seqs`: filters, first index, order-preserving de-duplication, arg-max.
- `Strings`: Python's `str.strip`, `str.lower`, `re.sub(r"\s+", " ", …)`, splitting, joining,
  and `sorted(set(…))` on strings.
- `Counting`: `Counter`, `most_common`, `value_counts().head(k)`, stable `sorted(…,
  reverse=True)`, `xs[:k]` and month group-by.
- `Scanning`: regular-expression building blocks.

## Model

| member | source | states |
|---|---|---|
| TextUtils.NormalizeText | backend/app/utils/text_utils.py:14-17 | `None` gives ""; otherwise the words of the text (its maximal whitespace-free runs) joined by single spaces, so no leading, trailing or doubled whitespace remains and every non-whitespace character is kept in order |
| TextUtils.NormalizeIdempotent | backend/app/utils/text_utils.py:14-17 | normalising a normalised text changes nothing |
| TextUtils.CleanedSkills | backend/app/utils/text_utils.py:20-31 | every cleaned part of a cell is a clean token: non-empty, lower case, no `, ; \| /`, single inner spaces, no leading or trailing `-` or space |
| TextUtils.SmartSplitSkills | backend/app/utils/text_utils.py:20-40 | a blank cell gives []; the result has no duplicates; it has exactly the members of the cleaned parts, each kept at its first occurrence and in first-occurrence order |
| TextUtils.CleanSkillShape | backend/app/utils/text_utils.py:28-31 | a clean token is lower case, single-spaced and free of separators |
| TextUtils.CleanSkillOfShape | backend/app/utils/text_utils.py:28-31 | conversely, a non-empty, lower-case, single-spaced, separator-free text without `-` or space at its ends is a clean token |
| TextUtils.CleanPartIsClean | backend/app/utils/text_utils.py:28-31 | cleaning one separator-free part that is non-empty afterwards yields a clean token |
| TextUtils.CleanPartsAreClean | backend/app/utils/text_utils.py:25-31 | every token cleaned out of separator-free parts is a clean token |
| TextUtils.CleanPartOfClean | backend/app/utils/text_utils.py:28-31 | a clean token is its own cleaning, with or without the space a ", " join leaves in front |
| TextUtils.CleanPartsOfJoin | backend/app/utils/text_utils.py:25-31 | splitting clean tokens joined by ", " and cleaning the parts gives the tokens back |
| TextUtils.JoinSqueezed | backend/app/utils/text_utils.py:21 | clean tokens joined with ", " are already whitespace-normalised, and non-empty when there is a token |
| TextUtils.SplitJoinRoundTrip | backend/app/utils/text_utils.py:20-40 | any duplicate-free list of clean tokens, joined with ", " and split again, comes back unchanged |
| TextUtils.SmartSplitRoundTrip | backend/app/utils/text_utils.py:20-40 | `smart_split_skills(", ".join(smart_split_skills(x))) == smart_split_skills(x)`: the ingestion store and the analytics re-split agree |
| TextUtils.FindTerms | backend/app/utils/text_utils.py:48-53 | the result is strictly sorted and holds exactly the terms found as whole words (`\b` on both sides) |
| TextUtils.ExtractSkillsFromDescription | backend/app/utils/text_utils.py:43-53 | strictly sorted; a term is in the result exactly when it is a lexicon term found as a whole word in the normalised, lower-cased description |
| TextUtils.LexiconIsClean | backend/app/utils/text_utils.py:5-11 | every lexicon term is a clean token |
| TextUtils.LexiconNotEmpty | backend/app/utils/text_utils.py:5-11 | no lexicon term is empty |
| TextUtils.ExtractedSkillsRoundTrip | backend/app/utils/text_utils.py:43-53 | skills extracted from a description, joined with ", " and split again, come back unchanged |
| TextUtils.LexiconTermsRoundTrip | backend/app/utils/text_utils.py:5-11 | any strictly sorted selection of lexicon terms survives the join and re-split |
| TextUtils.Similarity | backend/app/utils/text_utils.py:56-57 | the similarity of two texts lies in [0, 1] |
| TextUtils.FuzzyMatch | backend/app/utils/text_utils.py:77-89 | the score is the maximum similarity over the non-empty candidates (0 when there are none); there is no match exactly when that score is below the threshold or 0; a match is a non-empty candidate of that score, and every earlier candidate scores lower (the first maximum wins) |
| TextUtils.ContainMatch | backend/app/utils/text_utils.py:72-75 | `None` exactly when no candidate passes the containment test as Python parses it; otherwise a passing candidate of maximal length, and no earlier candidate passes with the same length |
| TextUtils.BestMatch | backend/app/utils/text_utils.py:60-89 | a blank hint gives (None, 0.0); otherwise the first exact match with 1.0, else the containment match with 0.92, else the fuzzy tier; the score is in [0, 1] and any match is a candidate |
| QueryParser.AnyIn | backend/app/services/query_parser.py:25 | true exactly when some keyword of the bucket is a substring of the query |
| QueryParser.FirstRule | backend/app/services/query_parser.py:24-26 | the intent of the first bucket, in rule order, that has a hit; `None` exactly when no bucket has one |
| QueryParser.DetectIntent | backend/app/services/query_parser.py:15-29 | rising exactly when a rising keyword occurs; trends exactly when no rising but a trend keyword occurs; top exactly when neither but a top keyword or "skills" occurs; `None` otherwise |
| QueryParser.UnitName | backend/app/services/query_parser.py:34 | a unit's captured name is one of day/week/month/year |
| QueryParser.PluralOccurs | backend/app/services/query_parser.py:34 | wherever a plural unit occurs the singular occurs too, so the group captures the singular |
| QueryParser.UnitAt | backend/app/services/query_parser.py:34 | the unit alternative that matches at a position, if any |
| QueryParser.TimeAt | backend/app/services/query_parser.py:34-38 | a match of the time pattern at a position has digits, whitespace and a unit in the places the pattern puts them |
| QueryParser.TimeAtFinds | backend/app/services/query_parser.py:34-38 | any match at a position is the one the scanner finds there, with that value and unit |
| QueryParser.TimeRunsForced | backend/app/services/query_parser.py:34-38 | the whitespace and digit runs of a match are the longest ones |
| QueryParser.FirstTime | backend/app/services/query_parser.py:34-40 | `re.search`: `None` exactly when the pattern matches nowhere; otherwise the match at the leftmost position where one exists |
| QueryParser.NoShapeBefore | backend/app/services/query_parser.py:34-40 | where the scanner finds nothing, the pattern has no match |
| QueryParser.FirstTimeResult | backend/app/services/query_parser.py:35-40 | the value and unit returned are those of the leftmost match |
| QueryParser.ParseTimeRange | backend/app/services/query_parser.py:32-42 | the value and unit are both present or both absent; absent exactly when neither pattern matches; a "last N unit" match is preferred over a bare "N unit" match; the unit is always singular |
| QueryParser.TimeDeltaDays | backend/app/services/query_parser.py:81-83 | a missing or zero value, or a missing or empty unit, gives 180 days |
| QueryParser.TimeDeltaOfUnit | backend/app/services/query_parser.py:84-91 | a non-zero value of a unit named in singular or plural converts at 1, 7, 30 or 365 days per unit |
| QueryParser.UnitOfName | backend/app/services/query_parser.py:84-91 | a unit name reads back as its own unit in the substring tests |
| QueryParser.InAfter | backend/app/services/query_parser.py:51 | whatever the rest of the combined pattern finds has the shape the pattern requires |
| QueryParser.InAfterBest | backend/app/services/query_parser.py:51 | any way the rest of the pattern can match is found or beaten by a preferred match |
| QueryParser.FindCombined | backend/app/services/query_parser.py:51 | a combined match is a well-formed "for ROLE in COUNTRY" match |
| QueryParser.FindRole | backend/app/services/query_parser.py:57 | a role match is a well-formed "for ROLE" match |
| QueryParser.FindCountry | backend/app/services/query_parser.py:61 | a country match is a well-formed "in COUNTRY" match |
| QueryParser.CombinedAtBest | backend/app/services/query_parser.py:51 | at a given start, the scanner finds the match the regex engine prefers |
| QueryParser.RoleAtBest | backend/app/services/query_parser.py:57 | at a given start, the role scanner finds the preferred match |
| QueryParser.CountryAtBest | backend/app/services/query_parser.py:61 | at a given start, the country scanner finds the preferred match |
| QueryParser.FindCombinedBest | backend/app/services/query_parser.py:51-52 | whenever the combined pattern matches somewhere, the search finds its leftmost, preferred match |
| QueryParser.FindRoleBest | backend/app/services/query_parser.py:57-58 | whenever the role pattern matches somewhere, the search finds its leftmost, preferred match |
| QueryParser.FindCountryBest | backend/app/services/query_parser.py:61-62 | whenever the country pattern matches somewhere, the search finds its leftmost, preferred match |
| QueryParser.GroupIsHint | backend/app/services/query_parser.py:53-63 | a captured group, stripped, is a stripped substring of one line of the question |
| QueryParser.GroupContained | backend/app/services/query_parser.py:46-63 | a stripped group of the stripped question is a substring of the question |
| QueryParser.StrippedOneLine | backend/app/services/query_parser.py:53-63 | stripping a line-free text keeps it line-free |
| QueryParser.ParseRoleCountryHints | backend/app/services/query_parser.py:45-65 | when the combined pattern finds a match in the stripped question, both hints are its stripped groups; otherwise each hint is the stripped group of the role-only or country-only search, or `None` when that finds nothing; every hint is a stripped substring of one line of the question |
| QueryParser.HintsOfBestCombined | backend/app/services/query_parser.py:51-55 | if a combined match is preferred to every other, both hints are its stripped groups |
| QueryParser.HintsOfBestRole | backend/app/services/query_parser.py:57-59 | with no combined match anywhere, the role hint is the stripped group of the role match preferred to every other |
| QueryParser.HintsOfBestCountry | backend/app/services/query_parser.py:61-63 | with no combined match anywhere, the country hint is the stripped group of the country match preferred to every other |
| QueryParser.HintsOfNone | backend/app/services/query_parser.py:45-65 | a question none of the three patterns matches has no hints |
| QueryParser.CombinedRole | backend/app/services/query_parser.py:51-59 | the role group of a combined match is also a role-only match |
| QueryParser.CombinedCountry | backend/app/services/query_parser.py:51-63 | the country group of a combined match is also a country-only match |
| QueryParser.HintsSound | backend/app/services/query_parser.py:45-65 | each hint is the stripped group of a match of its own pattern in the stripped question |
| QueryParser.HintsOfCombined | backend/app/services/query_parser.py:51-55 | a "for ROLE in COUNTRY" phrase yields both hints |
| QueryParser.HintsOfRole | backend/app/services/query_parser.py:57-59 | a phrase the role pattern matches yields a role hint |
| QueryParser.HintsOfCountry | backend/app/services/query_parser.py:61-63 | a phrase the country pattern matches yields a country hint |
| QueryParser.ParseQuery | backend/app/services/query_parser.py:68-78 | the field-wise combination: the intent is `detect_intent`'s, the hints are `parse_role_country_hints`'s and the window is `parse_time_range`'s; hence the intent is `None` exactly when no keyword and no "skills" occurs, the hints are substrings of the question, and value and unit come together with the unit one of the four names |
| QueryParser.ParsedWindow | backend/app/services/query_parser.py:68-91 | a parsed non-zero window converts to the value times its unit's days |
| QueryParser.UnitNamed | backend/app/services/query_parser.py:34 | every captured name is the name of a unit |
| DatasetService.CleanColumns | backend/app/services/dataset_service.py:22-23 | one stripped header per header, in order |
| DatasetService.CleanColumnsIdempotent | backend/app/services/dataset_service.py:22-23 | cleaning headers twice changes nothing more |
| DatasetService.ColumnKeys | backend/app/services/dataset_service.py:27 | the lower-cased, stripped key of every column, in order |
| DatasetService.DetectColumn | backend/app/services/dataset_service.py:26-35 | the score is in [0, 1] and any result is a column; without an alias hit, the result is `best_match` of the space-joined aliases with threshold 0 |
| DatasetService.DetectByAlias | backend/app/services/dataset_service.py:29-32 | the first alias, in list order, that is a column's key selects the first such column with score 1.0 |
| DatasetService.DetectByContainment | backend/app/services/dataset_service.py:34-35 | without an alias hit, a non-blank column whose key lies inside the joined aliases guarantees a column at score 0.92 or more |
| DatasetService.FileKindOf | backend/app/services/dataset_service.py:92-97 | CSV exactly for a ".csv" name in any case; unsupported exactly when the name ends in none of ".csv", ".xlsx", ".xls" |
| DatasetService.DetectAll | backend/app/services/dataset_service.py:105-109 | all five detection scores lie in [0, 1] |
| DatasetService.Max | backend/app/services/dataset_service.py:123 | `max` of two scores is one of them and bounds both |
| DatasetService.MappingConfidence | backend/app/services/dataset_service.py:123 | the mean lies in [0, 1] when the scores do; it is 1 exactly when role, country and date score 1 and skills or description does, and 0 exactly when all do |
| DatasetService.NewDataset | backend/app/services/dataset_service.py:91-141 | each error is returned exactly when its check is the first to fail (file type, empty table, role, country, skill source); on success the dataset holds the role and country columns, each optional column exactly when accepted at its threshold (0.45 for skills, 0.35 for description and date), description extraction exactly when there is no skills column, and the mean confidence |
| DatasetService.RowSkills | backend/app/services/dataset_service.py:149-154 | a row's skills are the split skills cell when the skills column is used, else the lexicon terms of the normalised description; they have no duplicates |
| DatasetService.BuildRecord | backend/app/services/dataset_service.py:145-168 | the record belongs to the dataset; role and country are `normalize_text` of their mapped cells; the description is that of its cell with a description column and "" without; the date is the parse of the date cell with a date column and absent without; the stored skills text is the ", "-join of the row's skills and splits back into them |
| DatasetService.StoredSkillsRoundTrip | backend/app/services/dataset_service.py:163 | the ", "-joined skills of a row split back into exactly those skills |
| DatasetService.BuildRecords | backend/app/services/dataset_service.py:145-168 | one record per row, in order |
| DatasetService.IngestDataset | backend/app/services/dataset_service.py:91-184 | a rejected upload leaves the store unchanged, because every check runs before the deletes; an accepted one leaves exactly the new dataset, the records built from the cleaned headers, one per row, whose skills read back as the row's skills, and the run log untouched |
| DatasetService.FirstKey | backend/app/services/dataset_service.py:82-83 | the first key of a count table, or the default when it is empty |
| DatasetService.SuggestQuestions | backend/app/services/dataset_service.py:81-88 | exactly three questions, each mentioning the top role and country ("Data Analyst" and "USA" by default) |
| DatasetService.QuestionMentions | backend/app/services/dataset_service.py:84-88 | a question built around a role and a country contains both |
| AgentService.BuildPlan | backend/app/services/agent_service.py:14-31 | parse and match steps first and the persist step last; the skill-source step third; a date or fallback step exactly for the rising and trend intents, so 5 steps for those and 4 otherwise |
| AgentService.JobSkills | backend/app/services/agent_service.py:51 | a job's skills have no duplicates |
| AgentService.RowsOf | backend/app/services/agent_service.py:50-62 | one row per skill of a job, in order, carrying the job's role, country and date |
| AgentService.ParseSkillsColumn | backend/app/services/agent_service.py:48-63 | the exploded table: a row is in it exactly when it is a row of some job's skills |
| AgentService.SkillsOf | backend/app/services/agent_service.py:66-70 | the skill column of a table, row by row |
| AgentService.SkillRowCount | backend/app/services/agent_service.py:48-63 | a skill occurs in the exploded table once for every job that lists it |
| AgentService.OneCount | backend/app/services/agent_service.py:51 | a duplicate-free list holds a value once if at all |
| AgentService.NoSkillsNoRows | backend/app/services/agent_service.py:52-53 | jobs without skills add no rows |
| AgentService.TopSkills | backend/app/services/agent_service.py:66-70 | an empty table gives []; at most 15 distinct skills, counts non-increasing, each count the skill's exact occurrences; a skill left out means the list is full and no kept count is smaller than its count |
| AgentService.Dated | backend/app/services/agent_service.py:78-79 | exactly the rows with a date |
| AgentService.LatestDate | backend/app/services/agent_service.py:83 | the maximum date, attained by some row |
| AgentService.WindowOf | backend/app/services/agent_service.py:83-88 | current is exactly (end - delta, end] and previous exactly (end - 2 delta, end - delta], so no date is in both |
| AgentService.RisingItemOf | backend/app/services/agent_service.py:96-108 | growth is current minus previous; the percentage is absent exactly when previous is 0 and otherwise is growth / previous × 100 |
| AgentService.RisingItems | backend/app/services/agent_service.py:90-108 | every item has its skill's counts in the two windows; skills are distinct; every skill of either window has an item |
| AgentService.RankRising | backend/app/services/agent_service.py:110-111 | sorted by (growth, current count), largest first, at most 15, drawn from the items; an item left out means the list is full and ranks no higher than any kept one |
| AgentService.RisingDropped | backend/app/services/agent_service.py:94-111 | a skill of either window left out of the list ranks no higher than every kept skill, and the list is full |
| AgentService.RisingRanked | backend/app/services/agent_service.py:90-111 | the ranked list of two windows: sorted, distinct skills, at most 15, exact counts and growth, and complete up to the cut |
| AgentService.RisingSkills | backend/app/services/agent_service.py:73-111 | no dated row gives []; otherwise the ranked list of the windows counted back from the latest date |
| Counting.KeysStayDistinct | backend/app/services/agent_service.py:110 | reordering a list whose keys are distinct, as sorting does, keeps the keys distinct |
| AgentService.MonthsOfCount | backend/app/services/agent_service.py:124-128 | a skill has one month entry per dated row of it |
| AgentService.SeriesOf | backend/app/services/agent_service.py:128-136 | a skill's points are in ascending month order, all positive, sum to its dated occurrences, and count its rows in each month |
| AgentService.SkillTrends | backend/app/services/agent_service.py:114-138 | no dated row gives no series; at most 8 series with distinct skills, most frequent first (ties unspecified), each ascending, positive, summing to that skill's dated occurrences and counting each month; a dated skill without a series means 8 series, none with a smaller total |
| AgentService.TrendSeries | backend/app/services/agent_service.py:129-137 | one series per selected skill, in selection order |
| AgentService.TrendsComplete | backend/app/services/agent_service.py:125-137 | a skill without a series was not selected, and distinct selections give distinct series |
| AgentService.TrendFacts | backend/app/services/agent_service.py:125-137 | each selected series' total equals its exact positive count |
| AgentService.TrendsOrdered | backend/app/services/agent_service.py:125-129 | series built from the `value_counts` selection come in non-increasing order of their totals |
| AgentService.Confidence | backend/app/services/agent_service.py:141-151 | always in [0.1, 0.99], and equal to the unclamped score when that is already in range |
| AgentService.RawConfidenceRange | backend/app/services/agent_service.py:142-150 | the unclamped score lies in [0.3, 1.0]; it is 0.3 exactly without an intent, without positive scores and with four or more warnings, and 1.0 exactly with an intent, both scores at 1 and no warning |
| AgentService.ConfidenceWarnings | backend/app/services/agent_service.py:149-150 | more warnings never raise the score, and beyond four they no longer lower it |
| AgentService.ConfidenceMonotone | backend/app/services/agent_service.py:143-148 | an intent and higher match scores never lower the score |
| AgentService.ClarificationQuestions | backend/app/services/agent_service.py:191-197 | the intent question exactly without an intent, the role question exactly without a role match, the country question exactly without a country match and with more than one country; in the order intent, role, country |
| AgentService.FilterSkillRows | backend/app/services/agent_service.py:233-238 | corrected: widened exactly when no row has the matched role and country (always when no country matched); the rows are those of the role and, unless widened, of the country |
| AgentService.FilterSkillRowsAsWritten | backend/app/services/agent_service.py:233-234 | as written: fails exactly when the exploded table has no rows, and otherwise agrees with the corrected filter |
| AgentService.SkillLessDatasetFails | backend/app/services/agent_service.py:48-63 | a dataset whose one job has no skills makes the as-written filter fail, while the corrected one gives an empty, widened table |
| AgentService.WindowDays | backend/app/services/agent_service.py:250 | no window in the question means 180 days; a named unit converts at its rate; the window is positive for any parsed unit |
| AgentService.WindowLimit | backend/app/services/query_parser.py:84-91 | a `timedelta` holds 999,999,999 days: a window of that many days, or of 2,739,726 years, fits, and one more unit overflows |
| AgentService.WindowOfNames | backend/app/services/agent_service.py:250 | with `or` defaults, a parsed unit keeps its rate and a missing one counts months |
| AgentService.Analyze | backend/app/services/agent_service.py:240-272 | top skills for the top intent; rising or trends only with a date column; otherwise the top-skills fallback with exactly the date warning |
| AgentService.ErrorResponse | backend/app/services/agent_service.py:157-183 | an error carries no plan, no result, confidence 0 and its one warning |
| AgentService.LatestDataset | backend/app/services/dataset_service.py:187-188 | `None` exactly without datasets; otherwise a dataset with the largest id |
| AgentService.DatasetJobs | backend/app/services/agent_service.py:34-45 | exactly the stored jobs of the dataset |
| AgentService.Choices | backend/app/services/agent_service.py:185-186 | sorted, distinct, and exactly the non-blank values |
| AgentService.Roles | backend/app/services/agent_service.py:185 | exactly the roles of the jobs |
| AgentService.Countries | backend/app/services/agent_service.py:186 | exactly the countries of the jobs |
| AgentService.MatchFilters | backend/app/services/agent_service.py:185-189 | countries sorted and exactly the non-blank ones; scores in [0, 1]; a matched role is a non-blank role of some job, a matched country is among the countries; a blank hint matches nothing with score 0 |
| AgentService.RunOf | backend/app/services/agent_service.py:312-339 | the logged run records the dataset, query, status, plan, intent, confidence and warnings of the response; a clarification logs the matched role and country as its filters and the questions asked as its output; a completed run logs the hints, matches, scores and window as its filters and the result as its output; an error logs neither |
| AgentService.Clarify | backend/app/services/agent_service.py:201-230 | clarification status, no result, the open questions, the one clarification warning, confidence computed with one warning |
| AgentService.CompletedResponse | backend/app/services/agent_service.py:232-309 | completed with a result; the intent defaults to top skills; the warnings are the widening warning when the filter widened, then the date warning; the result is the analysis of the filtered rows, filtered by the corrected `FilterSkillRows`; confidence counts an intent and the warnings |
| AgentService.Complete | backend/app/services/agent_service.py:232-309 | raises `OverflowError` exactly for a rising query with a date column whose window exceeds 999,999,999 days (line 250); otherwise the completed response |
| AgentService.Answer | backend/app/services/agent_service.py:185-309 | clarification exactly when questions are open; otherwise the completed path with a matched role, which raises exactly for an overflowing rising window; a returned answer is never an error (with the corrected filter, see Findings), has confidence in [0.1, 0.99] and `_build_plan`'s plan |
| AgentService.Preflight | backend/app/services/agent_service.py:155-183 | no dataset gives the no-dataset error; a latest dataset without jobs gives the empty-dataset error; otherwise the latest dataset and its jobs |
| AgentService.RunAgentQuery | backend/app/services/agent_service.py:154-309 | the pre-flight errors are returned and leave the store as it is; a raised overflow returns nothing and logs nothing; every other query, skill-less datasets included through the corrected filter, appends exactly one run, the log of its response, and changes nothing else; the confidence of a returned non-error answer is in [0.1, 0.99] |
| ColumnMapper.KeepNormChars | backend/services/column_mapper.py:8 | only `[a-z0-9]` remains, and nothing is added |
| ColumnMapper.NormalizeCol | backend/services/column_mapper.py:5-9 | the result holds only `[a-z0-9]` and is no longer than the input |
| ColumnMapper.KeepNormAppend | backend/services/column_mapper.py:8 | the filter distributes over concatenation |
| ColumnMapper.KeepNormWithout | backend/services/column_mapper.py:7-8 | removing characters the final filter drops anyway changes nothing |
| ColumnMapper.LowerWithoutSpace | backend/services/column_mapper.py:6-7 | lower-casing commutes with removing whitespace |
| ColumnMapper.KeepNormIdentity | backend/services/column_mapper.py:8 | a normalised name passes the filter unchanged |
| ColumnMapper.NormalizeColIsLowerAlnum | backend/services/column_mapper.py:5-9 | reference definition: the normalised name is the letters and digits of the lower-cased name, in order |
| ColumnMapper.NormalizedFixed | backend/services/column_mapper.py:5-9 | a normalised name normalises to itself |
| ColumnMapper.NormalizeColIdempotent | backend/services/column_mapper.py:5-9 | `normalize_col(normalize_col(x)) == normalize_col(x)` |
| ColumnMapper.NormKeys | backend/services/column_mapper.py:23 | the normalised name of every column, in order |
| ColumnMapper.LastWithKey | backend/services/column_mapper.py:23 | the last position holding a key, `None` exactly when it is absent |
| ColumnMapper.NormMap | backend/services/column_mapper.py:23 | the keys are exactly the normalised names; a later column overwrites an earlier one with the same key |
| ColumnMapper.ExactTier | backend/services/column_mapper.py:26-29 | the column under the first candidate key, in candidate order, that the map holds; `None` exactly when it holds none |
| ColumnMapper.AnyCandidateIn | backend/services/column_mapper.py:37-39 | true exactly when some normalised candidate is a substring of the normalised column |
| ColumnMapper.PartialTier | backend/services/column_mapper.py:35-41 | the first column, in column order, that partly matches; `None` exactly when none does |
| ColumnMapper.FindBestColumn | backend/services/column_mapper.py:12-41 | any result is a column; an exact normalised match in candidate order wins (the last column with that name); without one, `None` when partial matching is off, else the partial tier |
| ColumnMapper.ExactTierFacts | backend/services/column_mapper.py:23-29 | the exact tier stated over columns and normalised names |
| ColumnMapper.DetectColumns | backend/services/column_mapper.py:44-55 | each of the ten keys maps to `find_best_column` of the headers over that key's own candidate list, with partial matching on; so every key maps to a column of the table or to nothing |
| ColumnMapper.CountryHeaderDetected | backend/services/column_mapper.py:48 | a header that normalises to "country" is chosen for the country key, the last one when there are several |
| SkillsParser.ParseSkillsCell | backend/services/skills_parser.py:17-44 | `None`, blank, "nan" or "none" in any case gives []; every token is non-empty and stripped; off the list-literal path every token is free of `, \| ;` |
| SkillsParser.DelimiterTokens | backend/services/skills_parser.py:43-44 | the delimiter split yields delimiter-free tokens |
| SkillsParser.ParseJoinRoundTrip | backend/services/skills_parser.py:17-44 | delimiter-free tokens joined with ", " parse back to themselves, unless the text reads as a list or a null marker |
| SkillsParser.JoinedParse | backend/services/skills_parser.py:29-44 | such a joined text takes the delimiter path |
| SkillsParser.TokensBack | backend/services/skills_parser.py:43-44 | splitting the joined tokens gives them back |
| SkillsParser.JoinedCell | backend/services/skills_parser.py:29-34 | the joined text is stripped, not bracketed and not a null marker |
| SkillsParser.JoinNotList | backend/services/skills_parser.py:34 | the joined text does not start with "[" |
| SkillsParser.JoinNotNull | backend/services/skills_parser.py:30 | a join of two or more tokens is not a null marker |
| SkillsParser.NotNullWithComma | backend/services/skills_parser.py:30 | a text holding a comma is not a null marker |
| SkillsParser.TitleFrom | backend/services/skills_parser.py:59 | title-casing from a given state: a character after a letter is lower-cased and any other is upper-cased; length and lower-cased form are kept |
| SkillsParser.Title | backend/services/skills_parser.py:59 | `str.title()`: a character that follows a letter is lower-cased, the first character and any character after a non-letter are upper-cased; length and lower-cased form are kept |
| SkillsParser.FoundSkills | backend/services/skills_parser.py:57-59 | exactly the title-cased entries that occur in the text |
| SkillsParser.ExtractSkillsFromText | backend/services/skills_parser.py:47-61 | empty text gives []; strictly sorted; exactly the title-cased dictionary entries found by substring search; each is found in the lower-cased text |
| SkillsParser.LowerContained | backend/services/skills_parser.py:54-58 | a substring lower-cases to a substring of the lower-cased text |
| SkillsParser.LetterCYieldsC | backend/services/skills_parser.py:57-59 | any text containing the letter c, in either case, yields "C" |
| SkillsParser.ExtractMonotone | backend/services/skills_parser.py:57-61 | a longer text finds every skill a text it contains finds |
| RoleCleaner.CleanRole | backend/services/role_cleaner.py:3-31 | a missing or rejected role (blank, "www." in any case, "*", over 60 characters, over 10 words) gives "Unknown"; otherwise the words of the role joined by single spaces, which keeps its non-space characters and its word count; never empty and at most 60 characters |
| RoleCleaner.CleanedRoleFacts | backend/services/role_cleaner.py:29-31 | squeezing an accepted role keeps it non-empty, short, its characters and its word count |
| RoleCleaner.CleanedRoleAccepted | backend/services/role_cleaner.py:12-31 | a cleaned role is accepted again and already stripped |
| RoleCleaner.SqueezedStripped | backend/services/role_cleaner.py:29-31 | a squeezed stripped text is stripped |
| RoleCleaner.SqueezedNotEmpty | backend/services/role_cleaner.py:29-31 | squeezing keeps a non-empty stripped text non-empty |
| RoleCleaner.SqueezedNoStar | backend/services/role_cleaner.py:16-17 | squeezing adds no "*" |
| RoleCleaner.SqueezeNoWebAddress | backend/services/role_cleaner.py:13-14 | squeezing adds no "www." |
| RoleCleaner.CleanRoleIdempotent | backend/services/role_cleaner.py:3-31 | `clean_role(clean_role(x)) == clean_role(x)` |
| RoleCleaner.UnknownIsClean | backend/services/role_cleaner.py:3-31 | "Unknown" cleans to itself |
| RoleCleaner.AcceptedRoleIsClean | backend/services/role_cleaner.py:3-31 | a cleaned accepted role cleans to itself |
| AnalyticsService.ParseSkills | backend/services/analytics_service.py:10-14 | empty text gives []; every part is non-empty, stripped and comma-free |
| AnalyticsService.ParseSkillsOfJoin | backend/services/analytics_service.py:10-14 | comma-free tokens joined with ", " parse back to themselves |
| AnalyticsService.ParseSkillsRoundTrip | backend/services/analytics_service.py:10-14 | parsing the ", "-join of a parse gives the same skills |
| AnalyticsService.Segment | backend/services/analytics_service.py:18-23 | exactly the postings of the role and country |
| AnalyticsService.DatedSegment | backend/services/analytics_service.py:40-46 | exactly the postings of the role and country that have a date |
| AnalyticsService.OccurrencesArePostings | backend/services/analytics_service.py:25-29 | with duplicate-free skill lists, a skill's count is the number of postings that list it |
| AnalyticsService.GetTopSkills | backend/services/analytics_service.py:17-32 | k ≤ 0 gives []; at most k distinct skills of the segment, counts non-increasing, each count exact and positive; a skill left out means k entries, none with a smaller count |
| AnalyticsService.MaxDate | backend/services/analytics_service.py:60 | the maximum date, attained by some posting |
| AnalyticsService.RisingWindows | backend/services/analytics_service.py:60-66 | "last" holds exactly the postings dated on or after max − 3 months; "previous" exactly those in [max − 6 months, max − 3 months); no posting is in both |
| AnalyticsService.RisingCandidates | backend/services/analytics_service.py:80-91 | each entry has its counts, growth last − prev > 0 and a candidate skill; skills are distinct; every skill with positive growth has its entry |
| AnalyticsService.RankRising | backend/services/analytics_service.py:93-94 | sorted by growth, largest first; distinct; drawn from the items; `[:k]` keeps at most k when k ≥ 0; an item left out means the list was cut and its growth is no larger than any kept growth |
| AnalyticsService.RisingRanked | backend/services/analytics_service.py:68-94 | sorted, distinct, cut to k, only positive growth with exact counts; a skill with positive growth left out means the list is full and no kept growth is smaller |
| AnalyticsService.RisingKey | backend/services/analytics_service.py:80 | a skill with positive growth is among the candidate keys |
| AnalyticsService.GetRisingSkills | backend/services/analytics_service.py:35-94 | no dated posting in the segment gives []; otherwise the rising list of the two windows |
| AnalyticsService.TallyKeysDistinct | backend/services/analytics_service.py:80 | the candidate keys are distinct |
| AnalyticsService.TallyKeys | backend/services/analytics_service.py:80 | every skill occurring is a candidate key |
| AnalyticsService.SkillKeys | backend/services/analytics_service.py:123 | every parsed skill stripped and lower-cased, in order |
| AnalyticsService.WithSkill | backend/services/analytics_service.py:122-126 | exactly the postings listing the skill, case-insensitively after stripping |
| AnalyticsService.MonthsOf | backend/services/analytics_service.py:131 | one month per posting |
| AnalyticsService.GetSkillTrend | backend/services/analytics_service.py:97-137 | months ascending with positive counts; [] exactly when no dated posting of the segment lists the skill; the counts sum to the postings that list it and count each month |
| AnalyticsService.NoRowsNoSkill | backend/services/analytics_service.py:126-129 | no posting is kept exactly when none lists the skill |
| UploadService.SafeStr | backend/services/upload_service.py:12-18 | `None` and "nan" or "none" in any case give the default; any other result is the stripped cell, so an empty cell stays "" |
| UploadService.SafeStrIdempotent | backend/services/upload_service.py:12-18 | with a clean default, applying `safe_str` to its own result changes nothing |
| UploadService.SafeParse | backend/services/upload_service.py:21-50 | `safe_float` and `safe_date`: nothing for a missing, blank, "nan" or "none" cell or for one the parser rejects, and otherwise the parse of the stripped cell |
| UploadService.SafeParsePadding | backend/services/upload_service.py:25-28 | whitespace around a cell never changes the number or date read from it |
| UploadService.SafeStrAgreesOnNull | backend/services/upload_service.py:12-41 | `safe_str` with an empty default gives "" exactly for the cells `safe_float` and `safe_date` treat as empty |
| UploadService.FieldText | backend/services/upload_service.py:69-82 | an unmapped column gives the default; a mapped one gives `safe_str` of its cell with that default |
| UploadService.StoredSkills | backend/services/upload_service.py:95 | the ", "-join of comma-free skills reads back through `_parse_skills` as their sorted distinct stripped form, strictly sorted |
| UploadService.SkillsList | backend/services/upload_service.py:90-93 | with a skills column, `parse_skills_cell` of its cell, delimiter-free tokens unless the cell is a list literal; without one, `extract_skills_from_text` of the description, exactly the dictionary skills found in it |
| UploadService.StoredSkillsRoundTrip | backend/services/upload_service.py:95 | comma-free skills joined with ", " read back through `_parse_skills` as the sorted distinct stripped skills |
| UploadService.CountryField | backend/services/upload_service.py:72-73 | "Unknown" for an unmapped column or a missing, blank, "nan" or "none" cell; otherwise the stripped cell; never empty |
| UploadService.RoleField | backend/services/upload_service.py:76-79 | "Unknown" for an unmapped column or a null cell; otherwise `clean_role` of the stripped cell; never empty, at most 60 characters |
| UploadService.ParsedField | backend/services/upload_service.py:84-87 | nothing for an unmapped column; otherwise `safe_date` or `safe_float` of the cell, so a value only from a mapped column holding one |
| UploadService.BuildPosting | backend/services/upload_service.py:69-109 | each field of the posting is its field function of the row: title, company, location and description as `safe_str` with default "", country and role as above, an empty category, the date and salaries parsed, and the stored skills of the row's skills list |
| UploadService.BuiltPostingWellFormed | backend/services/upload_service.py:69-109 | every posting has a country, a role of at most 60 characters and an empty category |
| UploadService.FoundCommaFree | backend/services/upload_service.py:93 | a skill found in a description holds no comma |
| UploadService.TitleCommaFree | backend/services/skills_parser.py:59 | title-casing adds no comma |
| UploadService.SkillsListCommaFree | backend/services/upload_service.py:90-93 | a row's skills hold no comma unless a list literal in the skills cell supplied them |
| UploadService.PostingSkillsReadBack | backend/services/upload_service.py:90-108 | unless the skills came from a list literal, the analytics read a posting's stored skills back as its distinct skills, sorted |
| UploadService.StripColumns | backend/services/upload_service.py:55 | one stripped header per header, in order |
| UploadService.BuildPostings | backend/services/upload_service.py:68-111 | one posting per row, in order |
| UploadService.PostingsWellFormed | backend/services/upload_service.py:68-111 | every posting built is well formed |
| UploadService.UploadWith | backend/services/upload_service.py:60-122 | every row is inserted and none skipped; the table is replaced by one well-formed posting per row; the message and mapping are reported |
| UploadService.ProcessUpload | backend/services/upload_service.py:53-122 | the detected columns are `detect_columns` of the stripped headers, so headers of the stripped table, and the upload runs against them |
| Strings.Lower | backend/app/utils/text_utils.py:44 | `str.lower()` maps each character, keeping the length |
| Strings.Strip | backend/app/utils/text_utils.py:17 | `str.strip()` leaves no whitespace at either end |
| Strings.StripIdempotent | backend/services/upload_service.py:15 | stripping twice changes nothing more |
| Strings.Squeeze | backend/app/utils/text_utils.py:17 | `re.sub(r"\s+", " ", s).strip()` leaves no doubled or outer whitespace and is no longer than its input |
| Strings.SqueezeIsJoinedWords | backend/app/utils/text_utils.py:17 | `re.sub(r"\s+", " ", s).strip()` equals `" ".join(s.split())`: the words of the text joined by single spaces |
| Strings.Words | backend/app/utils/text_utils.py:17 | reference definition of `s.split()`: the non-empty parts between whitespace, none holding whitespace |
| Strings.WordsAt | backend/app/utils/text_utils.py:17 | the words on both sides of a whitespace character are the words of the whole text |
| Strings.WordsOfStrip | backend/app/utils/text_utils.py:17 | stripping does not change the words |
| Strings.JoinWordsOfSqueezed | backend/app/utils/text_utils.py:17 | a text without outer or doubled whitespace is its own words joined by single spaces |
| Strings.SqueezeIdempotent | backend/app/utils/text_utils.py:17 | squeezing twice changes nothing more |
| Strings.SplitOn | backend/services/skills_parser.py:43 | splitting yields at least one part and no part holds a delimiter |
| Strings.StrippedTokens | backend/services/skills_parser.py:44 | the stripped, non-empty parts |
| Strings.SortedDistinct | backend/services/skills_parser.py:61 | `sorted(set(xs))` is strictly sorted with exactly the members of `xs` |
| Counting.Tally | backend/services/analytics_service.py:25-29 | a `Counter`: distinct keys, exactly the values present, each with its exact positive count |
| Counting.SortDesc | backend/app/services/agent_service.py:110 | a stable sort, largest rank first, that permutes its input |
| Counting.SliceTo | backend/services/analytics_service.py:94 | `xs[:k]` is a prefix of Python's length, negative `k` included |
| Counting.TopCounts | backend/services/analytics_service.py:31 | `most_common(k)`: [] for k ≤ 0; at most k distinct keys with exact positive counts, largest first; a value left out means k entries, none with a smaller count |
| Counting.MonthCounts | backend/app/services/agent_service.py:128-135 | a per-month group-by: months ascending, counts positive, totals equal to the number of dates, each month's count exact |

## Left out

- Unicode: case mapping, `str.title()`, `\w`/`\b` and the digits of `\d` and `int()` are modelled for ASCII only; Python also accepts other Unicode decimal digits there. Whitespace is the set Python's `str.isspace()` accepts. There is no Unicode normalisation.
- pandas decoding: reading CSV and Excel bytes, and `str()` of a cell. A cell arrives as `None` or as its text; a missing number reads as "nan".
- Duplicate header names: `row.get(col)` takes the first column of that name, where pandas would return a Series.
- Date parsing (`_parse_date`, `pd.to_datetime` in `safe_date` and the agent) is a parameter returning an optional day number. So are the calendar month of a date (`to_period("M")`) and month arithmetic (`pd.DateOffset`). Month labels are ordered as integers rather than as "YYYY-MM" strings; the two orders agree. Dates are truncated to the day: the source keeps the time of day, so two postings on the cutoff day of the rising windows can fall into different windows there and always fall into the same one here.
- Float parsing (`float()` in `safe_float`) is a parameter.
- Floating point: scores are reals. The final rounding of confidence (`round(…, 3)`) and of growth percentages (`round(…, 2)`) is left out; clamping is modelled.
- `ast.literal_eval` in `parse_skills_cell` is a parameter that yields the `str()` of each list element, or nothing.
- `difflib.SequenceMatcher.ratio` is a parameter with values in [0, 1].
- Iteration order of sets and of `SKILL_LEXICON`: where the source iterates a set, the model iterates in first-occurrence order. This applies to the candidates of both rising lists and to the lexicon search, whose result is sorted anyway. Ties among equal counts therefore keep first-occurrence order, which is `Counter.most_common`'s order and one valid order for pandas' `value_counts`.
- Database sessions, commits, chunked inserts, `uploaded_at` and run timestamps, the JSON encoding of run fields (the `parsed_filters` and `output_summary` columns are modelled as values, with unrounded scores), the `raw_json` column and the `parsed_filters` response block are left out. Deletes and inserts are modelled as replacing sequences.
- `_summary_from_df` is left out except for `_suggest_questions`, whose inputs are the keys of its count tables. The HTTP routes and application start-up are left out too.
- The `time_value`/`time_unit` pair of a clarification response is not part of `AgentService.Response`.
- SkillsList and PostingSkillsReadBack: a skills cell written as a list literal can yield skills that contain commas. Such skills do not survive `", ".join` followed by `_parse_skills`. The read-back property is stated only for the other paths, and that case is modelled as the source behaves.
- QueryParser.TimeDeltaDays: its own contract states the 180-day default only. The per-unit rates are stated by QueryParser.TimeDeltaOfUnit for the unit names the parser can produce; other unit strings are not characterised.
- AgentService.RisingSkills and AnalyticsService.GetRisingSkills are stated through AgentService.RisingRanked and AnalyticsService.RisingRanked, which carry the ordering, bound, exact-count and completeness properties.
- AgentService.WindowDays, AgentService.Complete, AgentService.Answer, AgentService.RunAgentQuery: the only limit modelled on the rising window is `timedelta`'s 999,999,999 days. pandas' `Timestamp` and `Timedelta` hold about 292 years around 1970, so in the source `end - window_delta` (backend/app/services/agent_service.py:84-85) can also raise for smaller windows. Where depends on the latest date, which is an abstract day number here, so the model answers those queries.
- QueryParser.ParseTimeRange, QueryParser.ParseQuery: Python's `int()` refuses a digit run of more than 4,300 digits and raises `ValueError` (backend/app/services/query_parser.py:36-40), for any query; the model reads a digit run of any length.
- AgentService.CompletedResponse, AgentService.Complete, AgentService.Answer, AgentService.RunAgentQuery: they compose the corrected `FilterSkillRows` (see Findings). For a dataset whose jobs yield no skill they answer with an empty, widened result and log the run, where the source raises `KeyError` at backend/app/services/agent_service.py:233-234 and logs nothing.

## Findings

| source | as written | input that shows it | evidently intended | confidence | as-written member | corrected member |
|---|---|---|---|---|---|---|
| backend/app/services/agent_service.py:233-234 | When no stored job yields a skill, `_parse_skills_column` builds a DataFrame from an empty list, which has no columns. `skill_df["role"]` then raises `KeyError`, and the request fails. | A dataset whose only job has an empty skills text, asked "top skills for Data Analyst in USA". | An empty filtered table: the role-level fallback with its warning and an empty result. | not executed | AgentService.FilterSkillRowsAsWritten (exhibited by AgentService.SkillLessDatasetFails) | AgentService.FilterSkillRows |
