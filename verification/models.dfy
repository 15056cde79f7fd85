/**
 * The records both pipelines store, as immutable values, and the decoded upload they start
 * from. The database is a value too: one sequence per table, in insertion order.
 */
module Models {
  import opened Base

  /**
   * One cell of an uploaded table as the row hands it over: `None` for a missing value and
   * otherwise the text `str()` gives for it (a missing number reads as "nan").
   */
  type Cell = Option<string>

  /** A decoded upload: the header and the rows, each holding one cell per column. */
  datatype Table = Table(columns: seq<string>, rows: seq<seq<Cell>>)

  /** `row.get(col)`: the cell under the first column of that name. */
  function CellOf(columns: seq<string>, row: seq<Cell>, col: string): Cell {
    if |columns| == 0 || |row| == 0 then None
    else if columns[0] == col then row[0]
    else CellOf(columns[1..], row[1..], col)
  }

  /** A row of the `datasets` table (`uploaded_at` is left to the database). */
  datatype Dataset = Dataset(
    id: int,
    filename: string,
    totalJobs: nat,
    roleColumn: Option<string>,
    countryColumn: Option<string>,
    skillsColumn: Option<string>,
    descriptionColumn: Option<string>,
    dateColumn: Option<string>,
    hasSkillsColumn: bool,
    usedDescriptionExtraction: bool,
    hasDateColumn: bool,
    mappingConfidence: real)

  /** A row of the `job_records` table; dates are day numbers. */
  datatype JobRecord = JobRecord(
    datasetId: int,
    role: string,
    country: string,
    skillsText: string,
    description: string,
    postedDate: Option<int>)

  /**
   * The database of the application pipeline. The rows of the `agent_runs` table hold the
   * agent's results, so their type is the agent's `AgentService.AgentRun`.
   */
  datatype Store<Run> = Store(datasets: seq<Dataset>, jobs: seq<JobRecord>, runs: seq<Run>)

  /** A row of the older pipeline's `job_postings` table; salaries are parsed numbers. */
  datatype JobPosting = JobPosting(
    jobTitle: string,
    company: string,
    location: string,
    country: string,
    datasetRole: string,
    roleCategory: string,
    description: string,
    postedDate: Option<int>,
    salaryMin: Option<real>,
    salaryMax: Option<real>,
    extractedSkills: string)
}
