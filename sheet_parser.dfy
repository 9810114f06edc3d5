/**
 * The report a spreadsheet export is parsed into, and the parser itself.
 *
 * Rows are read top to bottom by a small state machine. Column 0 holds a
 * label: "Summary" rows set one of three summary fields, chosen by the metric
 * in column 1; "Section" rows select which ranked list is being read; and
 * "CA Cities", "Top Jobs" and "Top Companies" rows add an entry to their list
 * while that list's section is the current one and the list has fewer than
 * MaxEntries entries. Every other row, and every blank row, is skipped.
 *
 * Step and RunFrom state the parse one row at a time as functions; the method
 * ParseSheetData is the loop itself, proved to compute Parse.
 */
module SheetParser {
  import opened Coercion

  /** The most entries any ranked list keeps. */
  const MaxEntries: nat := 10

  // Column-0 labels.
  const SummaryLabel := "Summary"
  const SectionLabel := "Section"
  const CitiesLabel := "CA Cities"
  const JobsLabel := "Top Jobs"
  const CompaniesLabel := "Top Companies"

  // Column-1 metrics of "Summary" rows.
  const TotalJobsMetric := "Total Active Job Openings"
  const CaliforniaJobsMetric := "Job Openings in California"
  const LastUpdatedMetric := "Last Updated"

  // Column-1 metrics of "Section" rows.
  const CityMetric := "City"
  const JobTitleMetric := "Job Title"
  const CompanyNameMetric := "Company Name"

  /** Which ranked list data rows currently feed; NoSection before any section row. */
  datatype Section = NoSection | Cities | Jobs | Companies

  datatype City = City(name: string, count: nat)
  datatype Job = Job(title: string, count: nat, payRange: string)
  datatype Company = Company(name: string, count: nat)

  datatype Report = Report(
    totalJobs: nat,
    californiaJobs: nat,
    lastUpdated: string,
    topCities: seq<City>,
    topJobs: seq<Job>,
    topCompanies: seq<Company>)

  /** The record a sheet without any recognised row parses to. */
  const DefaultReport := Report(0, 0, "", [], [], [])

  /** The parser's state between two rows: the report so far and the current section. */
  datatype State = State(report: Report, section: Section)

  const Initial := State(DefaultReport, NoSection)

  /** The entry a data row contributes to each list: name or title, count, pay range. */
  function CityOf(row: Row): City {
    City(Cell(row, 1), ToCount(Cell(row, 2)))
  }

  function JobOf(row: Row): Job {
    Job(Cell(row, 1), ToCount(Cell(row, 2)), Cell(row, 3))
  }

  function CompanyOf(row: Row): Company {
    Company(Cell(row, 1), ToCount(Cell(row, 2)))
  }

  /** A "Summary" row with this metric and value applied to the report. */
  function Summarize(r: Report, metric: string, value: string): Report {
    if metric == TotalJobsMetric then r.(totalJobs := ToCount(value))
    else if metric == CaliforniaJobsMetric then r.(californiaJobs := ToCount(value))
    else if metric == LastUpdatedMetric then r.(lastUpdated := value)
    else r
  }

  /** The section after a "Section" row with this metric. */
  function SwitchSection(current: Section, metric: string): Section {
    if metric == CityMetric then Cities
    else if metric == JobTitleMetric then Jobs
    else if metric == CompanyNameMetric then Companies
    else current
  }

  /**
   * How one list may change across a row or a run: only by appending, at most
   * `bound` entries, and not at all once it holds MaxEntries entries.
   */
  predicate AppendOnly<T(==)>(before: seq<T>, after: seq<T>, bound: nat) {
    before <= after && |after| <= |before| + bound
    && (|before| >= MaxEntries ==> after == before)
    && (|before| <= MaxEntries ==> |after| <= MaxEntries)
  }

  /**
   * The effect of one row on the parser's state: a blank row changes nothing;
   * only a "Section" row moves the section and only a "Summary" row touches the
   * summary fields; each list gains at most one entry, at its end, and only
   * while it is below MaxEntries.
   */
  function Step(st: State, row: Row): (r: State)
    ensures IsBlank(row) ==> r == st
    ensures Cell(row, 0) != SectionLabel ==> r.section == st.section
    ensures Cell(row, 0) != SummaryLabel ==>
              r.report.totalJobs == st.report.totalJobs
              && r.report.californiaJobs == st.report.californiaJobs
              && r.report.lastUpdated == st.report.lastUpdated
    ensures AppendOnly(st.report.topCities, r.report.topCities, 1)
    ensures AppendOnly(st.report.topJobs, r.report.topJobs, 1)
    ensures AppendOnly(st.report.topCompanies, r.report.topCompanies, 1)
  {
    if IsBlank(row) then st
    else
      var heading := Cell(row, 0);
      var metric := Cell(row, 1);
      var value := Cell(row, 2);
      var r := st.report;
      if heading == SummaryLabel then
        st.(report := Summarize(r, metric, value))
      else if heading == SectionLabel then
        st.(section := SwitchSection(st.section, metric))
      else if st.section == Cities && heading == CitiesLabel then
        if |r.topCities| < MaxEntries then st.(report := r.(topCities := r.topCities + [CityOf(row)])) else st
      else if st.section == Jobs && heading == JobsLabel then
        if |r.topJobs| < MaxEntries then st.(report := r.(topJobs := r.topJobs + [JobOf(row)])) else st
      else if st.section == Companies && heading == CompaniesLabel then
        if |r.topCompanies| < MaxEntries then st.(report := r.(topCompanies := r.topCompanies + [CompanyOf(row)])) else st
      else
        st
  }

  /** The state after feeding `rows`, in order, to a parser in state `st`. */
  function RunFrom(st: State, rows: seq<Row>): State
    decreases |rows|
  {
    if rows == [] then st else Step(RunFrom(st, rows[..|rows| - 1]), rows[|rows| - 1])
  }

  /**
   * The report a whole sheet parses to: the default record for no rows, and
   * never more than MaxEntries entries in a list.
   */
  function Parse(rows: seq<Row>): (r: Report)
    ensures rows == [] ==> r == DefaultReport
    ensures WithinCaps(r)
  {
    RunWithinCaps(Initial, rows);
    RunFrom(Initial, rows).report
  }

  /** Starting within the caps, a parse stays within them. */
  lemma {:induction false} RunWithinCaps(st: State, rows: seq<Row>)
    requires WithinCaps(st.report)
    ensures WithinCaps(RunFrom(st, rows).report)
    decreases |rows|
  {
    if rows != [] {
      RunWithinCaps(st, rows[..|rows| - 1]);
    }
  }

  /** Parsing one more row of a sheet is one more Step. */
  lemma RunFromPrefix(st: State, rows: seq<Row>, i: nat)
    requires i < |rows|
    ensures RunFrom(st, rows[..i + 1]) == Step(RunFrom(st, rows[..i]), rows[i])
  {
    assert rows[..i + 1][..i] == rows[..i];
  }

  // One row at a time: what Step does with each kind of row.

  /** A blank row changes neither the report nor the current section. */
  lemma BlankRowIsNoOp(st: State, row: Row)
    requires IsBlank(row)
    ensures Step(st, row) == st
  {
  }

  /**
   * A "Summary" row sets only the field its metric names, to the coerced value
   * (or, for the last-updated label, the raw cell); it leaves the section and
   * the lists alone, and an unknown metric changes nothing.
   */
  lemma SummaryRowStep(st: State, row: Row)
    requires Cell(row, 0) == SummaryLabel
    ensures Step(st, row).section == st.section
    ensures Cell(row, 1) == TotalJobsMetric ==>
              Step(st, row).report == st.report.(totalJobs := ToCount(Cell(row, 2)))
    ensures Cell(row, 1) == CaliforniaJobsMetric ==>
              Step(st, row).report == st.report.(californiaJobs := ToCount(Cell(row, 2)))
    ensures Cell(row, 1) == LastUpdatedMetric ==>
              Step(st, row).report == st.report.(lastUpdated := Cell(row, 2))
    ensures (Cell(row, 1) != TotalJobsMetric && Cell(row, 1) != CaliforniaJobsMetric
             && Cell(row, 1) != LastUpdatedMetric) ==> Step(st, row) == st
  {
    assert !IsBlank(row) by { assert row[0] != ""; }
  }

  /**
   * A "Section" row never touches the report; it selects the section its
   * metric names, and any other metric keeps the current one.
   */
  lemma SectionRowStep(st: State, row: Row)
    requires Cell(row, 0) == SectionLabel
    ensures Step(st, row).report == st.report
    ensures Cell(row, 1) == CityMetric ==> Step(st, row).section == Cities
    ensures Cell(row, 1) == JobTitleMetric ==> Step(st, row).section == Jobs
    ensures Cell(row, 1) == CompanyNameMetric ==> Step(st, row).section == Companies
    ensures (Cell(row, 1) != CityMetric && Cell(row, 1) != JobTitleMetric
             && Cell(row, 1) != CompanyNameMetric) ==> Step(st, row) == st
  {
    assert !IsBlank(row) by { assert row[0] != ""; }
  }

  /**
   * A "CA Cities" row appends its entry to the cities list exactly when the
   * cities section is current and the list is not full; nothing else changes.
   */
  lemma CityRowStep(st: State, row: Row)
    requires Cell(row, 0) == CitiesLabel
    ensures Step(st, row).section == st.section
    ensures st.section == Cities && |st.report.topCities| < MaxEntries ==>
              Step(st, row).report == st.report.(topCities := st.report.topCities + [City(Cell(row, 1), ToCount(Cell(row, 2)))])
    ensures st.section != Cities || |st.report.topCities| >= MaxEntries ==> Step(st, row) == st
  {
    assert !IsBlank(row) by { assert row[0] != ""; }
  }

  /**
   * A "Top Jobs" row appends its entry, pay range from column 3 or "", exactly
   * when the jobs section is current and the list is not full.
   */
  lemma JobRowStep(st: State, row: Row)
    requires Cell(row, 0) == JobsLabel
    ensures Step(st, row).section == st.section
    ensures st.section == Jobs && |st.report.topJobs| < MaxEntries ==>
              Step(st, row).report == st.report.(topJobs := st.report.topJobs + [Job(Cell(row, 1), ToCount(Cell(row, 2)), Cell(row, 3))])
    ensures st.section != Jobs || |st.report.topJobs| >= MaxEntries ==> Step(st, row) == st
  {
    assert !IsBlank(row) by { assert row[0] != ""; }
  }

  /**
   * A "Top Companies" row appends its entry exactly when the companies section
   * is current and the list is not full.
   */
  lemma CompanyRowStep(st: State, row: Row)
    requires Cell(row, 0) == CompaniesLabel
    ensures Step(st, row).section == st.section
    ensures st.section == Companies && |st.report.topCompanies| < MaxEntries ==>
              Step(st, row).report == st.report.(topCompanies := st.report.topCompanies + [Company(Cell(row, 1), ToCount(Cell(row, 2)))])
    ensures st.section != Companies || |st.report.topCompanies| >= MaxEntries ==> Step(st, row) == st
  {
    assert !IsBlank(row) by { assert row[0] != ""; }
  }

  /** A row whose column-0 label is none of the five known labels is ignored. */
  lemma OtherRowStep(st: State, row: Row)
    requires Cell(row, 0) != SummaryLabel && Cell(row, 0) != SectionLabel
    requires Cell(row, 0) != CitiesLabel && Cell(row, 0) != JobsLabel && Cell(row, 0) != CompaniesLabel
    ensures Step(st, row) == st
  {
  }

  /** Each ranked list holds at most MaxEntries entries. */
  predicate WithinCaps(r: Report) {
    |r.topCities| <= MaxEntries && |r.topJobs| <= MaxEntries && |r.topCompanies| <= MaxEntries
  }

  /**
   * The parse loop: summary fields assigned in place, three lists appended to,
   * and the current section updated row by row.
   */
  method ParseSheetData(rows: seq<Row>) returns (data: Report)
    ensures data == Parse(rows)
    ensures rows == [] ==> data == DefaultReport
    ensures WithinCaps(data)
  {
    var totalJobs, californiaJobs, lastUpdated := 0, 0, "";
    var topCities: seq<City> := [];
    var topJobs: seq<Job> := [];
    var topCompanies: seq<Company> := [];
    var current := NoSection;

    for i := 0 to |rows|
      invariant RunFrom(Initial, rows[..i])
        == State(Report(totalJobs, californiaJobs, lastUpdated, topCities, topJobs, topCompanies), current)
    {
      var row := rows[i];
      ghost var before := State(Report(totalJobs, californiaJobs, lastUpdated, topCities, topJobs, topCompanies), current);
      RunFromPrefix(Initial, rows, i);
      if IsBlank(row) {
        continue;
      }

      var section := if |row| > 0 then row[0] else "";
      var metric := if |row| > 1 then row[1] else "";
      var value := if |row| > 2 then row[2] else "";
      assert section == Cell(row, 0) && metric == Cell(row, 1) && value == Cell(row, 2);

      if section == SummaryLabel {
        SummaryRowStep(before, row);
        if metric == TotalJobsMetric {
          totalJobs := ToCount(value);
        } else if metric == CaliforniaJobsMetric {
          californiaJobs := ToCount(value);
        } else if metric == LastUpdatedMetric {
          lastUpdated := value;
        }
      } else if section == SectionLabel {
        SectionRowStep(before, row);
        if metric == CityMetric {
          current := Cities;
        } else if metric == JobTitleMetric {
          current := Jobs;
        } else if metric == CompanyNameMetric {
          current := Companies;
        }
      } else if current == Cities && section == CitiesLabel {
        CityRowStep(before, row);
        if |topCities| < MaxEntries {
          topCities := topCities + [City(metric, ToCount(value))];
        }
      } else if current == Jobs && section == JobsLabel {
        JobRowStep(before, row);
        if |topJobs| < MaxEntries {
          var payRange := if |row| > 3 then row[3] else "";
          topJobs := topJobs + [Job(metric, ToCount(value), payRange)];
        }
      } else if current == Companies && section == CompaniesLabel {
        CompanyRowStep(before, row);
        if |topCompanies| < MaxEntries {
          topCompanies := topCompanies + [Company(metric, ToCount(value))];
        }
      }
    }

    assert rows[..|rows|] == rows;
    data := Report(totalJobs, californiaJobs, lastUpdated, topCities, topJobs, topCompanies);
  }
}
