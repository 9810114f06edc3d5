/**
 * What the sheet parser promises, proved about the functions Step, RunFrom and
 * Parse that ParseSheetData is proved to compute.
 *
 * The ranked lists and the summary fields are also characterised against
 * reference definitions written independently of Step: SectionAfter (the
 * section named by the last recognised "Section" row), Candidates (the data
 * rows that arrive while their section is current) and LastSummaryValue (the
 * value of the last "Summary" row with a given metric).
 */
module SheetParserProperties {
  import opened Coercion
  import opened SheetParser

  datatype Option<T> = None | Some(value: T)

  function Min(a: int, b: int): int {
    if a <= b then a else b
  }

  // ---------------------------------------------------------------------------
  // Composing runs
  // ---------------------------------------------------------------------------

  lemma RunFromSnoc(st: State, rows: seq<Row>, row: Row)
    ensures RunFrom(st, rows + [row]) == Step(RunFrom(st, rows), row)
  {
    assert (rows + [row])[..|rows|] == rows;
  }

  /** Parsing `a` and then `b` is parsing `a + b`. */
  lemma {:induction false} RunFromConcat(st: State, a: seq<Row>, b: seq<Row>)
    ensures RunFrom(st, a + b) == RunFrom(RunFrom(st, a), b)
    decreases |b|
  {
    if b == [] {
      assert a + b == a;
    } else {
      var b' := b[..|b| - 1];
      assert a + b == (a + b') + [b[|b| - 1]];
      RunFromSnoc(st, a + b', b[|b| - 1]);
      RunFromConcat(st, a, b');
    }
  }

  // ---------------------------------------------------------------------------
  // Whole runs
  // ---------------------------------------------------------------------------

  /**
   * Missing cells of a short data row read as "": a row with only its label
   * gives an empty name and count 0, and a job row without a fourth column an
   * empty pay range.
   */
  lemma ShortRowDefaults(row: Row)
    ensures |row| <= 1 ==> CityOf(row) == City("", 0) && CompanyOf(row) == Company("", 0)
    ensures |row| <= 1 ==> JobOf(row) == Job("", 0, "")
    ensures |row| == 2 ==> CityOf(row) == City(row[1], 0) && JobOf(row) == Job(row[1], 0, "")
    ensures |row| == 3 ==> JobOf(row) == Job(row[1], ToCount(row[2]), "")
    ensures |row| >= 4 ==> JobOf(row).payRange == row[3]
  {
    assert !IsDigitString("");
  }

  /**
   * A missing cell and an empty one read alike: padding a row with an empty
   * cell never changes how it parses.
   */
  lemma PaddingInvisible(st: State, row: Row)
    ensures Step(st, row + [""]) == Step(st, row)
  {
    var padded := row + [""];
    forall i: nat
      ensures Cell(padded, i) == Cell(row, i)
    {
      if i < |row| {
        assert padded[i] == row[i];
      }
    }
  }

  /** A blank row anywhere in the sheet can be dropped: it does not end a section. */
  lemma BlankRowsIgnored(st: State, a: seq<Row>, blank: Row, c: seq<Row>)
    requires IsBlank(blank)
    ensures RunFrom(st, a + [blank] + c) == RunFrom(st, a + c)
  {
    RunFromConcat(st, a + [blank], c);
    RunFromSnoc(st, a, blank);
    RunFromConcat(st, a, c);
  }

  /** Lists only grow, by appending: the lists before a run are prefixes of those after it. */
  lemma {:induction false} ListsOnlyGrow(st: State, rows: seq<Row>)
    ensures st.report.topCities <= RunFrom(st, rows).report.topCities
    ensures st.report.topJobs <= RunFrom(st, rows).report.topJobs
    ensures st.report.topCompanies <= RunFrom(st, rows).report.topCompanies
    decreases |rows|
  {
    if rows != [] {
      ListsOnlyGrow(st, rows[..|rows| - 1]);
    }
  }

  /** A list that already holds MaxEntries entries is left exactly as it is. */
  lemma {:induction false} FullListsFrozen(st: State, rows: seq<Row>)
    ensures |st.report.topCities| >= MaxEntries ==> RunFrom(st, rows).report.topCities == st.report.topCities
    ensures |st.report.topJobs| >= MaxEntries ==> RunFrom(st, rows).report.topJobs == st.report.topJobs
    ensures |st.report.topCompanies| >= MaxEntries ==> RunFrom(st, rows).report.topCompanies == st.report.topCompanies
    decreases |rows|
  {
    if rows != [] {
      FullListsFrozen(st, rows[..|rows| - 1]);
    }
  }

  // ---------------------------------------------------------------------------
  // Sections: the current section is the last one a marker row named
  // ---------------------------------------------------------------------------

  /** The section a "Section" row with this metric names, NoSection when it names none. */
  function SectionNamed(metric: string): Section {
    if metric == CityMetric then Cities
    else if metric == JobTitleMetric then Jobs
    else if metric == CompanyNameMetric then Companies
    else NoSection
  }

  /** The section whose list a data row with this column-0 label belongs to. */
  function ListSection(heading: string): Section {
    if heading == CitiesLabel then Cities
    else if heading == JobsLabel then Jobs
    else if heading == CompaniesLabel then Companies
    else NoSection
  }

  /** The section named by the last "Section" row of `rows` that names one, or NoSection. */
  function SectionAfter(rows: seq<Row>): Section
    decreases |rows|
  {
    if rows == [] then NoSection
    else
      var row := rows[|rows| - 1];
      if Cell(row, 0) == SectionLabel && SectionNamed(Cell(row, 1)) != NoSection then SectionNamed(Cell(row, 1))
      else SectionAfter(rows[..|rows| - 1])
  }

  /** The parser's current section after `rows` is the one the last marker row named. */
  lemma {:induction false} SectionFollowsMarkers(rows: seq<Row>)
    ensures RunFrom(Initial, rows).section == SectionAfter(rows)
    decreases |rows|
  {
    if rows != [] {
      var p, row := rows[..|rows| - 1], rows[|rows| - 1];
      SectionFollowsMarkers(p);
      if !IsBlank(row) && Cell(row, 0) == SectionLabel {
        SectionRowStep(RunFrom(Initial, p), row);
      } else if IsBlank(row) {
        assert Cell(row, 0) == "";
      }
    }
  }

  /**
   * The rows of `rows` that feed the list of section `s`, in source order: those
   * whose label belongs to `s` and that arrive while `s` is the current section.
   */
  function Candidates(rows: seq<Row>, s: Section): seq<Row>
    requires s != NoSection
    decreases |rows|
  {
    if rows == [] then []
    else
      var p, row := rows[..|rows| - 1], rows[|rows| - 1];
      Candidates(p, s) + (if SectionAfter(p) == s && ListSection(Cell(row, 0)) == s then [row] else [])
  }

  /** The cities list is the entries of the first MaxEntries city candidates, in source order. */
  lemma {:induction false} CitiesAreFirstCandidates(rows: seq<Row>)
    ensures |Parse(rows).topCities| == Min(|Candidates(rows, Cities)|, MaxEntries)
    ensures forall k | 0 <= k < |Parse(rows).topCities| ::
              Parse(rows).topCities[k] == CityOf(Candidates(rows, Cities)[k])
    decreases |rows|
  {
    if rows != [] {
      var p, row := rows[..|rows| - 1], rows[|rows| - 1];
      CitiesAreFirstCandidates(p);
      SectionFollowsMarkers(p);
      if IsBlank(row) {
        assert Cell(row, 0) == "";
      }
    }
  }

  /** The jobs list is the entries of the first MaxEntries job candidates, in source order. */
  lemma {:induction false} JobsAreFirstCandidates(rows: seq<Row>)
    ensures |Parse(rows).topJobs| == Min(|Candidates(rows, Jobs)|, MaxEntries)
    ensures forall k | 0 <= k < |Parse(rows).topJobs| ::
              Parse(rows).topJobs[k] == JobOf(Candidates(rows, Jobs)[k])
    decreases |rows|
  {
    if rows != [] {
      var p, row := rows[..|rows| - 1], rows[|rows| - 1];
      JobsAreFirstCandidates(p);
      SectionFollowsMarkers(p);
      if IsBlank(row) {
        assert Cell(row, 0) == "";
      }
    }
  }

  /** The companies list is the entries of the first MaxEntries company candidates, in source order. */
  lemma {:induction false} CompaniesAreFirstCandidates(rows: seq<Row>)
    ensures |Parse(rows).topCompanies| == Min(|Candidates(rows, Companies)|, MaxEntries)
    ensures forall k | 0 <= k < |Parse(rows).topCompanies| ::
              Parse(rows).topCompanies[k] == CompanyOf(Candidates(rows, Companies)[k])
    decreases |rows|
  {
    if rows != [] {
      var p, row := rows[..|rows| - 1], rows[|rows| - 1];
      CompaniesAreFirstCandidates(p);
      SectionFollowsMarkers(p);
      if IsBlank(row) {
        assert Cell(row, 0) == "";
      }
    }
  }

  // ---------------------------------------------------------------------------
  // Summary fields: the last matching "Summary" row wins
  // ---------------------------------------------------------------------------

  /** The column-2 value of the last "Summary" row of `rows` with this metric, if any. */
  function LastSummaryValue(rows: seq<Row>, metric: string): Option<string>
    decreases |rows|
  {
    if rows == [] then None
    else
      var row := rows[|rows| - 1];
      if Cell(row, 0) == SummaryLabel && Cell(row, 1) == metric then Some(Cell(row, 2))
      else LastSummaryValue(rows[..|rows| - 1], metric)
  }

  function CountOf(v: Option<string>): nat {
    match v
    case None => 0
    case Some(s) => ToCount(s)
  }

  /** Each summary field comes from the last "Summary" row naming it, and defaults to 0 or "". */
  lemma {:induction false} SummaryLastWins(rows: seq<Row>)
    ensures Parse(rows).totalJobs == CountOf(LastSummaryValue(rows, TotalJobsMetric))
    ensures Parse(rows).californiaJobs == CountOf(LastSummaryValue(rows, CaliforniaJobsMetric))
    ensures Parse(rows).lastUpdated == match LastSummaryValue(rows, LastUpdatedMetric)
                                       case None => ""
                                       case Some(v) => v
    decreases |rows|
  {
    if rows != [] {
      var p, row := rows[..|rows| - 1], rows[|rows| - 1];
      SummaryLastWins(p);
      if IsBlank(row) {
        assert Cell(row, 0) == "";
      } else if Cell(row, 0) == SummaryLabel {
        SummaryRowStep(RunFrom(Initial, p), row);
      }
    }
  }

  // ---------------------------------------------------------------------------
  // A worked example: twelve identical job rows under the cap of ten
  // ---------------------------------------------------------------------------

  /** `n` copies of `row`. */
  function Repeat(row: Row, n: nat): seq<Row> {
    if n == 0 then [] else Repeat(row, n - 1) + [row]
  }

  /** After a jobs marker, every one of `n` "Top Jobs" rows is a job candidate. */
  lemma {:induction false} RepeatedJobRows(marker: Row, row: Row, n: nat)
    requires Cell(marker, 0) == SectionLabel && Cell(marker, 1) == JobTitleMetric
    requires Cell(row, 0) == JobsLabel
    ensures SectionAfter([marker] + Repeat(row, n)) == Jobs
    ensures Candidates([marker] + Repeat(row, n), Jobs) == Repeat(row, n)
  {
    var rows := [marker] + Repeat(row, n);
    if n == 0 {
      assert rows == [marker];
      assert rows[..0] == [];
    } else {
      RepeatedJobRows(marker, row, n - 1);
      assert rows[..|rows| - 1] == [marker] + Repeat(row, n - 1);
      assert rows[|rows| - 1] == row;
    }
  }

  /**
   * A jobs section followed by `n` >= 10 rows `Top Jobs, Port Engineer, 12,
   * $80k-$100k` (twelve of them, say) yields exactly ten entries, each with that
   * title, count and pay range.
   */
  lemma RepeatedJobRowsKeepTen(n: nat)
    requires n >= MaxEntries
    ensures var rows := [["Section", "Job Title"]] + Repeat(["Top Jobs", "Port Engineer", "12", "$80k-$100k"], n);
            |Parse(rows).topJobs| == 10 &&
            forall k | 0 <= k < 10 :: Parse(rows).topJobs[k] == Job("Port Engineer", 12, "$80k-$100k")
  {
    var marker: Row := ["Section", "Job Title"];
    var row: Row := ["Top Jobs", "Port Engineer", "12", "$80k-$100k"];
    var rows := [marker] + Repeat(row, n);
    RepeatedJobRows(marker, row, n);
    JobsAreFirstCandidates(rows);
    RepeatLength(row, n);
    assert "12"[..1] == "1";
    assert IsDigitString("12") && DecimalValue("12") == 12;
    assert Cell(row, 1) == "Port Engineer" && Cell(row, 2) == "12" && Cell(row, 3) == "$80k-$100k";
    assert JobOf(row) == Job("Port Engineer", 12, "$80k-$100k");
    forall k | 0 <= k < 10
      ensures Parse(rows).topJobs[k] == Job("Port Engineer", 12, "$80k-$100k")
    {
      RepeatAt(row, n, k);
    }
  }

  lemma {:induction false} RepeatAt(row: Row, n: nat, k: nat)
    requires k < n
    ensures |Repeat(row, n)| == n && Repeat(row, n)[k] == row
  {
    if k < n - 1 {
      RepeatAt(row, n - 1, k);
    } else {
      RepeatLength(row, n - 1);
    }
  }

  lemma {:induction false} RepeatLength(row: Row, n: nat)
    ensures |Repeat(row, n)| == n
  {
    if n > 0 {
      RepeatLength(row, n - 1);
    }
  }
}
