# Maritime job widget: spreadsheet report parser

The widget displays a maritime job report that is kept in a spreadsheet. A
Python script exports the sheet as a list of rows of string cells. It then
turns those rows into the record the widget shows. That record has three
summary fields (`totalJobs`, `californiaJobs`, `lastUpdated`) and three ranked
lists (`topCities`, `topJobs`, `topCompanies`).

This project models `parse_sheet_data` in Dafny and proves what it promises.
The parser reads the rows in order as a small state machine:

- a row whose column 0 is `Summary` sets the summary field named in column 1
  (later rows overwrite earlier ones);
- a row whose column 0 is `Section` switches the current section to cities,
  jobs or companies when column 1 is `City`, `Job Title` or `Company Name`;
- rows labelled `CA Cities`, `Top Jobs` or `Top Companies` add an entry to
  their list, but only while that list's section is current and only until
  the list holds 10 entries;
- blank rows and all other rows are skipped.

When a row is shorter than a column being read, that cell reads as `""`. A
count is the decimal value of its cell when the cell is a non-empty string of
digits, and 0 otherwise.

Files:

- `coercion.dfy`, module `Coercion`: rows and cells, the blank-row test, and
  the digit test and integer conversion. This module also holds
  `DecimalString`, the inverse of the conversion, and the round-trip proof.
- `sheet_parser.dfy`, module `SheetParser`: the report datatypes, and the
  parse written as functions that take one row at a time (`Step`, `RunFrom`,
  `Parse`). It also holds the method `ParseSheetData`, which is the loop
  itself, with local accumulators and a mutable current section. That method
  is proved to compute `Parse`.
- `sheet_parser_properties.dfy`, module `SheetParserProperties`: lemmas about
  `Step`, `RunFrom` and `Parse`. The lists and summary fields are compared
  against reference definitions that do not use `Step`: `SectionAfter`,
  `Candidates` and `LastSummaryValue`.

Some consequences of the code, which the model keeps:

- a blank row does not end a section;
- list entries with a zero count or a header-like label are kept;
- thousands separators and quotes are not stripped, so `"1,234"` counts 0;
- the cap is a fixed 10, not a setting;
- rows are addressed only by the markers in columns 0 and 1, never by their
  position in the sheet.

## Model

| member | source | states |
|---|---|---|
| `SheetParserProperties.PaddingInvisible` | fetch_sheet_data.py:57-59 | A missing cell reads like an empty one: a row padded with an extra `""` cell parses exactly as the unpadded row, from any state. |
| `SheetParserProperties.ShortRowDefaults` | fetch_sheet_data.py:57-59 | A data row with only its label gives an empty name and count 0. A two- or three-cell job row gets pay range `""`. With a fourth column, the pay range is that cell. |
| `Coercion.IsBlank` | fetch_sheet_data.py:54 | A row is skipped exactly when every column, present or missing, reads as `""`. Both directions hold, so an empty row and an all-empty row are both skipped. |
| `Coercion.ToCount` | fetch_sheet_data.py:64 | The count is 0 exactly when the cell is not a non-empty all-digit string, or spells zero (`"0"`, `"000"`). Specified further by `CountOfDecimalString`, `DecimalStringOfCount`, `LeadingZeroIgnored` and `CoercionExamples`. |
| `Coercion.DecimalStringOfCount` | fetch_sheet_data.py:64 | Converse round trip: a cell in canonical spelling (digits only, no leading zero unless it is `"0"`) is exactly the decimal spelling of its count. With `CountOfDecimalString`, the conversion is a bijection between counts and canonical cells. |
| `Coercion.CountOfDecimalString` | fetch_sheet_data.py:64 | Round trip: every count n, written as its decimal string, is read back as n. |
| `Coercion.LeadingZeroIgnored` | fetch_sheet_data.py:64 | Leading zeros do not change the value; `int("007")` is 7. |
| `Coercion.CoercionExamples` | fetch_sheet_data.py:64 | `""`, `"1,234"`, `"-3"` and `" 12"` count 0; `"1234"` counts 1234; `"007"` counts 7. |
| `SheetParser.Step` | fetch_sheet_data.py:53-107 | One pass of the loop body. A blank row changes nothing. Only a `Section` row moves the current section, and only a `Summary` row touches the summary fields. Each list gains at most one entry, at its end; once it holds 10 entries it does not change, and it never grows past 10. Each kind of row is specified exactly by `SummaryRowStep`, `SectionRowStep`, `CityRowStep`, `JobRowStep`, `CompanyRowStep`, `OtherRowStep` and `BlankRowIsNoOp`. |
| `SheetParser.Parse` | fetch_sheet_data.py:41-107 | The record for a whole sheet: the default record when there are no rows, and never more than 10 entries in a list. Its contents are given by `SummaryLastWins` and the three `...AreFirstCandidates` lemmas. |
| `SheetParser.ParseSheetData` | fetch_sheet_data.py:37-111 | The loop's result equals `Parse(rows)`, the fold of `Step` over the rows. No rows give the default record. Every list has at most 10 entries. |
| `SheetParserProperties.RunFromConcat` | fetch_sheet_data.py:52 | Parsing `a` and then continuing with `b` gives the same state as parsing `a + b`. |
| `SheetParser.BlankRowIsNoOp` | fetch_sheet_data.py:54-55 | An empty or all-empty row changes neither the record nor the current section. |
| `SheetParserProperties.BlankRowsIgnored` | fetch_sheet_data.py:52-55 | Dropping a blank row from anywhere in the sheet leaves the final record and section unchanged, so blank rows do not end a section. |
| `SheetParser.SummaryRowStep` | fetch_sheet_data.py:62-71 | A `Summary` row sets only the field its metric names: `totalJobs` and `californiaJobs` get the coerced count, `lastUpdated` gets the raw column-2 string. The section and the lists are unchanged, and an unknown metric changes nothing. |
| `SheetParser.SectionRowStep` | fetch_sheet_data.py:74-83 | A `Section` row never changes the record. `City`, `Job Title` and `Company Name` select cities, jobs and companies. Any other metric leaves the state unchanged. |
| `SheetParser.CityRowStep` | fetch_sheet_data.py:86-91 | A `CA Cities` row appends `(name, count)` to the cities list exactly when the cities section is current and the list has fewer than 10 entries. Otherwise the state is unchanged. |
| `SheetParser.JobRowStep` | fetch_sheet_data.py:93-100 | A `Top Jobs` row appends `(title, count, payRange)` exactly when the jobs section is current and the list has fewer than 10 entries. `payRange` is column 3, or `""` when the row is shorter. Otherwise the state is unchanged. |
| `SheetParser.CompanyRowStep` | fetch_sheet_data.py:102-107 | A `Top Companies` row appends `(name, count)` exactly when the companies section is current and the list has fewer than 10 entries. Otherwise the state is unchanged. |
| `SheetParser.OtherRowStep` | fetch_sheet_data.py:62-107 | A row whose column-0 label is none of the five known labels leaves the state unchanged. |
| `SheetParser.RunWithinCaps` | fetch_sheet_data.py:87-103 | From any state in which every list has at most 10 entries, parsing more rows keeps every list at 10 or fewer. |
| `SheetParserProperties.ListsOnlyGrow` | fetch_sheet_data.py:88-104 | Lists only grow by appending: each list before further rows is a prefix of the same list after them. |
| `SheetParserProperties.FullListsFrozen` | fetch_sheet_data.py:87-103 | Once a list holds 10 entries, no further row changes it. |
| `SheetParserProperties.SectionFollowsMarkers` | fetch_sheet_data.py:74-83 | After any rows, the current section is the one named by the last `Section` row with a recognised metric, or none. |
| `SheetParserProperties.CitiesAreFirstCandidates` | fetch_sheet_data.py:86-91 | `topCities` is the first min(n, 10) `CA Cities` rows that arrive while the cities section is current, in source order, each read as (column 1, count of column 2). |
| `SheetParserProperties.JobsAreFirstCandidates` | fetch_sheet_data.py:93-100 | `topJobs` is the first min(n, 10) `Top Jobs` rows that arrive while the jobs section is current, in source order, each read as (column 1, count of column 2, column 3 or `""`). |
| `SheetParserProperties.CompaniesAreFirstCandidates` | fetch_sheet_data.py:102-107 | `topCompanies` is the first min(n, 10) `Top Companies` rows that arrive while the companies section is current, in source order. |
| `SheetParserProperties.SummaryLastWins` | fetch_sheet_data.py:62-71 | Each summary field comes from the last `Summary` row naming its metric: the count of its value, or for `lastUpdated` the raw string. With no such row it is 0 or `""`. |
| `SheetParserProperties.RepeatedJobRows` | fetch_sheet_data.py:78-100 | After a `Job Title` marker, every one of n `Top Jobs` rows is a job candidate, and the jobs section stays current. |
| `SheetParserProperties.RepeatedJobRowsKeepTen` | fetch_sheet_data.py:93-100 | A jobs section followed by 10 or more rows `Top Jobs, Port Engineer, 12, $80k-$100k` yields exactly 10 entries, each `("Port Engineer", 12, "$80k-$100k")`. |

## Left out

- `fetch_sheet_data` (fetch_sheet_data.py:16-35) is not modelled. It logs in with a Google service account and reads the sheet over the network, through a third-party library. The model takes the rows it returns as its input.
- `save_json` (fetch_sheet_data.py:113-120) is not modelled. It is file output and JSON serialisation.
- `main` (fetch_sheet_data.py:122-137) is not modelled. It only chains the three steps, and logs and re-raises exceptions.
- The `print` calls inside `parse_sheet_data` are left out. They are logging and do not affect the result.
- Unicode digits are left out: the model's digit test accepts only ASCII `'0'`..`'9'`. Python's `str.isdigit` is wider, which gives two different outcomes for a cell at lines 64, 67, 90, 98 and 106:
  - A cell of Unicode decimal digits, such as Arabic-Indic `"١٢"` or fullwidth `"１２"`, passes `isdigit()`, and `int()` gives it the value 12. The script stores 12; the model counts 0.
  - A cell holding other digit characters, such as `'²'`, also passes `isdigit()`, but `int()` raises on it and the script stops with an exception. The model counts 0.
- The length limit on integer conversion is left out. Recent Python versions refuse to convert a digit string longer than their configured limit (4300 digits by default), so `int()` raises there. The model converts digit strings of any length.
- Dynamic typing is left out. Cells are modelled as strings, since the sheet export only yields strings; other cell types are not modelled.
- The browser-side CSV tokenizer and the time-limited cache are not part of this model. Their source is not in the modelled file.
