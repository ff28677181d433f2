# Sales and supplier ingestion, modelled in Dafny

This project models the batch core of a small sales dashboard. The core
reads monthly customer sales exports (Excel or CSV files, one per month,
named after the month) and supplier workbooks. It recognises their
columns from loosely written Czech or English headers. It turns Czech
number formats into numbers, takes the month from the file name and
validates each row. It groups the rows per customer or supplier and
derives one summary per entity: a gap-filled monthly series, totals, a
revenue-weighted margin, the change between the first and the last
active month, a trend and a unique URL slug. The dataset ends with the
list of all months and the entities by total revenue, largest first. On
top of that dataset, the filtering layer recomputes metrics and trends
for a chosen month range, tallies a group of customers and selects and
orders customers by trend mode.

The modules follow the source files:

- `Format`, `NumberCz`, `Text`, `Chars`: `lib/format.ts`. These cover header normalisation, search normalisation, slugs, `parseNumberCz` and `parsePeriodFromFilename`.
- `Config`: `lib/config.ts`.
- `Types`: the records of `lib/types.ts`.
- `Columns`: cells, the column mapping and path helpers, shared by both ingests.
- `Ingest`: `lib/ingest.ts`.
- `SupplierIngest`: `lib/supplier-ingest.ts`.
- `Compute`: `lib/compute.ts`.
- `Slugs`: the counter-suffix rule that makes slugs unique, used by both aggregations.
- `Filtering` (file `filter.dfy`): `lib/filter.ts`.
- `Base` and `Sorting`: generic sequence facts and a stable sort by key, which stands for lodash `sortBy` and for `Array.prototype.sort`.

Loops of the source are methods with `while` loops. Each method is proved
equal to a specification function, and the properties are proved as
lemmas about that function. The customer-side methods are
`IngestDirectory`, `ParseExcelFile`, `ParseCsvFile`, `MapColumns`,
`AggregateData`, `UniquifySlugs` and `CalculateAggregatedMetrics`. The
supplier side has their counterparts.

Some inputs are parameters of the model:

- A decoded workbook sheet arrives as a grid of cells (`None` when the file cannot be read).
- A CSV file arrives as the table Papa Parse yields.
- A directory arrives as the list of names `readdir` returns.
- `String(number)` is the function `numberText`.
- `localeCompare` on names is the function `rank`.
- The ISO time stamp is the string `generatedAt`.

Where the code and the design description of the system disagree, the
model follows the code:

- `parseNumberCz` does not treat the *last* comma as the decimal separator. It turns the comma into a dot only when exactly one comma is left (`lib/format.ts:31-36`). With two commas, `parseFloat` stops at the first one (`NumberCz.ParseTwoCommas`).
- The customer ingest passes the whole joined path to `parsePeriodFromFilename` (`lib/ingest.ts:68`, `136`). The supplier ingest passes only the name after the last `/` (`lib/supplier-ingest.ts:64`). As a result the default path `data/dvur/01_2024.xlsx` yields no period and no rows (`Ingest.DefaultDirectoryFileName`). A bare `01_2024.xlsx` gives `2024-01`.
- The two-digit pattern `(\d{2})[._-]?(\d{2})` is tried before the four-digit one (`lib/format.ts:98`). So `2012_05.csv` is read as `2020-12`, but `2024_01.csv` as `2024-01`.
- The supplier directory listing keeps only `.xls` and `.xlsx` files (`lib/supplier-ingest.ts:113`).
- In the supplier run every listed workbook counts as processed. In the customer run only files that yield rows count (`lib/ingest.ts:225-228`, `lib/supplier-ingest.ts:264-265`).
- Patterns in the column tables that contain a space or an accented letter never match, because a normalised header contains neither. Their plain spellings do the matching (`Ingest.DeadRevenuePatterns` and its siblings).

## Model

| member | source | states |
|---|---|---|
| Format.NormalizeHeader | lib/format.ts:4-12 | the result holds only lower-case characters without diacritics and without whitespace |
| Format.NormalizeHeaderSteps | lib/format.ts:4-12 | the header is lower-cased, stripped of diacritics and stripped of all whitespace; the newline removal and the trim change nothing further |
| Format.NormalizeHeaderIdempotent | lib/format.ts:4-12 | normalising a normalised header changes nothing |
| Format.NormalizeHeaderIgnoresWhitespace | lib/format.ts:9-10 | inserting whitespace anywhere in a header leaves its normal form unchanged |
| Format.NormalizeHeaderIgnoresCase | lib/format.ts:6 | lower-casing a header first leaves its normal form unchanged |
| Format.DeadPattern | lib/format.ts:4-12 | a pattern containing whitespace, an upper-case letter or a diacritic never occurs in a normalised header |
| Format.NormalizeForSearch | lib/format.ts:125-131 | the result is lower-case and without diacritics; it has no whitespace at either end; it is a slice of the lower-cased, stripped text cut off only at whitespace |
| Format.NormalizeForSearchKeepsInterior | lib/format.ts:125-131 | a text already lower-case and plain loses exactly its leading and trailing whitespace |
| Format.Slugify | lib/format.ts:70-79 | a slug has only `a-z`, `0-9` and `-`, never two hyphens in a row and no hyphen at either end |
| Format.SlugifyIdempotent | lib/format.ts:70-79 | the slug of a slug is itself |
| Format.WhitespaceRunsToHyphen | lib/format.ts:76 | every character of the result is `-` or a non-whitespace character of the input |
| Format.WhitespaceRunsToHyphenNoWhitespace | lib/format.ts:76 | a text without whitespace is unchanged |
| Format.CollapseHyphens | lib/format.ts:77 | no two hyphens in a row remain; no new characters appear; emptiness and hyphens at either end are kept |
| Format.CollapseHyphensSingle | lib/format.ts:77 | a text without a double hyphen is unchanged |
| Format.SlugEnds | lib/format.ts:78 | trimming one hyphen at each end leaves no hyphen at either end of a text without double hyphens |
| Format.MonthYear | lib/format.ts:86-95 | a month read as `MM_YYYY` is a valid `YYYY-MM` month identifier |
| Format.MatchDvur | lib/format.ts:98 | the two groups of a `dvur` match are two digits each |
| Format.PairAt | lib/format.ts:98 | a pair match at a position has a year group of the pattern's width and a two-digit month group |
| Format.FirstPair | lib/format.ts:98-99 | the first match of an unanchored pair pattern is the leftmost position that matches; with no match, no position matches |
| Format.PeriodFromPatterns | lib/format.ts:98-119 | any period found by the fallback patterns is a valid month identifier |
| Format.FallbackOrder | lib/format.ts:98-119 | the fallbacks are tried in order `dvur`, two-digit pair, four-digit pair; a match with an invalid month falls through to the next pattern |
| Format.ParsePeriodFromFilename | lib/format.ts:82-122 | any period returned is `YYYY-MM` with a month from 01 to 12 |
| Format.StripKnownExtension | lib/format.ts:83 | `.xls`, `.xlsx` and `.csv` are removed from the end of the name |
| Format.PeriodMonthYear | lib/format.ts:83-95 | `MM<sep>YYYY.<ext>` with a valid month gives `YYYY-MM` |
| Format.PeriodMonthYearExample | lib/format.ts:82-95 | `01_2024.xlsx` gives `2024-01` |
| Format.PeriodDvur | lib/format.ts:98-117 | `dvur<sep>YY<sep>MM.<ext>` gives `20YY-MM` |
| Format.PeriodDvurExample | lib/format.ts:98-117 | `dvur_24_01.xls` gives `2024-01` |
| Format.PeriodNeedsDigits | lib/format.ts:82-121 | a file name without digits has no period |
| Format.PeriodInvalidExample | lib/format.ts:82-121 | `invalid.csv` has no period |
| Format.PeriodYearMonth | lib/format.ts:98-119 | `YYYY<sep>MM.<ext>` is read by the two-digit pattern as `20YY-MM` from its first four digits when they form a valid month, and otherwise as `YYYY-MM` |
| Format.PeriodYearMonthExamples | lib/format.ts:98-119 | `2024_01.csv` gives `2024-01` |
| Format.PeriodYearMonthMisreadExample | lib/format.ts:98-119 | `2012_05.csv` gives `2020-12` |
| Format.PeriodOfJoinedPathExample | lib/format.ts:82-121 | the joined path `data/dvur/01_2024.xlsx` has no period |
| NumberCz.ParseNumberCz | lib/format.ts:15-40 | a number is returned unchanged; an empty, blank or `-` string gives 0 |
| NumberCz.ParseDecimalDot | lib/format.ts:23-25 | `d.f` is accepted by `Number()` and gives d + f/10^\|f\| |
| NumberCz.ParseDecimalComma | lib/format.ts:28-39 | `d,f` gives d + f/10^\|f\| |
| NumberCz.ParseGroupedDecimalComma | lib/format.ts:28-39 | `g hhh,f` and `g.hhh,f` give the number gh.f: the space or dot before three digits is a thousands separator |
| NumberCz.ParseGroupedExample | lib/format.ts:15-40 | `1 234,50` gives 1234.5 |
| NumberCz.ParseTwoCommas | lib/format.ts:31-39 | `d,f,e` gives d: with two commas none becomes a decimal point |
| NumberCz.ParseNoDigits | lib/format.ts:38-39 | a string without digits gives 0 |
| NumberCz.GroupedLikeDotted | lib/format.ts:23-39 | an amount written with a space or dot thousands separator and a decimal comma reads as the same digits written with a decimal dot |
| NumberCz.CleanedDecimalComma | lib/format.ts:31-36 | a single comma becomes a dot |
| NumberCz.CleanedGrouped | lib/format.ts:28-36 | the thousands separator goes and the comma becomes a dot |
| NumberCz.CleanedTwoCommas | lib/format.ts:31-36 | with two commas the string is left as it is |
| NumberCz.ThousandsDotsOnly | lib/format.ts:28 | only dots are removed: every other character occurs as often as before |
| NumberCz.GroupedNotNumber | lib/format.ts:23 | a grouped amount with a comma is not a plain number |
| NumberCz.ScanNeedsDigit | lib/format.ts:38 | `parseFloat` finds no number in a text without digits |
| Columns.FirstMatch | lib/ingest.ts:28-32 | the field chosen is the first in table order with a pattern in the header; none exactly when no field's pattern occurs |
| Columns.FindField | lib/ingest.ts:28-33 | the inner loop over the fields finds exactly that first matching field |
| Columns.MapColumns | lib/ingest.ts:21-37 | the mapping the header loop builds is the last-header-wins map of header fields |
| Columns.ColumnsOfSpec | lib/ingest.ts:24-34 | a field is mapped iff some header resolves to it, and it is mapped to the last such header |
| Columns.ColumnsInjective | lib/ingest.ts:28-32 | two different fields never share a column |
| Columns.LastIndexSpec | lib/ingest.ts:24-31 | the index kept for a field is its last occurrence |
| Columns.CellText | lib/ingest.ts:81 | `String(cell \|\| '')`: a falsy cell is the empty text and a text cell is its own text |
| Columns.CellNumber | lib/ingest.ts:84-86 | `parseNumberCz(cell \|\| 0)`: a falsy cell is 0 and a number cell is its own number |
| Columns.CellNumberViaText | lib/supplier-ingest.ts:81-82 | `parseNumberCz(String(cell \|\| 0))` agrees with the direct reading for falsy and text cells |
| Columns.CellNumberViaTextOfNumber | lib/supplier-ingest.ts:81 | a number cell whose printed form reads back to it keeps its value |
| Columns.HeaderTexts | lib/ingest.ts:59 | one header text per header cell, each `String(h \|\| '')` |
| Columns.MonthIdMatchesRegex | lib/ingest.ts:17 | every month identifier passes `^\d{4}-\d{2}$` |
| Columns.JoinPath | lib/ingest.ts:214 | for an already normalised directory, the joined path ends with the file name |
| Columns.BaseName | lib/supplier-ingest.ts:64 | the name after the last `/` has no `/` and ends the path |
| Columns.BaseNameOfJoin | lib/supplier-ingest.ts:259-264 | the name of a joined path is the listed file name |
| Ingest.RequiredColumns | lib/ingest.ts:63-66 | there are no columns exactly when the customer or the revenue column is unmapped |
| Ingest.OptionalNumber | lib/ingest.ts:85-86 | an unmapped profit or margin column gives 0 |
| Ingest.ReadRow | lib/ingest.ts:80-94 | a row is skipped exactly when its trimmed customer is empty; otherwise it carries that customer, the cell numbers and the file's period |
| Ingest.Validated | lib/ingest.ts:12-18 | the schema keeps a row exactly when the row is valid |
| Ingest.RowKept | lib/ingest.ts:80-98 | with a valid period, a row is kept iff its customer is not blank, its revenue is at least 0 and its margin lies in [0, 100] |
| Ingest.RecordCells | lib/ingest.ts:147-152 | a CSV record is read as text cells, one per field |
| Ingest.ExcelFileRows | lib/ingest.ts:40-111 | an unreadable sheet, fewer than two rows or a path without a period give no rows |
| Ingest.CsvHeaders | lib/ingest.ts:127 | the header list is empty without a data line; otherwise it is the header line's fields cut to the length of the first data line, plus `__parsed_extra` when that line is longer |
| Ingest.ParsedExtraUnmapped | lib/ingest.ts:127-128 | the `__parsed_extra` key stands for no field of the customer table |
| Ingest.CsvColumnsWithinFields | lib/ingest.ts:127-133 | every column the CSV mapping picks is a header field that the first data line has a value for, so a first data line too short to reach the revenue column leaves it unmapped |
| Ingest.CsvFileRows | lib/ingest.ts:114-179 | an unreadable file or a path without a period gives no rows; the columns come from the first data line's keys |
| Ingest.MissingColumnsNoRows | lib/ingest.ts:63-66 | a sheet or CSV file without a customer or revenue column gives no rows |
| Ingest.ExcelRowsValid | lib/ingest.ts:68-98 | every row read from a sheet is valid and has the period of the file path |
| Ingest.CsvRowsValid | lib/ingest.ts:136-163 | every row read from a CSV file is valid and has the period of the file path |
| Ingest.ReadExcelRow | lib/ingest.ts:77-98 | the loop body adds exactly the validated row, and nothing for an empty row |
| Ingest.ReadExcelRows | lib/ingest.ts:76-103 | the row loop collects the kept rows after the header, in order |
| Ingest.ColumnsFrom | lib/ingest.ts:63-66 | the columns read from a mapping with the required fields |
| Ingest.ParseExcelFile | lib/ingest.ts:40-111 | `parseExcelFile` returns exactly `ExcelFileRows` |
| Ingest.ReadCsvRecord | lib/ingest.ts:146-167 | the `forEach` body adds exactly the validated row |
| Ingest.ReadCsvRecords | lib/ingest.ts:145-168 | the record loop collects the kept rows, in order |
| Ingest.ParseCsvFile | lib/ingest.ts:114-179 | `parseCsvFile` returns exactly `CsvFileRows` |
| Ingest.ListFiles | lib/ingest.ts:182-192 | a name is listed iff it ends in `.xls`, `.xlsx` or `.csv`, in any case |
| Ingest.IngestSpec | lib/ingest.ts:195-208 | with no sheet files the result is the empty dataset |
| Ingest.ReadFile | lib/ingest.ts:214-223 | a file is read by the Excel or CSV reader according to its extension, from its joined path |
| Ingest.IngestDirectory | lib/ingest.ts:195-242 | the result is the aggregate of the rows of all listed files, and the processed files are those that yielded rows |
| Ingest.AllRowsFromFiles | lib/ingest.ts:213-226 | every aggregated row is valid and carries the period of a listed sheet file |
| Ingest.ProcessedFiles | lib/ingest.ts:225-228 | a file counts as processed iff it is a listed sheet file that yields rows |
| Ingest.IngestNothingRead | lib/ingest.ts:201-237 | when no file yields a row the result is the empty dataset |
| Ingest.IngestCustomers | lib/ingest.ts:213-237 | the customers of the result are exactly the customers of the rows read |
| Ingest.DeadCustomerPatterns | lib/config.ts:3 | `odběratel` and `zákazník` never match a normalised header |
| Ingest.DeadRevenuePatterns | lib/config.ts:4 | the revenue patterns with spaces or accents never match |
| Ingest.DeadProfitPatterns | lib/config.ts:5 | the profit patterns with spaces or accents never match |
| Ingest.DeadMarginPatterns | lib/config.ts:6 | the margin patterns with spaces or accents never match |
| Ingest.DefaultDirectoryFileName | lib/ingest.ts:68 | a file `01_2024.xlsx` in the default directory `data/dvur` yields no rows, because its joined path has no period |
| SupplierIngest.RequiredSupplierColumns | lib/supplier-ingest.ts:59-62 | there are no columns exactly when the supplier or the turnover column is unmapped |
| SupplierIngest.ReadSupplierRow | lib/supplier-ingest.ts:78-89 | a row is skipped exactly when its trimmed supplier is empty; otherwise it has that supplier, the turnover and items read through `String(...)`, items 0 without a column, and the file's period |
| SupplierIngest.SupplierRowKept | lib/supplier-ingest.ts:10-15 | with a valid period, a non-empty row is kept iff its supplier is not blank and its turnover and items are at least 0 |
| SupplierIngest.SupplierFileRows | lib/supplier-ingest.ts:37-106 | an unreadable sheet, fewer than two rows or a file name without a period give no rows |
| SupplierIngest.SupplierMissingColumnsNoRows | lib/supplier-ingest.ts:59-62 | a sheet without a supplier or turnover column gives no rows |
| SupplierIngest.SupplierFileRowsValid | lib/supplier-ingest.ts:64-93 | every row is valid and carries the period of the bare file name |
| SupplierIngest.SupplierPeriodIgnoresDirectory | lib/supplier-ingest.ts:64-65 | the directory a workbook is read from does not change its rows |
| SupplierIngest.DeadSupplierPatterns | lib/config.ts:11-13 | the accented supplier patterns never match a normalised header |
| SupplierIngest.ReadSupplierExcelRow | lib/supplier-ingest.ts:74-97 | the loop body adds exactly the validated row, and nothing for an empty row |
| SupplierIngest.ReadSupplierRows | lib/supplier-ingest.ts:73-98 | the row loop collects the kept rows after the header, in order |
| SupplierIngest.SupplierColumnsFrom | lib/supplier-ingest.ts:59-62 | the columns read from a mapping with the required fields |
| SupplierIngest.ParseSupplierExcelFile | lib/supplier-ingest.ts:37-106 | `parseSupplierExcelFile` returns exactly `SupplierFileRows` |
| SupplierIngest.SupplierSlugUncut | lib/supplier-ingest.ts:122-126 | before the cut, the slug has only `a-z`, `0-9` and `-` and no double hyphen |
| SupplierIngest.CreateSupplierSlug | lib/supplier-ingest.ts:122-128 | the slug is the first 50 characters of the uncut slug, and keeps its alphabet and the absence of double hyphens |
| SupplierIngest.DashedNoDoubleHyphen | lib/supplier-ingest.ts:125-126 | whitespace runs turned into `-` in a text without `-` leave no double hyphen |
| SupplierIngest.PlainNameSlug | lib/supplier-ingest.ts:122-128 | a name of `a-z` and `0-9` only is its own slug, cut to 50 characters |
| SupplierIngest.SlugHyphensFromWhitespace | lib/supplier-ingest.ts:123-126 | a name without whitespace gives a slug without `-`, because the hyphens of the name are deleted |
| SupplierIngest.Split | lib/supplier-ingest.ts:196 | `split(' ')` gives at least one piece and no piece holds the separator |
| SupplierIngest.JoinSplit | lib/supplier-ingest.ts:196 | joining the pieces with the separator gives back the name |
| SupplierIngest.SplitJoin | lib/supplier-ingest.ts:196 | splitting a join of separator-free pieces gives back the pieces |
| SupplierIngest.Abbreviation | lib/supplier-ingest.ts:195-199 | the abbreviation is the upper-cased first character of the first piece, followed by that of the second piece if there is one |
| SupplierIngest.AbbreviationOneWord | lib/supplier-ingest.ts:195-199 | a name without a space abbreviates to its upper-cased first character |
| SupplierIngest.AbbreviationTwoWords | lib/supplier-ingest.ts:195-199 | `a b...` abbreviates to the initials of `a` and of the following word |
| SupplierIngest.RecordsOfMember | lib/supplier-ingest.ts:136-146 | a supplier's series holds a record for each of its rows and nothing else |
| SupplierIngest.SupplierMonthsAvailable | lib/supplier-ingest.ts:147-150 | the months are exactly the row periods, strictly increasing |
| SupplierIngest.SortedByPeriod | lib/supplier-ingest.ts:158 | the records are permuted into non-decreasing periods, and records of equal period keep their order |
| SupplierIngest.FirstPeriod | lib/supplier-ingest.ts:160 | the period of the first record, `null` for no record or an empty period |
| SupplierIngest.LastPeriod | lib/supplier-ingest.ts:161 | the period of the last record, `null` for no record or an empty period |
| SupplierIngest.NonZeroEnds | lib/supplier-ingest.ts:169-170 | none exactly when no record is above 0; otherwise both ends are above 0 |
| SupplierIngest.NonZeroEndsAt | lib/supplier-ingest.ts:169-170 | the ends are the first and the last record above 0 |
| SupplierIngest.SupplierTrend | lib/supplier-ingest.ts:186-192 | UP iff the percentage is at least 5; DOWN iff it is at most -5; otherwise, and without a percentage, FLAT |
| SupplierIngest.SupplierSeries | lib/supplier-ingest.ts:156-226 | a summary carries the name, its slug and abbreviation, the records permuted into period order and the first and last period of that order |
| SupplierIngest.SupplierTotals | lib/supplier-ingest.ts:164-166 | the totals are the sums over all records, whatever their order, and the average is the items per record (0 without records) |
| SupplierIngest.SupplierDelta | lib/supplier-ingest.ts:169-183 | the percentage is `null` iff no record is above 0, and then the difference is 0; otherwise both compare the first and the last record above 0 |
| SupplierIngest.SupplierTurnoverPct | lib/supplier-ingest.ts:169-192 | a supplier has a percentage iff some record is above 0, independent of order; without one it is FLAT with difference 0 |
| SupplierIngest.SamePositives | lib/supplier-ingest.ts:158-169 | reordering the records does not change whether one is above 0 |
| SupplierIngest.SupplierSummaries | lib/supplier-ingest.ts:156-226 | one summary per supplier name |
| SupplierIngest.SupplierSummaryAt | lib/supplier-ingest.ts:156-226 | the i-th summary is the metrics of the i-th supplier, in order of first appearance, over that supplier's records |
| SupplierIngest.UniqueSupplierSlugs | lib/supplier-ingest.ts:202-208 | each supplier keeps its summary, takes a candidate of its base slug, and no two slugs are equal |
| SupplierIngest.AggregateSupplierSpec | lib/supplier-ingest.ts:131-237 | the months available, a permutation of the uniquely slugged summaries in non-increasing turnover, ties in first-appearance order |
| SupplierIngest.SupplierAggregateUnique | lib/supplier-ingest.ts:131-237 | no two suppliers share a slug or a name, and the names are exactly the suppliers of the rows |
| SupplierIngest.SupplierAggregateMember | lib/supplier-ingest.ts:131-237 | every supplier is, up to its slug, the summary of its own rows, and its slug is a candidate of its base slug |
| SupplierIngest.GroupSupplierRows | lib/supplier-ingest.ts:136-148 | the grouping loop leaves the suppliers in first-appearance order, each with the records of its rows, and the periods in first-appearance order |
| SupplierIngest.SummarizeSuppliers | lib/supplier-ingest.ts:156-227 | the summary loop yields the uniquely slugged summaries in the order of the groups |
| SupplierIngest.AggregateSupplierData | lib/supplier-ingest.ts:131-237 | `aggregateSupplierData` returns exactly the specified aggregate |
| SupplierIngest.ListSupplierFiles | lib/supplier-ingest.ts:109-119 | a name is listed iff it ends in `.xls` or `.xlsx`, in any case |
| SupplierIngest.IngestSupplierSpec | lib/supplier-ingest.ts:246-253 | with no workbook the result is the empty dataset |
| SupplierIngest.ReadSupplierFile | lib/supplier-ingest.ts:259-262 | a workbook is read from its joined path |
| SupplierIngest.IngestSupplierDirectory | lib/supplier-ingest.ts:240-281 | the result is the aggregate of the rows of all listed workbooks, and every listed workbook counts as processed |
| SupplierIngest.AllSupplierRowsValid | lib/supplier-ingest.ts:255-276 | every aggregated row is valid and carries the period of a listed workbook's name |
| Compute.CalculateTrend | lib/compute.ts:7-18 | with a percentage: UP iff at least +5, DOWN iff at most -5; without one: UP iff the first value is 0 and the change positive, DOWN iff the first value is positive and the change negative |
| Compute.WeightedMargin | lib/compute.ts:21-31 | `null` iff no month has both a margin and positive revenue; otherwise a value between the smallest and the largest of those margins |
| Compute.MarginBounds | lib/compute.ts:22-30 | the revenue of the margin months is positive, and the weighted sum over it lies between their smallest and largest margin |
| Compute.MonthMap | lib/compute.ts:38 | the map holds every period of the records, each with the last record of that period |
| Compute.FillMissingMonths | lib/compute.ts:34-51 | one record per month of the list, in its order: the customer's last record for that month, or a zero record with no margin |
| Compute.FilledOnePerPeriod | lib/compute.ts:34-51 | filling against distinct months gives one record per month |
| Compute.FindPeriod | lib/compute.ts:78-79 | the first record of the period, none iff there is none |
| Compute.FirstMonthOf | lib/compute.ts:62-63 | the period of the first month with revenue, `null` iff there is none |
| Compute.LastMonthOf | lib/compute.ts:62-64 | the period of the last month with revenue, `null` iff there is none |
| Compute.SeriesSummary | lib/compute.ts:59-112 | the summary keeps the name and series, with the name's slug, the sums, the weighted margin and the active span |
| Compute.CustomerMetrics | lib/compute.ts:54-113 | the summary's series is the customer's months filled out to all months, with totals and margin over it |
| Compute.DeltaEndsActive | lib/compute.ts:77-79 | with two active months, the compared records are the first and the last month with revenue |
| Compute.DeltaEndsFew | lib/compute.ts:77 | with fewer than two active months nothing is compared |
| Compute.CustomerDeltas | lib/compute.ts:77-82 | the changes are last minus first active month, for revenue and profit |
| Compute.CustomerDeltaPcts | lib/compute.ts:84-90 | the revenue percentage is `(last/first - 1)·100` of the active ends, and a profit percentage exists iff the first profit is non-zero |
| Compute.CustomerTrends | lib/compute.ts:94-95 | the trends apply the ±5 thresholds to those percentages; a profit starting at 0 is UP iff it ends positive and is never DOWN |
| Compute.CustomerSteady | lib/compute.ts:72-95 | with fewer than two active months both changes are 0, both percentages `null` and both trends FLAT |
| Compute.MonthsAvailable | lib/compute.ts:126-129 | the months are exactly the row periods, strictly increasing |
| Compute.CustomerNames | lib/compute.ts:132 | the group keys are exactly the customers of the rows, each once |
| Compute.MonthsOf | lib/compute.ts:136-141 | a customer's records come from its own rows and all have a margin |
| Compute.MonthsOfPeriod | lib/compute.ts:136-141 | a customer's records have a period iff one of its rows does |
| Compute.Summaries | lib/compute.ts:135-144 | one summary per customer, in group order |
| Compute.SummaryAt | lib/compute.ts:135-144 | each summary is the metrics of a customer of the rows over its own rows and all months, with its slug from its name |
| Compute.Uniquified | lib/compute.ts:147-160 | each customer keeps its summary, takes a candidate of its base slug, and no two slugs are equal |
| Compute.UniquifiedFirst | lib/compute.ts:147-160 | the first customer keeps its base slug |
| Compute.UniquifySlugs | lib/compute.ts:147-160 | the slug loop computes exactly `Uniquified` |
| Compute.ByRevenue | lib/compute.ts:163 | sorting by negated revenue puts revenue from the largest |
| Compute.AggregateSpec | lib/compute.ts:116-170 | empty rows give an empty dataset; otherwise the months available and a permutation of the uniquely slugged summaries by non-increasing revenue |
| Compute.AggregateStable | lib/compute.ts:163 | customers of equal revenue keep their group order |
| Compute.AggregateUnique | lib/compute.ts:135-163 | no two customers share a slug or a name, and the names are exactly the customers of the rows |
| Compute.AggregateMember | lib/compute.ts:135-163 | every customer is, up to its slug, the metrics of its own rows over all months, and its slug is a candidate of its base slug |
| Compute.AggregateSeries | lib/compute.ts:59-68 | a customer's series has one record per available month, in order, and its totals are sums over it |
| Compute.SeriesGaps | lib/compute.ts:34-51 | a month without a row of the customer is a zero record, and exactly those months have no margin |
| Compute.AggregateGaps | lib/compute.ts:34-51 | the same holds for every customer of the aggregate |
| Compute.AggregateData | lib/compute.ts:116-170 | `aggregateData` returns exactly `AggregateSpec` |
| Slugs.NatToString | lib/compute.ts:154 | the decimal text of the counter has the counter's value |
| Slugs.CandidateInjective | lib/compute.ts:154 | different counters give different candidates |
| Slugs.FreshSlug | lib/compute.ts:150-156 | the slug taken is the first candidate that is not yet used |
| Slugs.ResolveSlug | lib/compute.ts:150-156 | the `while (usedSlugs.has(...))` loop finds exactly `FreshSlug` |
| Slugs.AssignSlugsFacts | lib/compute.ts:147-160 | the slugs given in turn are unused, pairwise different and candidates of their bases |
| Slugs.AssignSlugsFirst | lib/compute.ts:147-160 | the first entity keeps its base slug |
| Sorting.SortBy | lib/compute.ts:163 | the sort returns a permutation, non-decreasing by key, and keeps the order of elements with equal keys |
| Filtering.FilterMonthsByRange | lib/filter.ts:5-19 | without bounds the series is returned as it is; in every case the result is the series filtered by the window test, in order |
| Filtering.InRangeMember | lib/filter.ts:5-19 | a month is in the result iff it is in the series and within the bounds; a null or empty bound is ignored |
| Filtering.MetricsForPeriod | lib/filter.ts:22-57 | the totals and weighted margin are over the months in range; activity means positive revenue; the margin is `null` iff no month in range has one, and otherwise lies between such margins |
| Filtering.MetricsWholeSeries | lib/filter.ts:22-57 | without bounds the metrics are over the whole series |
| Filtering.AggregateWholeRange | lib/filter.ts:22-57 | without bounds the metrics of an aggregated customer equal its stored totals and margin |
| Filtering.FilterTrend | lib/filter.ts:169-176 | UP iff the percentage is at least +0.1, DOWN iff it is at most -0.1 |
| Filtering.ResolvedWindow | lib/filter.ts:142-150 | both bounds given: they are the window; otherwise the customer's first to last active month |
| Filtering.TrendForFiltering | lib/filter.ts:120-179 | fewer than two active months: FLAT without a percentage; UP iff a percentage of at least +0.1 exists, DOWN iff one of at most -0.1 exists |
| Filtering.TrendHasPercentage | lib/filter.ts:129-167 | a percentage exists iff the customer has two active months and the resolved window holds two active months |
| Filtering.TrendOneBound | lib/filter.ts:142-150 | a single bound is ignored, as if none were given |
| Filtering.TrendPercentageValue | lib/filter.ts:153-167 | with a percentage, the active months of the window number at least two, the first has positive revenue, and the percentage compares the first with the last |
| Filtering.TrendPercentage | lib/filter.ts:153-167 | those two months sit at positions i < j, with no active month of the window before i or after j |
| Filtering.OwnWindowKeepsActive | lib/filter.ts:129-154 | in a period-sorted series, the customer's own window keeps every active month |
| Filtering.TrendOwnWindow | lib/filter.ts:129-179 | without bounds the percentage compares the first and last active month of the whole series |
| Filtering.TrendMatchesSummary | lib/filter.ts:167 | without bounds the filtering percentage equals the summary's revenue percentage |
| Filtering.DualThresholds | lib/filter.ts:169-176 | the same percentage in [0.1, 5) is FLAT in the summary but UP for filtering, and in (-5, -0.1] FLAT but DOWN |
| Filtering.AggregateSeriesSorted | lib/compute.ts:126-143 | an aggregated customer's series has one record per month in increasing order |
| Filtering.AggregateTrendMatches | lib/filter.ts:120-179 | for an aggregated customer the filtering percentage without bounds is its stored revenue percentage |
| Filtering.TallyStep | lib/filter.ts:82-102 | one more customer adds its contribution to each running total |
| Filtering.TallyPartition | lib/filter.ts:88-101 | the active customers split into growing, declining and stable |
| Filtering.MarginRevenuePositive | lib/filter.ts:104-106 | the margin revenue is positive iff some active customer has a margin |
| Filtering.Accumulate | lib/filter.ts:85-101 | the loop body adds exactly one customer's contribution |
| Filtering.CalculateAggregatedMetrics | lib/filter.ts:60-117 | totals and counts over the customers, the group margin `null` iff no active customer has a margin and otherwise the revenue-weighted mean; active = growing + declining + stable |
| Filtering.SelectionIsFilter | lib/filter.ts:189-225 | the list before sorting is the active customers, further limited to UP or DOWN in the trend modes |
| Filtering.FilterAndSortCustomersByTrend | lib/filter.ts:182-245 | a permutation of the selected customers, sorted stably by the mode's key |
| Filtering.FilterAndSortMembers | lib/filter.ts:189-225 | a customer is listed iff it is active in the range and matches the mode's trend |
| Filtering.FilterAndSortOrder | lib/filter.ts:202-242 | each mode's order: by percentage descending or ascending, by name rank, or by range revenue from the largest |

## Left out

- Reading files, decoding workbooks with `xlsx` and CSV with Papa Parse, and `readdir` are outside the model. Their results are parameters, with `None` standing for a file whose read throws.
- The `zod` schemas are replaced by the predicates `RawRowValid` and `RawSupplierRowValid`. A thrown validation error is a dropped row.
- Console logging is left out, and so are the parse errors Papa reports, which are only logged.
- `new Date().toISOString()` is the `generatedAt` parameter.
- `formatCurrencyCZK`, `formatPct` and `formatNumber` are left out. They only call `Intl.NumberFormat`, whose Czech locale data is not part of this model.
- Unicode case mapping and NFD decomposition are modelled by tables for ASCII, Latin-1 and the Czech letters. Other characters are left as they are.
- SupplierIngest.Initial: strings are sequences of Unicode characters, not UTF-16 code units. For a name starting with a character outside the Basic Multilingual Plane, `charAt(0)` gives a lone surrogate, while the model takes the whole character.
- Columns.JoinPath: directories are taken as already normalised. `path.join` also drops `.` segments, resolves `..` and collapses repeated `/`; the model only inserts one `/`. The default directories `data/dvur` and `data/dodavatele` are normalised, so for them the two agree.
- JavaScript numbers are exact reals: floating-point rounding, `NaN`, infinities and overflow are not modelled.
- `Number()` and `parseFloat` are modelled for plain decimal literals with optional sign, fraction and leading or trailing whitespace. Exponents, hexadecimal and `Infinity` are left out.
- Printing a number cell with `String(...)` is the parameter `numberText`. `Columns.CellNumberViaText` therefore states a number cell's value only for cells whose printed form reads back to the same number.
- `localeCompare(…, 'cs')` on customer names is the parameter `rank`, a total preorder on names.
- The supplier sort of periods by `localeCompare` is code-unit order. Periods are `YYYY-MM` strings of digits and `-`, and on those the two orders agree.
- `groupBy` and `Object.entries` are modelled in first-appearance order. The engine's reordering of integer-like keys (a customer named `123`) is left out.
- The supplier `Map` iterates in insertion order, which is what the model uses.
- Duplicate CSV header names, which Papa Parse renames, are left out.
- `lib/storage.ts`, `lib/localStorage.ts`, the API route, the pages, the components and the month range picker are not part of this model.
