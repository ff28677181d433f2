/** Reading the customer sales sheets of a directory: the column mapping,
    row extraction and validation of one Excel or CSV file, and the
    directory loop that gathers the rows of all files and aggregates them.

    Decoding is outside the model: a workbook's first sheet arrives as a
    grid of cells (`None` when the file cannot be read or has no sheet), a
    CSV file as the table Papa Parse produces, and the directory as the
    list of names `readdir` returns (empty when it cannot be read). */
module Ingest {
  import opened Base
  import opened Text
  import opened Format
  import opened NumberCz
  import opened Types
  import opened Config
  import opened Columns
  import opened Compute

  // ---------------------------------------------------------------------
  // Rows
  // ---------------------------------------------------------------------

  /** `RawRowSchema`: a non-empty customer, revenue at least 0, a margin
      between 0 and 100 and a `YYYY-MM` period; the profit is any number. */
  predicate RawRowValid(r: RawRow) {
    && |r.customer| >= 1
    && r.revenue >= 0.0
    && 0.0 <= r.marginPct <= 100.0
    && MatchesPeriodRegex(r.period)
  }

  /** The column indices of the four fields; profit and margin may be
      unmapped. */
  datatype CustomerColumns = CustomerColumns(customer: nat, revenue: nat, profit: Option<nat>, marginPct: Option<nat>)

  /** The columns of a mapping, `None` when the customer or the revenue
      column is missing. */
  function RequiredColumns(mapping: map<CustomerField, nat>): (r: Option<CustomerColumns>)
    ensures r.None? <==> CustomerCol !in mapping || RevenueCol !in mapping
  {
    if CustomerCol !in mapping || RevenueCol !in mapping then None
    else Some(CustomerColumns(mapping[CustomerCol], mapping[RevenueCol],
      if ProfitCol in mapping then Some(mapping[ProfitCol]) else None,
      if MarginPctCol in mapping then Some(mapping[MarginPctCol]) else None))
  }

  /** `parseNumberCz(row[k] || 0)` for a column that may be unmapped, in
      which case the value is 0. */
  function OptionalNumber(row: seq<Cell>, col: Option<nat>): (r: real)
    ensures col.None? ==> r == 0.0
  {
    if col.Some? then CellNumber(CellAt(row, col.value)) else 0.0
  }

  /** One data row read through the columns, before validation; `None`
      when the trimmed customer cell is empty and the row is skipped. */
  function ReadRow(row: seq<Cell>, cols: CustomerColumns, period: string, numberText: real -> string): (r: Option<RawRow>)
    ensures var customer := Trim(CellText(CellAt(row, cols.customer), numberText));
      && (r.None? <==> customer == "")
      && (r.Some? ==> r.value == RawRow(customer, CellNumber(CellAt(row, cols.revenue)),
            OptionalNumber(row, cols.profit), OptionalNumber(row, cols.marginPct), period))
  {
    var customer := Trim(CellText(CellAt(row, cols.customer), numberText));
    if customer == "" then None
    else
      var revenue := CellNumber(CellAt(row, cols.revenue));
      var profit := OptionalNumber(row, cols.profit);
      var marginPct := OptionalNumber(row, cols.marginPct);
      Some(RawRow(customer, revenue, profit, marginPct, period))
  }

  /** A read row kept only if it passes the schema (a failing `parse`
      throws and the `catch` drops the row). */
  function Validated(raw: Option<RawRow>): (r: Option<RawRow>)
    ensures r.Some? <==> raw.Some? && RawRowValid(raw.value)
    ensures r.Some? ==> r == raw
  {
    if raw.Some? && RawRowValid(raw.value) then raw else None
  }

  /** The row an Excel data row contributes: none for an empty row. */
  function ExcelRowOf(row: seq<Cell>, cols: CustomerColumns, period: string, numberText: real -> string): Option<RawRow> {
    if |row| == 0 then None else Validated(ReadRow(row, cols, period, numberText))
  }

  function ExcelReader(cols: CustomerColumns, period: string, numberText: real -> string): seq<Cell> -> Option<RawRow> {
    row => ExcelRowOf(row, cols, period, numberText)
  }

  /** The cells of a CSV record: its values as text, `undefined` past its
      end. */
  function RecordCells(record: seq<string>): (cells: seq<Cell>)
    ensures |cells| == |record| && forall i :: 0 <= i < |record| ==> cells[i] == Some(Str(record[i]))
  {
    seq(|record|, i requires 0 <= i < |record| => Some(Str(record[i])))
  }

  /** The row a CSV record contributes. */
  function CsvRowOf(record: seq<string>, cols: CustomerColumns, period: string, numberText: real -> string): Option<RawRow> {
    Validated(ReadRow(RecordCells(record), cols, period, numberText))
  }

  function CsvReader(cols: CustomerColumns, period: string, numberText: real -> string): seq<string> -> Option<RawRow> {
    record => CsvRowOf(record, cols, period, numberText)
  }

  /** With a period from a file name, a row is kept exactly when its
      customer is not blank, its revenue is at least 0 and its margin lies
      in [0, 100]; a negative margin drops the row. */
  lemma RowKept(row: seq<Cell>, cols: CustomerColumns, period: string, numberText: real -> string)
    requires IsMonthId(period)
    ensures var raw := ReadRow(row, cols, period, numberText);
      && (Validated(raw).Some? <==>
            && Trim(CellText(CellAt(row, cols.customer), numberText)) != ""
            && CellNumber(CellAt(row, cols.revenue)) >= 0.0
            && 0.0 <= OptionalNumber(row, cols.marginPct) <= 100.0)
  {
    MonthIdMatchesRegex(period);
  }

  // ---------------------------------------------------------------------
  // One file
  // ---------------------------------------------------------------------

  /** The rows `parseExcelFile` returns for the file at `filePath` whose
      first sheet decodes to `sheet`. */
  function ExcelFileRows(filePath: string, sheet: Option<Grid>, numberText: real -> string): (rows: seq<RawRow>)
    ensures sheet.None? || |sheet.value| < 2 || ParsePeriodFromFilename(filePath).None? ==> rows == []
  {
    if sheet.None? || |sheet.value| < 2 then []
    else
      var jsonData := sheet.value;
      var cols := RequiredColumns(ColumnsOf(ColumnMapping, HeaderTexts(jsonData[0], numberText)));
      var period := ParsePeriodFromFilename(filePath);
      if cols.None? || period.None? then []
      else Collect(jsonData[1..], ExcelReader(cols.value, period.value, numberText))
  }

  /** A CSV file as Papa Parse delivers it with `header: true` and
      `skipEmptyLines`: the field names of the header line and the values
      of each non-empty data line. */
  datatype CsvTable = CsvTable(fields: seq<string>, records: seq<seq<string>>)

  /** The key Papa Parse files the values of a line under when the line
      has more values than the header line has fields. */
  const ParsedExtraKey: string := "__parsed_extra"

  /** `Object.keys(results.data[0] || {})`: none when there is no data
      line; otherwise the field names the first data line has a value for,
      followed by `__parsed_extra` when that line is longer than the header
      line. */
  function CsvHeaders(table: CsvTable): (headers: seq<string>)
    ensures table.records == [] ==> headers == []
    ensures table.records != [] ==>
      var n := if |table.records[0]| < |table.fields| then |table.records[0]| else |table.fields|;
      && |headers| == (if |table.records[0]| > |table.fields| then n + 1 else n)
      && headers[..n] == table.fields[..n]
  {
    if |table.records| == 0 then []
    else
      var first := table.records[0];
      var n := if |first| < |table.fields| then |first| else |table.fields|;
      table.fields[..n] + (if |first| > |table.fields| then [ParsedExtraKey] else [])
  }

  /** A text without the character `c` contains no pattern that has it. */
  lemma LacksChar(s: string, p: string, c: char)
    requires c in p && c !in s
    ensures !Contains(s, p)
  {
    if Contains(s, p) {
      ContainsChars(s, p);
    }
  }

  /** Every customer pattern has an `o` or a `z`, */
  lemma CustomerPatternsNeed(s: string)
    requires 'o' !in s && 'z' !in s
    ensures !AnyPattern(s, ColumnMapping[0].1)
  {
    LacksChar(s, "odběratel", 'o');
    LacksChar(s, "odberatel", 'o');
    LacksChar(s, "customer", 'o');
    LacksChar(s, "zakaznik", 'z');
    LacksChar(s, "zákazník", 'z');
  }

  /** every revenue pattern an `o`, a `v`, a `z` or a `b`, */
  lemma RevenuePatternsNeed(s: string)
    requires 'o' !in s && 'v' !in s && 'z' !in s && 'b' !in s
    ensures !AnyPattern(s, ColumnMapping[1].1)
  {
    LacksChar(s, "obrat výdej zboží bez dph", 'o');
    LacksChar(s, "obrat vydej zbozi bez dph", 'o');
    LacksChar(s, "obrat", 'o');
    LacksChar(s, "revenue", 'v');
    LacksChar(s, "tržby", 'b');
    LacksChar(s, "trzby", 'z');
    LacksChar(s, "bez dph", 'z');
    LacksChar(s, "bez_dph", 'z');
    LacksChar(s, "obrat/výdej", 'o');
    LacksChar(s, "obrat/vydej", 'o');
  }

  /** every profit pattern a `z`, an `o` or a `v` */
  lemma ProfitPatternsNeed(s: string)
    requires 'o' !in s && 'v' !in s && 'z' !in s
    ensures !AnyPattern(s, ColumnMapping[2].1)
  {
    LacksChar(s, "zisk", 'z');
    LacksChar(s, "profit", 'o');
    LacksChar(s, "výsledek", 'v');
    LacksChar(s, "vysledek", 'v');
    LacksChar(s, "zisk výdej", 'z');
    LacksChar(s, "zisk vydej", 'z');
  }

  /** and every margin pattern an `m`. */
  lemma MarginPatternsNeed(s: string)
    requires 'm' !in s
    ensures !AnyPattern(s, ColumnMapping[3].1)
  {
    LacksChar(s, "marže %", 'm');
    LacksChar(s, "marze %", 'm');
    LacksChar(s, "marže", 'm');
    LacksChar(s, "marze", 'm');
    LacksChar(s, "margin", 'm');
    LacksChar(s, "margin %", 'm');
    LacksChar(s, "margin%", 'm');
    LacksChar(s, "marže/výdej", 'm');
    LacksChar(s, "marze/vydej", 'm');
  }

  /** `__parsed_extra` is its own normal form and has none of `o`, `z`,
      `v`, `m`, `b`, */
  lemma ParsedExtraChars()
    ensures NormalizeHeader(ParsedExtraKey) == ParsedExtraKey
    ensures 'o' !in ParsedExtraKey && 'z' !in ParsedExtraKey && 'v' !in ParsedExtraKey
    ensures 'm' !in ParsedExtraKey && 'b' !in ParsedExtraKey
  {
    var key := ParsedExtraKey;
    forall i | 0 <= i < |key|
      ensures IsHeaderChar(key[i])
      ensures key[i] != 'o' && key[i] != 'z' && key[i] != 'v' && key[i] != 'm' && key[i] != 'b'
    {
    }
    NormalizeHeaderOfNormal(key);
  }

  /** so it stands for no field. */
  lemma ParsedExtraUnmapped()
    ensures HeaderField(ColumnMapping, ParsedExtraKey) == None
  {
    var key := ParsedExtraKey;
    ParsedExtraChars();
    CustomerPatternsNeed(key);
    RevenuePatternsNeed(key);
    ProfitPatternsNeed(key);
    MarginPatternsNeed(key);
  }

  /** Every column the mapping of a CSV file picks is a field of the header
      line that the first data line has a value for, so reading the column
      by position reads the value Papa Parse filed under that field's name;
      the `__parsed_extra` key is never picked. */
  lemma CsvColumnsWithinFields(table: CsvTable, f: CustomerField)
    requires f in ColumnsOf(ColumnMapping, CsvHeaders(table))
    ensures table.records != []
    ensures ColumnsOf(ColumnMapping, CsvHeaders(table))[f] < |table.fields|
    ensures ColumnsOf(ColumnMapping, CsvHeaders(table))[f] < |table.records[0]|
  {
    var headers := CsvHeaders(table);
    ColumnsOfSpec(ColumnMapping, headers, f);
    var k := ColumnsOf(ColumnMapping, headers)[f];
    var first := table.records[0];
    var n := if |first| < |table.fields| then |first| else |table.fields|;
    if k >= n {
      assert |first| > |table.fields| && k == n;
      assert headers == table.fields[..n] + [ParsedExtraKey];
      ParsedExtraUnmapped();
      assert false;
    }
  }

  /** The rows `parseCsvFile` returns for the file at `filePath` that
      parses to `table` (`None`: the file cannot be read). */
  function CsvFileRows(filePath: string, table: Option<CsvTable>, numberText: real -> string): (rows: seq<RawRow>)
    ensures table.None? || ParsePeriodFromFilename(filePath).None? ==> rows == []
  {
    if table.None? then []
    else
      var cols := RequiredColumns(ColumnsOf(ColumnMapping, CsvHeaders(table.value)));
      var period := ParsePeriodFromFilename(filePath);
      if cols.None? || period.None? then []
      else Collect(table.value.records, CsvReader(cols.value, period.value, numberText))
  }

  /** A file without a customer or a revenue column gives no rows. */
  lemma MissingColumnsNoRows(filePath: string, sheet: Option<Grid>, table: Option<CsvTable>, numberText: real -> string)
    ensures sheet.Some? && |sheet.value| >= 2 ==>
      var m := ColumnsOf(ColumnMapping, HeaderTexts(sheet.value[0], numberText));
      CustomerCol !in m || RevenueCol !in m ==> ExcelFileRows(filePath, sheet, numberText) == []
    ensures table.Some? ==>
      var m := ColumnsOf(ColumnMapping, CsvHeaders(table.value));
      CustomerCol !in m || RevenueCol !in m ==> CsvFileRows(filePath, table, numberText) == []
  {
  }

  /** Every row of an Excel file is valid and carries the period of the
      file's path, */
  lemma ExcelRowsValid(filePath: string, sheet: Option<Grid>, numberText: real -> string, r: RawRow)
    requires r in ExcelFileRows(filePath, sheet, numberText)
    ensures RawRowValid(r)
    ensures ParsePeriodFromFilename(filePath) == Some(r.period)
  {
    var period := ParsePeriodFromFilename(filePath).value;
    var g := sheet.value;
    var cols := RequiredColumns(ColumnsOf(ColumnMapping, HeaderTexts(g[0], numberText))).value;
    var f := ExcelReader(cols, period, numberText);
    assert r in Collect(g[1..], f);
    CollectMember(g[1..], f, r);
    var i :| 0 <= i < |g[1..]| && f(g[1..][i]) == Some(r);
    assert Validated(ReadRow(g[1..][i], cols, period, numberText)) == Some(r);
  }

  /** and so is every row of a CSV file. */
  lemma CsvRowsValid(filePath: string, table: Option<CsvTable>, numberText: real -> string, r: RawRow)
    requires r in CsvFileRows(filePath, table, numberText)
    ensures RawRowValid(r)
    ensures ParsePeriodFromFilename(filePath) == Some(r.period)
  {
    var period := ParsePeriodFromFilename(filePath).value;
    var t := table.value;
    var cols := RequiredColumns(ColumnsOf(ColumnMapping, CsvHeaders(t))).value;
    var f := CsvReader(cols, period, numberText);
    assert r in Collect(t.records, f);
    CollectMember(t.records, f, r);
    var i :| 0 <= i < |t.records| && f(t.records[i]) == Some(r);
    assert Validated(ReadRow(RecordCells(t.records[i]), cols, period, numberText)) == Some(r);
  }

  /** The row the body of the row loop of `parseExcelFile` adds, if any. */
  method ReadExcelRow(row: seq<Cell>, cols: CustomerColumns, period: string, numberText: real -> string)
    returns (r: Option<RawRow>)
    ensures r == ExcelRowOf(row, cols, period, numberText)
  {
    r := None;
    if |row| != 0 {
      var rawRow := ReadRow(row, cols, period, numberText);
      if rawRow.Some? && RawRowValid(rawRow.value) {
        r := rawRow;
      }
    }
  }

  /** The row loop of `parseExcelFile` over the data rows, the rows after
      the header. */
  method ReadExcelRows(jsonData: Grid, cols: CustomerColumns, period: string, numberText: real -> string)
    returns (rows: seq<RawRow>)
    requires |jsonData| >= 1
    ensures rows == Collect(jsonData[1..], ExcelReader(cols, period, numberText))
  {
    ghost var f := ExcelReader(cols, period, numberText);
    rows := [];
    var i := 1;
    assert jsonData[1..1] == [];
    while i < |jsonData|
      invariant CollectedAt(jsonData, f, 1, i, rows)
    {
      var r := ReadExcelRow(jsonData[i], cols, period, numberText);
      CollectedStep(jsonData, f, 1, i, rows);
      assert r == f(jsonData[i]);
      if r.Some? {
        rows := rows + [r.value];
      }
      i := i + 1;
    }
    CollectedEnd(jsonData, f, 1, rows);
  }

  /** The columns of a mapping that has the two required fields. */
  method ColumnsFrom(mapping: map<CustomerField, nat>) returns (cols: CustomerColumns)
    requires CustomerCol in mapping && RevenueCol in mapping
    ensures RequiredColumns(mapping) == Some(cols)
  {
    var profit := if ProfitCol in mapping then Some(mapping[ProfitCol]) else None;
    var marginPct := if MarginPctCol in mapping then Some(mapping[MarginPctCol]) else None;
    cols := CustomerColumns(mapping[CustomerCol], mapping[RevenueCol], profit, marginPct);
  }

  /** `parseExcelFile`. */
  method ParseExcelFile(filePath: string, sheet: Option<Grid>, numberText: real -> string) returns (rows: seq<RawRow>)
    ensures rows == ExcelFileRows(filePath, sheet, numberText)
  {
    if sheet.None? {
      return [];
    }
    var jsonData := sheet.value;
    if |jsonData| < 2 {
      return [];
    }
    var headers := HeaderTexts(jsonData[0], numberText);
    var mapping := MapColumns(ColumnMapping, headers);
    if CustomerCol !in mapping || RevenueCol !in mapping {
      return [];
    }
    var period := ParsePeriodFromFilename(filePath);
    if period.None? {
      return [];
    }
    var cols := ColumnsFrom(mapping);
    rows := ReadExcelRows(jsonData, cols, period.value, numberText);
  }

  /** The row the callback of the `forEach` of `parseCsvFile` adds, if
      any. */
  method ReadCsvRecord(record: seq<string>, cols: CustomerColumns, period: string, numberText: real -> string)
    returns (r: Option<RawRow>)
    ensures r == CsvRowOf(record, cols, period, numberText)
  {
    r := None;
    var rawRow := ReadRow(RecordCells(record), cols, period, numberText);
    if rawRow.Some? && RawRowValid(rawRow.value) {
      r := rawRow;
    }
  }

  /** The `forEach` of `parseCsvFile` over the records. */
  method ReadCsvRecords(records: seq<seq<string>>, cols: CustomerColumns, period: string, numberText: real -> string)
    returns (rows: seq<RawRow>)
    ensures rows == Collect(records, CsvReader(cols, period, numberText))
  {
    ghost var f := CsvReader(cols, period, numberText);
    rows := [];
    var index := 0;
    assert records[0..0] == [];
    while index < |records|
      invariant CollectedAt(records, f, 0, index, rows)
    {
      CollectedStep(records, f, 0, index, rows);
      var r := ReadCsvRecord(records[index], cols, period, numberText);
      if r.Some? {
        rows := rows + [r.value];
      }
      index := index + 1;
    }
    CollectedEnd(records, f, 0, rows);
    assert records[0..] == records;
  }

  /** `parseCsvFile`. */
  method ParseCsvFile(filePath: string, table: Option<CsvTable>, numberText: real -> string) returns (rows: seq<RawRow>)
    ensures rows == CsvFileRows(filePath, table, numberText)
  {
    if table.None? {
      return [];
    }
    var results := table.value;
    var headers := CsvHeaders(results);
    var mapping := MapColumns(ColumnMapping, headers);
    if CustomerCol !in mapping || RevenueCol !in mapping {
      return [];
    }
    var period := ParsePeriodFromFilename(filePath);
    if period.None? {
      return [];
    }
    var cols := ColumnsFrom(mapping);
    rows := ReadCsvRecords(results.records, cols, period.value, numberText);
  }

  // ---------------------------------------------------------------------
  // The directory
  // ---------------------------------------------------------------------

  predicate IsSheetFile(file: string) { HasExtension(file, [".xls", ".xlsx", ".csv"]) }
  predicate IsExcelFile(file: string) { HasExtension(file, [".xls", ".xlsx"]) }
  predicate IsCsvFile(file: string) { HasExtension(file, [".csv"]) }

  /** `listFiles`: the names ending in `.xls`, `.xlsx` or `.csv`, whatever
      their case, in listing order. */
  function ListFiles(listing: seq<string>): (files: seq<string>)
    ensures forall f :: f in files <==> f in listing && IsSheetFile(f)
  {
    forall f ensures f in Filter(listing, IsSheetFile) <==> f in listing && IsSheetFile(f) {
      FilterMember(listing, IsSheetFile, f);
    }
    Filter(listing, IsSheetFile)
  }

  /** The rows a listed file yields: an Excel file's or a CSV file's rows
      read from its path under `dir`. */
  function FileRows(dir: string, excel: string -> Option<Grid>, csv: string -> Option<CsvTable>,
                    numberText: real -> string, file: string): seq<RawRow> {
    var filePath := JoinPath(dir, file);
    if IsExcelFile(file) then ExcelFileRows(filePath, excel(filePath), numberText)
    else if IsCsvFile(file) then CsvFileRows(filePath, csv(filePath), numberText)
    else []
  }

  function FileRowsIn(dir: string, excel: string -> Option<Grid>, csv: string -> Option<CsvTable>,
                      numberText: real -> string): string -> seq<RawRow> {
    file => FileRows(dir, excel, csv, numberText, file)
  }

  /** A file that yields rows. */
  function YieldsRows(dir: string, excel: string -> Option<Grid>, csv: string -> Option<CsvTable>,
                      numberText: real -> string): string -> bool {
    NonEmptyOf(FileRowsIn(dir, excel, csv, numberText))
  }

  /** The rows of all files, in listing order. */
  function AllRows(dir: string, listing: seq<string>, excel: string -> Option<Grid>, csv: string -> Option<CsvTable>,
                   numberText: real -> string): seq<RawRow> {
    ConcatMap(ListFiles(listing), FileRowsIn(dir, excel, csv, numberText))
  }

  /** What `ingestDirectory` returns: the empty data set without sheet
      files, otherwise the aggregate of all rows. */
  function IngestSpec(dir: string, listing: seq<string>, excel: string -> Option<Grid>, csv: string -> Option<CsvTable>,
                      numberText: real -> string, generatedAt: string): (d: AggregatedData)
    ensures ListFiles(listing) == [] ==> d == AggregatedData([], [], generatedAt)
  {
    if ListFiles(listing) == [] then AggregatedData([], [], generatedAt)
    else AggregateSpec(AllRows(dir, listing, excel, csv, numberText), generatedAt)
  }

  /** The rows of one listed file, read with the parser its extension
      selects. */
  method ReadFile(dir: string, file: string, excel: string -> Option<Grid>, csv: string -> Option<CsvTable>,
                  numberText: real -> string) returns (rows: seq<RawRow>)
    ensures rows == FileRowsIn(dir, excel, csv, numberText)(file)
  {
    var filePath := JoinPath(dir, file);
    rows := [];
    if IsExcelFile(file) {
      rows := ParseExcelFile(filePath, excel(filePath), numberText);
    } else if IsCsvFile(file) {
      rows := ParseCsvFile(filePath, csv(filePath), numberText);
    }
  }

  /** `ingestDirectory`, also returning the `processedFiles` it logs. */
  method IngestDirectory(dir: string, listing: seq<string>, excel: string -> Option<Grid>, csv: string -> Option<CsvTable>,
                         numberText: real -> string, generatedAt: string)
    returns (data: AggregatedData, processedFiles: seq<string>)
    ensures data == IngestSpec(dir, listing, excel, csv, numberText, generatedAt)
    ensures processedFiles == Filter(ListFiles(listing), YieldsRows(dir, excel, csv, numberText))
  {
    var files := ListFiles(listing);
    if |files| == 0 {
      return AggregatedData([], [], generatedAt), [];
    }
    ghost var f := FileRowsIn(dir, excel, csv, numberText);
    var allRows: seq<RawRow> := [];
    processedFiles := [];
    var i := 0;
    while i < |files|
      invariant BatchesAt(files, f, i, allRows, processedFiles)
    {
      BatchesStep(files, f, i, allRows, processedFiles);
      var rows := ReadFile(dir, files[i], excel, csv, numberText);
      if |rows| > 0 {
        allRows := allRows + rows;
        processedFiles := processedFiles + [files[i]];
      }
      i := i + 1;
    }
    BatchesEnd(files, f, allRows, processedFiles);
    data := AggregateData(allRows, generatedAt);
  }

  // ---------------------------------------------------------------------
  // Properties of the directory ingest
  // ---------------------------------------------------------------------

  /** Every row gathered comes from a listed sheet file, is valid, and
      carries the period parsed from that file's joined path. */
  lemma AllRowsFromFiles(dir: string, listing: seq<string>, excel: string -> Option<Grid>, csv: string -> Option<CsvTable>,
                         numberText: real -> string, r: RawRow)
    requires r in AllRows(dir, listing, excel, csv, numberText)
    ensures RawRowValid(r)
    ensures exists f :: f in listing && IsSheetFile(f) && ParsePeriodFromFilename(JoinPath(dir, f)) == Some(r.period)
  {
    var files := ListFiles(listing);
    ConcatMapMember(files, FileRowsIn(dir, excel, csv, numberText), r);
    var i :| 0 <= i < |files| && r in FileRowsIn(dir, excel, csv, numberText)(files[i]);
    var f := files[i];
    var p := JoinPath(dir, f);
    assert r in FileRows(dir, excel, csv, numberText, f);
    if IsExcelFile(f) {
      ExcelRowsValid(p, excel(p), numberText, r);
    } else {
      CsvRowsValid(p, csv(p), numberText, r);
    }
    assert f in listing && IsSheetFile(f);
  }

  /** A file counts as processed exactly when it is a listed sheet file
      that yields at least one row. */
  lemma ProcessedFiles(dir: string, listing: seq<string>, excel: string -> Option<Grid>, csv: string -> Option<CsvTable>,
                       numberText: real -> string, f: string)
    ensures f in Filter(ListFiles(listing), YieldsRows(dir, excel, csv, numberText))
      <==> f in listing && IsSheetFile(f) && FileRows(dir, excel, csv, numberText, f) != []
  {
    FilterMember(ListFiles(listing), YieldsRows(dir, excel, csv, numberText), f);
  }

  /** When no listed file yields a row the result is the empty data set,
      whatever was listed. */
  lemma IngestNothingRead(dir: string, listing: seq<string>, excel: string -> Option<Grid>, csv: string -> Option<CsvTable>,
                          numberText: real -> string, generatedAt: string)
    requires forall f :: f in listing && IsSheetFile(f) ==> FileRows(dir, excel, csv, numberText, f) == []
    ensures IngestSpec(dir, listing, excel, csv, numberText, generatedAt) == AggregatedData([], [], generatedAt)
  {
    var files := ListFiles(listing);
    ConcatMapEmpty(files, FileRowsIn(dir, excel, csv, numberText));
  }

  /** The ingest aggregates exactly the rows of the files: its customers
      are the customers of those rows. */
  lemma IngestCustomers(dir: string, listing: seq<string>, excel: string -> Option<Grid>, csv: string -> Option<CsvTable>,
                        numberText: real -> string, generatedAt: string, n: string)
    ensures Named(IngestSpec(dir, listing, excel, csv, numberText, generatedAt).customers, n)
      <==> HasCustomer(AllRows(dir, listing, excel, csv, numberText), n)
  {
    var rows := AllRows(dir, listing, excel, csv, numberText);
    AggregateUnique(rows, generatedAt);
    if ListFiles(listing) == [] {
      assert rows == [];
    }
  }

  // ---------------------------------------------------------------------
  // Patterns that cannot match
  // ---------------------------------------------------------------------

  /** The characters that make the patterns below dead. */
  lemma NonHeaderChars()
    ensures !IsHeaderChar(' ') && !IsHeaderChar('ě') && !IsHeaderChar('á') && !IsHeaderChar('ž') && !IsHeaderChar('ý')
  {
  }

  /** Several column patterns hold a space or an accented letter, which
      a normalised header never contains, so they never match: those of
      the customer column, */
  lemma DeadCustomerPatterns(header: string)
    ensures var h := NormalizeHeader(header);
      !Contains(h, "odběratel") && !Contains(h, "zákazník")
  {
    NonHeaderChars();
    DeadPattern(header, "odběratel", 'ě');
    DeadPattern(header, "zákazník", 'á');
  }

  /** of the revenue column, */
  lemma DeadRevenuePatterns(header: string)
    ensures var h := NormalizeHeader(header);
      && !Contains(h, "obrat výdej zboží bez dph")
      && !Contains(h, "obrat vydej zbozi bez dph")
      && !Contains(h, "tržby")
      && !Contains(h, "bez dph")
      && !Contains(h, "obrat/výdej")
  {
    NonHeaderChars();
    DeadPattern(header, "obrat výdej zboží bez dph", ' ');
    DeadPattern(header, "obrat vydej zbozi bez dph", ' ');
    DeadPattern(header, "tržby", 'ž');
    DeadPattern(header, "bez dph", ' ');
    DeadPattern(header, "obrat/výdej", 'ý');
  }

  /** of the profit column */
  lemma DeadProfitPatterns(header: string)
    ensures var h := NormalizeHeader(header);
      !Contains(h, "výsledek") && !Contains(h, "zisk výdej") && !Contains(h, "zisk vydej")
  {
    NonHeaderChars();
    DeadPattern(header, "výsledek", 'ý');
    DeadPattern(header, "zisk výdej", ' ');
    DeadPattern(header, "zisk vydej", ' ');
  }

  /** and of the margin column. */
  lemma DeadMarginPatterns(header: string)
    ensures var h := NormalizeHeader(header);
      && !Contains(h, "marže %")
      && !Contains(h, "marze %")
      && !Contains(h, "marže")
      && !Contains(h, "margin %")
      && !Contains(h, "marže/výdej")
  {
    NonHeaderChars();
    DeadPattern(header, "marže %", ' ');
    DeadPattern(header, "marze %", ' ');
    DeadPattern(header, "marže", 'ž');
    DeadPattern(header, "margin %", ' ');
    DeadPattern(header, "marže/výdej", 'ž');
  }

  /** The file `01_2024.xlsx` of the default directory yields no rows: the
      period is read from the joined path `data/dvur/01_2024.xlsx`, which
      has none. */
  lemma DefaultDirectoryFileName(sheet: Option<Grid>, numberText: real -> string)
    ensures ExcelFileRows(JoinPath(DataDir, "01_2024.xlsx"), sheet, numberText) == []
  {
    DefaultFilePath();
    PeriodOfJoinedPathExample();
  }

  lemma DefaultFilePath()
    ensures JoinPath(DataDir, "01_2024.xlsx") == "data/dvur/01_2024.xlsx"
  {
    var p := JoinPath(DataDir, "01_2024.xlsx");
    assert p == "data/dvur/01_2024.xlsx" by {
      assert p == DataDir + "/" + "01_2024.xlsx";
      assert |p| == 22;
      assert forall i :: 0 <= i < 9 ==> p[i] == DataDir[i];
      assert p[9] == '/';
      assert forall i :: 10 <= i < 22 ==> p[i] == "01_2024.xlsx"[i - 10];
    }
  }
}
