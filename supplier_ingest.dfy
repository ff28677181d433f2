/** The supplier pipeline: reading the first sheet of each supplier
    workbook of a directory, validating its rows and aggregating them into
    one summary per supplier, with the supplier's own slug rule and an
    abbreviation of its name.

    As for the customer pipeline, decoding is outside the model: a
    workbook's first sheet arrives as a grid of cells (`None` when the
    file cannot be read or has no sheet) and a directory as the list of
    names `readdir` returns. */
module SupplierIngest {
  import opened Base
  import opened Chars
  import opened Text
  import opened Sorting
  import opened Format
  import opened NumberCz
  import opened Types
  import opened Config
  import opened Columns
  import opened Slugs

  // ---------------------------------------------------------------------
  // Rows
  // ---------------------------------------------------------------------

  /** `RawSupplierRowSchema`: a non-empty supplier, turnover and items at
      least 0 and a `YYYY-MM` period. */
  predicate RawSupplierRowValid(r: RawSupplierRow) {
    && |r.supplier| >= 1
    && r.turnover >= 0.0
    && r.items >= 0.0
    && MatchesPeriodRegex(r.period)
  }

  /** The column indices of the three fields; items may be unmapped. */
  datatype SupplierColumns = SupplierColumns(supplier: nat, turnover: nat, items: Option<nat>)

  /** The columns of a mapping, `None` when the supplier or the turnover
      column is missing. */
  function RequiredSupplierColumns(mapping: map<SupplierField, nat>): (r: Option<SupplierColumns>)
    ensures r.None? <==> SupplierCol !in mapping || TurnoverCol !in mapping
  {
    if SupplierCol !in mapping || TurnoverCol !in mapping then None
    else Some(SupplierColumns(mapping[SupplierCol], mapping[TurnoverCol],
      if ItemsCol in mapping then Some(mapping[ItemsCol]) else None))
  }

  /** One data row read through the columns, before validation; `None`
      when the trimmed supplier cell is empty and the row is skipped.
      Numbers go through `parseNumberCz(String(cell || 0))`; items are 0
      without an items column. */
  function ReadSupplierRow(row: seq<Cell>, cols: SupplierColumns, period: string, numberText: real -> string)
    : (r: Option<RawSupplierRow>)
    ensures var supplier := Trim(CellText(CellAt(row, cols.supplier), numberText));
      && (r.None? <==> supplier == "")
      && (r.Some? ==> r.value.supplier == supplier && r.value.period == period)
      && (r.Some? ==> r.value.turnover == CellNumberViaText(CellAt(row, cols.turnover), numberText))
      && (r.Some? && cols.items.None? ==> r.value.items == 0.0)
      && (r.Some? && cols.items.Some? ==> r.value.items == CellNumberViaText(CellAt(row, cols.items.value), numberText))
  {
    var supplier := Trim(CellText(CellAt(row, cols.supplier), numberText));
    if supplier == "" then None
    else
      var turnover := CellNumberViaText(CellAt(row, cols.turnover), numberText);
      var items := if cols.items.Some? then CellNumberViaText(CellAt(row, cols.items.value), numberText) else 0.0;
      Some(RawSupplierRow(supplier, turnover, items, period))
  }

  /** The row a data row contributes: none for an empty row, and none when
      the schema rejects it. */
  function SupplierRowOf(row: seq<Cell>, cols: SupplierColumns, period: string, numberText: real -> string)
    : Option<RawSupplierRow>
  {
    if |row| == 0 then None
    else
      var raw := ReadSupplierRow(row, cols, period, numberText);
      if raw.Some? && RawSupplierRowValid(raw.value) then raw else None
  }

  function SupplierReader(cols: SupplierColumns, period: string, numberText: real -> string)
    : seq<Cell> -> Option<RawSupplierRow>
  {
    (row: seq<Cell>) => SupplierRowOf(row, cols, period, numberText)
  }

  /** With a period from a file name, a non-empty row is kept exactly when
      its supplier is not blank and its turnover and items are at least
      0. */
  lemma SupplierRowKept(row: seq<Cell>, cols: SupplierColumns, period: string, numberText: real -> string)
    requires IsMonthId(period) && |row| > 0
    ensures var items := if cols.items.Some? then CellNumberViaText(CellAt(row, cols.items.value), numberText) else 0.0;
      SupplierRowOf(row, cols, period, numberText).Some? <==>
        && Trim(CellText(CellAt(row, cols.supplier), numberText)) != ""
        && CellNumberViaText(CellAt(row, cols.turnover), numberText) >= 0.0
        && items >= 0.0
  {
    MonthIdMatchesRegex(period);
  }

  /** The supplier patterns with an accented letter never match a
      normalised header, which has none: `název`, `tržby`, `částka`,
      `položky`, `počet` and `množství` are dead, and their plain
      spellings do the work. */
  lemma DeadSupplierPatterns(header: string)
    ensures var h := NormalizeHeader(header);
      && !Contains(h, "název") && !Contains(h, "tržby") && !Contains(h, "částka")
      && !Contains(h, "položky") && !Contains(h, "počet") && !Contains(h, "množství")
  {
    assert !IsHeaderChar('á') && !IsHeaderChar('ž') && !IsHeaderChar('č');
    DeadPattern(header, "název", 'á');
    DeadPattern(header, "tržby", 'ž');
    DeadPattern(header, "částka", 'č');
    DeadPattern(header, "položky", 'ž');
    DeadPattern(header, "počet", 'č');
    DeadPattern(header, "množství", 'ž');
  }

  // ---------------------------------------------------------------------
  // One file
  // ---------------------------------------------------------------------

  /** The rows `parseSupplierExcelFile` returns for the file at `filePath`
      whose first sheet decodes to `sheet`. The period is read from the
      bare file name, after the last `/`. */
  function SupplierFileRows(filePath: string, sheet: Option<Grid>, numberText: real -> string)
    : (rows: seq<RawSupplierRow>)
    ensures sheet.None? || |sheet.value| < 2 || ParsePeriodFromFilename(BaseName(filePath)).None? ==> rows == []
  {
    if sheet.None? || |sheet.value| < 2 then []
    else
      var jsonData := sheet.value;
      var cols := RequiredSupplierColumns(ColumnsOf(SupplierColumnMapping, HeaderTexts(jsonData[0], numberText)));
      var period := ParsePeriodFromFilename(BaseName(filePath));
      if cols.None? || period.None? then []
      else Collect(jsonData[1..], SupplierReader(cols.value, period.value, numberText))
  }

  /** A file without a supplier or a turnover column gives no rows. */
  lemma SupplierMissingColumnsNoRows(filePath: string, sheet: Option<Grid>, numberText: real -> string)
    requires sheet.Some? && |sheet.value| >= 2
    requires var m := ColumnsOf(SupplierColumnMapping, HeaderTexts(sheet.value[0], numberText));
      SupplierCol !in m || TurnoverCol !in m
    ensures SupplierFileRows(filePath, sheet, numberText) == []
  {
  }

  /** Every row of a file is valid and carries the period of the file's
      bare name. */
  lemma SupplierFileRowsValid(filePath: string, sheet: Option<Grid>, numberText: real -> string, r: RawSupplierRow)
    requires r in SupplierFileRows(filePath, sheet, numberText)
    ensures RawSupplierRowValid(r)
    ensures ParsePeriodFromFilename(BaseName(filePath)) == Some(r.period)
  {
    var period := ParsePeriodFromFilename(BaseName(filePath)).value;
    var g := sheet.value;
    var cols := RequiredSupplierColumns(ColumnsOf(SupplierColumnMapping, HeaderTexts(g[0], numberText))).value;
    var f := SupplierReader(cols, period, numberText);
    assert r in Collect(g[1..], f);
    CollectMember(g[1..], f, r);
    var i :| 0 <= i < |g[1..]| && f(g[1..][i]) == Some(r);
    assert SupplierRowOf(g[1..][i], cols, period, numberText) == Some(r);
  }

  /** The directory a file is read from does not matter, unlike for the
      customer files: only the name after the last `/` is parsed. */
  lemma SupplierPeriodIgnoresDirectory(dir: string, file: string, sheet: Option<Grid>, numberText: real -> string)
    requires '/' !in file
    ensures SupplierFileRows(JoinPath(dir, file), sheet, numberText) == SupplierFileRows(file, sheet, numberText)
  {
    BaseNameOfJoin(dir, file);
  }

  /** The row the body of the row loop adds, if any. */
  method ReadSupplierExcelRow(row: seq<Cell>, cols: SupplierColumns, period: string, numberText: real -> string)
    returns (r: Option<RawSupplierRow>)
    ensures r == SupplierRowOf(row, cols, period, numberText)
  {
    r := None;
    if |row| != 0 {
      var rawRow := ReadSupplierRow(row, cols, period, numberText);
      if rawRow.Some? && RawSupplierRowValid(rawRow.value) {
        r := rawRow;
      }
    }
  }

  /** The row loop of `parseSupplierExcelFile` over the rows after the
      header. */
  method ReadSupplierRows(jsonData: Grid, cols: SupplierColumns, period: string, numberText: real -> string)
    returns (rows: seq<RawSupplierRow>)
    requires |jsonData| >= 1
    ensures rows == Collect(jsonData[1..], SupplierReader(cols, period, numberText))
  {
    ghost var f := SupplierReader(cols, period, numberText);
    rows := [];
    var i := 1;
    assert jsonData[1..1] == [];
    while i < |jsonData|
      invariant CollectedAt(jsonData, f, 1, i, rows)
    {
      CollectedStep(jsonData, f, 1, i, rows);
      var r := ReadSupplierExcelRow(jsonData[i], cols, period, numberText);
      if r.Some? {
        rows := rows + [r.value];
      }
      i := i + 1;
    }
    CollectedEnd(jsonData, f, 1, rows);
  }

  /** The columns of a mapping that has the two required fields. */
  method SupplierColumnsFrom(mapping: map<SupplierField, nat>) returns (cols: SupplierColumns)
    requires SupplierCol in mapping && TurnoverCol in mapping
    ensures RequiredSupplierColumns(mapping) == Some(cols)
  {
    var items := if ItemsCol in mapping then Some(mapping[ItemsCol]) else None;
    cols := SupplierColumns(mapping[SupplierCol], mapping[TurnoverCol], items);
  }

  /** `parseSupplierExcelFile`. */
  method ParseSupplierExcelFile(filePath: string, sheet: Option<Grid>, numberText: real -> string)
    returns (rows: seq<RawSupplierRow>)
    ensures rows == SupplierFileRows(filePath, sheet, numberText)
  {
    if sheet.None? {
      return [];
    }
    var jsonData := sheet.value;
    if |jsonData| < 2 {
      return [];
    }
    var headers := HeaderTexts(jsonData[0], numberText);
    var mapping := MapColumns(SupplierColumnMapping, headers);
    if SupplierCol !in mapping || TurnoverCol !in mapping {
      return [];
    }
    var filename := BaseName(filePath);
    var period := ParsePeriodFromFilename(filename);
    if period.None? {
      return [];
    }
    var cols := SupplierColumnsFrom(mapping);
    rows := ReadSupplierRows(jsonData, cols, period.value, numberText);
  }

  // ---------------------------------------------------------------------
  // Slug and abbreviation
  // ---------------------------------------------------------------------

  /** The characters `[^a-z0-9\s]` does not delete. */
  predicate IsSupplierSlugSource(c: char) { IsAsciiLower(c) || IsDigit(c) || IsWhitespace(c) }

  predicate NotSupplierSlugSource(c: char) { !IsSupplierSlugSource(c) }

  /** The longest supplier slug, `substring(0, 50)`. */
  const MaxSupplierSlug: nat := 50

  /** The supplier slug before it is cut to length: lower-cased, with
      every character outside `a-z`, `0-9` and whitespace deleted (accented
      letters and hyphens included), and each whitespace run made into one
      `-`. */
  function SupplierSlugUncut(name: string): (r: string)
    ensures forall c :: c in r ==> IsAsciiLower(c) || IsDigit(c) || c == '-'
    ensures NoDoubleHyphen(r)
  {
    var kept := Remove(LowerStr(name), NotSupplierSlugSource);
    RemoveChars(LowerStr(name), NotSupplierSlugSource);
    DashedNoDoubleHyphen(kept);
    WhitespaceRunsToHyphen(kept)
  }

  /** `createSupplierSlug`: the first 50 characters of the uncut slug. */
  function CreateSupplierSlug(name: string): (r: string)
    ensures |r| == if |SupplierSlugUncut(name)| <= MaxSupplierSlug then |SupplierSlugUncut(name)| else MaxSupplierSlug
    ensures StartsWith(SupplierSlugUncut(name), r)
    ensures forall c :: c in r ==> IsAsciiLower(c) || IsDigit(c) || c == '-'
    ensures NoDoubleHyphen(r)
  {
    var full := SupplierSlugUncut(name);
    var r := if |full| <= MaxSupplierSlug then full else full[..MaxSupplierSlug];
    assert forall i :: 0 <= i < |r| ==> r[i] == full[i];
    r
  }

  /** Turning whitespace runs into `-` in a text without `-` leaves no two
      neighbouring hyphens. */
  lemma {:induction false} DashedNoDoubleHyphen(s: string)
    requires '-' !in s
    ensures NoDoubleHyphen(WhitespaceRunsToHyphen(s))
    decreases |s|
  {
    if s != [] {
      var r := WhitespaceRunsToHyphen(s);
      if IsWhitespace(s[0]) {
        var n := LeadingWhitespace(s);
        var rest := WhitespaceRunsToHyphen(s[n..]);
        assert forall c :: c in s[n..] ==> c in s;
        DashedNoDoubleHyphen(s[n..]);
        assert rest != [] ==> rest[0] == s[n];
        assert r == "-" + rest;
        assert forall i :: 1 <= i < |r| ==> r[i] == rest[i - 1];
      } else {
        var rest := WhitespaceRunsToHyphen(s[1..]);
        assert forall c :: c in s[1..] ==> c in s;
        DashedNoDoubleHyphen(s[1..]);
        assert r == [s[0]] + rest;
        assert forall i :: 1 <= i < |r| ==> r[i] == rest[i - 1];
      }
    }
  }

  /** A name made only of `a-z` and `0-9` is its own slug, cut to 50
      characters. */
  lemma PlainNameSlug(name: string)
    requires forall c :: c in name ==> IsAsciiLower(c) || IsDigit(c)
    ensures CreateSupplierSlug(name) == if |name| <= MaxSupplierSlug then name else name[..MaxSupplierSlug]
  {
    assert All(name, IsLowerFixed);
    LowerFixed(name);
    RemoveAbsent(name, NotSupplierSlugSource);
    WhitespaceRunsToHyphenNoWhitespace(name);
  }

  /** A `-` in a supplier slug only ever stands for whitespace of the
      name: a name without whitespace gives a slug without `-`. */
  lemma SlugHyphensFromWhitespace(name: string)
    requires forall c :: c in name ==> !IsWhitespace(c)
    ensures '-' !in CreateSupplierSlug(name)
  {
    var lowered := LowerStr(name);
    forall c | c in lowered ensures !IsWhitespace(c) {
      var i :| 0 <= i < |lowered| && lowered[i] == c;
      LowerFacts(name[i]);
    }
    var kept := Remove(lowered, NotSupplierSlugSource);
    RemoveChars(lowered, NotSupplierSlugSource);
    assert NotSupplierSlugSource('-');
    assert '-' !in kept;
    WhitespaceRunsToHyphenNoWhitespace(kept);
    assert SupplierSlugUncut(name) == kept;
    var r := CreateSupplierSlug(name);
    assert r == kept[..|r|];
    assert forall c :: c in r ==> c in kept;
  }

  /** The first index of `c` in `s`. */
  function IndexOf(s: string, c: char): (i: nat)
    requires c in s
    ensures i < |s| && s[i] == c
    ensures forall j :: 0 <= j < i ==> s[j] != c
  {
    if s[0] == c then 0
    else
      assert c in s[1..];
      var i := IndexOf(s[1..], c);
      assert forall j :: 1 <= j <= i ==> s[j] == s[1..][j - 1];
      i + 1
  }

  /** `s.split(sep)` for a one-character separator: the pieces between
      the separators, empty ones included. */
  function Split(s: string, sep: char): (ws: seq<string>)
    ensures |ws| >= 1
    ensures forall k :: 0 <= k < |ws| ==> sep !in ws[k]
    decreases |s|
  {
    if sep !in s then [s]
    else
      var i := IndexOf(s, sep);
      var ws := [s[..i]] + Split(s[i + 1..], sep);
      assert forall k :: 1 <= k < |ws| ==> ws[k] == Split(s[i + 1..], sep)[k - 1];
      ws
  }

  /** `ws.join(sep)`. */
  function Join(ws: seq<string>, sep: char): string
    requires |ws| >= 1
  {
    if |ws| == 1 then ws[0] else ws[0] + [sep] + Join(ws[1..], sep)
  }

  /** Joining the pieces again gives back the text. */
  lemma {:induction false} JoinSplit(s: string, sep: char)
    ensures Join(Split(s, sep), sep) == s
    decreases |s|
  {
    if sep in s {
      var i := IndexOf(s, sep);
      var ws := Split(s, sep);
      var rest := Split(s[i + 1..], sep);
      assert ws == [s[..i]] + rest;
      assert ws[1..] == rest;
      JoinSplit(s[i + 1..], sep);
      assert Join(ws, sep) == s[..i] + [sep] + s[i + 1..];
      assert s == s[..i] + [sep] + s[i + 1..];
    }
  }

  /** Splitting a join of pieces without the separator gives back the
      pieces. */
  lemma {:induction false} SplitJoin(ws: seq<string>, sep: char)
    requires |ws| >= 1 && forall k :: 0 <= k < |ws| ==> sep !in ws[k]
    ensures Split(Join(ws, sep), sep) == ws
    decreases |ws|
  {
    if |ws| > 1 {
      var s := Join(ws, sep);
      assert s == ws[0] + [sep] + Join(ws[1..], sep);
      SplitFirst(ws[0], Join(ws[1..], sep), sep);
      SplitJoin(ws[1..], sep);
      assert ws == [ws[0]] + ws[1..];
    }
  }

  /** The first piece of `a + sep + b` is `a` when `a` has no separator. */
  lemma SplitFirst(a: string, b: string, sep: char)
    requires sep !in a
    ensures Split(a + [sep] + b, sep) == [a] + Split(b, sep)
  {
    var s := a + [sep] + b;
    assert s[|a|] == sep;
    var i := IndexOf(s, sep);
    assert i == |a|;
    assert s[..i] == a && s[i + 1..] == b;
  }

  /** `word.charAt(0).toUpperCase()`: empty for an empty word. */
  function Initial(w: string): string {
    if w == [] then "" else UpperStr(w[0])
  }

  /** The abbreviation: the upper-cased first characters of the first two
      pieces of the name split at single spaces. */
  function Abbreviation(name: string): (r: string)
    ensures var ws := Split(name, ' ');
      r == Initial(ws[0]) + if |ws| >= 2 then Initial(ws[1]) else ""
  {
    var ws := Split(name, ' ');
    var firstTwo := if |ws| >= 2 then ws[..2] else ws;
    assert |ws| >= 2 ==> firstTwo == [ws[0]] + [ws[1]];
    assert ConcatMap(firstTwo[..1], Initial) == Initial(ws[0]) by {
      assert firstTwo[..1] == [ws[0]];
      assert [ws[0]][..0] == [];
    }
    ConcatMap(firstTwo, Initial)
  }

  /** A one-word name abbreviates to its upper-cased first character. */
  lemma AbbreviationOneWord(name: string)
    requires ' ' !in name
    ensures Abbreviation(name) == Initial(name)
  {
  }

  /** A name `a b...` abbreviates to the initials of `a` and of the next
      word, whatever follows. */
  lemma AbbreviationTwoWords(a: string, b: string)
    requires ' ' !in a
    ensures Abbreviation(a + " " + b) == Initial(a) + Initial(Split(b, ' ')[0])
  {
    SplitFirst(a, b, ' ');
    assert a + " " + b == a + [' '] + b;
  }

  // ---------------------------------------------------------------------
  // Aggregation
  // ---------------------------------------------------------------------

  function SupplierOf(r: RawSupplierRow): string { r.supplier }
  function RowPeriod(r: RawSupplierRow): string { r.period }
  function PeriodOf(m: SupplierMonthly): string { m.period }
  function Turnover(m: SupplierMonthly): real { m.turnover }
  function Items(m: SupplierMonthly): real { m.items }

  /** A row as a record of its supplier's series. */
  function ToSupplierMonthly(r: RawSupplierRow): SupplierMonthly {
    SupplierMonthly(r.period, r.turnover, r.items)
  }

  /** The record a row adds to the series of supplier `name`. */
  function OwnRecord(name: string): RawSupplierRow -> Option<SupplierMonthly> {
    (r: RawSupplierRow) => if r.supplier == name then Some(ToSupplierMonthly(r)) else None
  }

  /** The keys of `supplierMap`: every supplier once, in the order of first
      appearance. */
  function SupplierNames(rows: seq<RawSupplierRow>): seq<string> {
    FirstKeys(rows, SupplierOf)
  }

  /** The array `supplierMap` holds for `name`: a record per row of that
      supplier, in row order. */
  function RecordsOf(rows: seq<RawSupplierRow>, name: string): seq<SupplierMonthly> {
    Collect(rows, OwnRecord(name))
  }

  /** The series of `name` holds exactly the records of its rows: no
      month is filled in and records of one period are not merged. */
  lemma RecordsOfMember(rows: seq<RawSupplierRow>, name: string, m: SupplierMonthly)
    ensures m in RecordsOf(rows, name) <==>
      exists i :: 0 <= i < |rows| && rows[i].supplier == name && ToSupplierMonthly(rows[i]) == m
  {
    CollectMember(rows, OwnRecord(name), m);
  }

  /** `Array.from(monthsSet).sort()`: every period of the rows once, in
      increasing order. */
  function SupplierMonthsAvailable(rows: seq<RawSupplierRow>): (ms: seq<string>)
    ensures forall p :: p in ms <==> exists i :: 0 <= i < |rows| && rows[i].period == p
    ensures forall i, j :: 0 <= i < j < |ms| ==> LexLt(ms[i], ms[j])
  {
    LexLeIsTotalOrder();
    var d := FirstKeys(rows, RowPeriod);
    var ms := SortBy(d, Id, LexLe);
    assert DistinctKeys(d, Id);
    DistinctKeysPermutation(d, ms, Id);
    forall p ensures p in ms <==> exists i :: 0 <= i < |rows| && rows[i].period == p {
      assert p in ms <==> p in multiset(d);
      if p in d {
        var i :| 0 <= i < |rows| && RowPeriod(rows[i]) == p;
        assert rows[i].period == p;
      }
      if exists i :: 0 <= i < |rows| && rows[i].period == p {
        var i :| 0 <= i < |rows| && rows[i].period == p;
        assert RowPeriod(rows[i]) == p;
      }
    }
    forall i, j | 0 <= i < j < |ms| ensures LexLt(ms[i], ms[j]) {
      assert LexLe(Id(ms[i]), Id(ms[j])) && Id(ms[i]) != Id(ms[j]);
    }
    ms
  }

  /** `months.sort((a, b) => a.period.localeCompare(b.period))`: a stable
      sort by period. */
  function SortedByPeriod(ms: seq<SupplierMonthly>): (r: seq<SupplierMonthly>)
    ensures multiset(r) == multiset(ms)
    ensures forall i, j :: 0 <= i < j < |r| ==> LexLe(r[i].period, r[j].period)
    ensures forall p :: WithKey(r, PeriodOf, p) == WithKey(ms, PeriodOf, p)
  {
    LexLeIsTotalOrder();
    var r := SortBy(ms, PeriodOf, LexLe);
    assert forall i, j :: 0 <= i < j < |r| ==> LexLe(PeriodOf(r[i]), PeriodOf(r[j]));
    r
  }

  /** `months[0]?.period || null` and `months[months.length - 1]?.period
      || null`. */
  function FirstPeriod(ms: seq<SupplierMonthly>): (r: Option<string>)
    ensures r.Some? <==> ms != [] && ms[0].period != ""
    ensures r.Some? ==> r.value == ms[0].period
  {
    if ms != [] && ms[0].period != "" then Some(ms[0].period) else None
  }

  function LastPeriod(ms: seq<SupplierMonthly>): (r: Option<string>)
    ensures r.Some? <==> ms != [] && ms[|ms| - 1].period != ""
    ensures r.Some? ==> r.value == ms[|ms| - 1].period
  {
    if ms != [] && ms[|ms| - 1].period != "" then Some(ms[|ms| - 1].period) else None
  }

  /** A record whose value of `f` is above 0. */
  function PositiveBy(f: SupplierMonthly -> real): SupplierMonthly -> bool {
    (m: SupplierMonthly) => f(m) > 0.0
  }

  /** The first and the last record with a value of `f` above 0
      (`months.find(...)` and the same on the reversed list). */
  function NonZeroEnds(ms: seq<SupplierMonthly>, f: SupplierMonthly -> real)
    : (r: Option<(SupplierMonthly, SupplierMonthly)>)
    ensures r.None? <==> forall i :: 0 <= i < |ms| ==> f(ms[i]) <= 0.0
    ensures r.Some? ==> f(r.value.0) > 0.0 && f(r.value.1) > 0.0
  {
    var p := Filter(ms, PositiveBy(f));
    FilterEmpty(ms, PositiveBy(f));
    if p == [] then None
    else
      FilterAt(ms, PositiveBy(f), 0);
      FilterAt(ms, PositiveBy(f), |p| - 1);
      Some((p[0], p[|p| - 1]))
  }

  /** The ends are the first and the last positive record. */
  lemma NonZeroEndsAt(ms: seq<SupplierMonthly>, f: SupplierMonthly -> real) returns (i: nat, j: nat)
    requires NonZeroEnds(ms, f).Some?
    ensures i < |ms| && j < |ms| && NonZeroEnds(ms, f) == Some((ms[i], ms[j]))
    ensures forall k :: 0 <= k < i ==> f(ms[k]) <= 0.0
    ensures forall k :: j < k < |ms| ==> f(ms[k]) <= 0.0
  {
    var p := PositiveBy(f);
    var q := Filter(ms, p);
    FilterFirst(ms, p);
    FilterLast(ms, p);
    i :| 0 <= i < |ms| && ms[i] == q[0] && p(ms[i]) && forall k :: 0 <= k < i ==> !p(ms[k]);
    j :| 0 <= j < |ms| && ms[j] == q[|q| - 1] && p(ms[j]) && forall k :: j < k < |ms| ==> !p(ms[k]);
  }

  /** `last.value - first.value`, or 0 without a positive record. */
  function DeltaAbsOf(ends: Option<(SupplierMonthly, SupplierMonthly)>, f: SupplierMonthly -> real): real {
    if ends.Some? then f(ends.value.1) - f(ends.value.0) else 0.0
  }

  /** `(deltaAbs / first.value) * 100`, or `null` without a positive
      record. */
  function DeltaPctOf(ends: Option<(SupplierMonthly, SupplierMonthly)>, f: SupplierMonthly -> real): Option<real> {
    if ends.Some? && f(ends.value.0) > 0.0 then Some(DeltaAbsOf(ends, f) / f(ends.value.0) * 100.0) else None
  }

  /** The supplier trend rule: UP from +5 %, DOWN from -5 % (both
      inclusive), FLAT in between and without a percentage. */
  function SupplierTrend(pct: Option<real>): (t: Trend)
    ensures t == Up <==> pct.Some? && pct.value >= 5.0
    ensures t == Down <==> pct.Some? && pct.value <= -5.0
  {
    if pct.None? then Flat
    else if pct.value >= 5.0 then Up
    else if pct.value <= -5.0 then Down
    else Flat
  }

  /** `count > 0 ? total / count : 0`. */
  function PerMonth(total: real, count: nat): real {
    if count > 0 then total / (count as real) else 0.0
  }

  /** The summary of supplier `name` over its records `records` in row
      order, with the base slug. */
  function SupplierMetrics(name: string, records: seq<SupplierMonthly>): SupplierSummary {
    var months := SortedByPeriod(records);
    var totalTurnover := Sum(months, Turnover);
    var totalItems := Sum(months, Items);
    var avgItemsPerMonth := PerMonth(totalItems, |months|);
    var turnoverEnds := NonZeroEnds(months, Turnover);
    var turnoverDeltaPct := DeltaPctOf(turnoverEnds, Turnover);
    var itemsEnds := NonZeroEnds(months, Items);
    var itemsDeltaPct := DeltaPctOf(itemsEnds, Items);
    SupplierSummary(
      CreateSupplierSlug(name), name, Abbreviation(name), FirstPeriod(months), LastPeriod(months), months,
      totalTurnover, totalItems, avgItemsPerMonth,
      DeltaAbsOf(turnoverEnds, Turnover), turnoverDeltaPct,
      DeltaAbsOf(itemsEnds, Items), itemsDeltaPct,
      SupplierTrend(turnoverDeltaPct), SupplierTrend(itemsDeltaPct))
  }

  /** The series of a summary: the records of the supplier, each once,
      sorted by period, with the first and the last period at its ends. */
  lemma SupplierSeries(name: string, records: seq<SupplierMonthly>)
    ensures var s := SupplierMetrics(name, records);
      && s.name == name && s.slug == CreateSupplierSlug(name) && s.abbreviation == Abbreviation(name)
      && multiset(s.months) == multiset(records)
      && (forall i, j :: 0 <= i < j < |s.months| ==> LexLe(s.months[i].period, s.months[j].period))
      && s.firstMonth == FirstPeriod(s.months) && s.lastMonth == LastPeriod(s.months)
  {
  }

  /** The totals do not depend on the order of the records, and the
      average is the total items per record. */
  lemma SupplierTotals(name: string, records: seq<SupplierMonthly>)
    ensures var s := SupplierMetrics(name, records);
      && s.totalTurnover == Sum(records, Turnover)
      && s.totalItems == Sum(records, Items)
      && (|records| > 0 ==> s.avgItemsPerMonth == s.totalItems / (|records| as real))
      && (|records| == 0 ==> s.avgItemsPerMonth == 0.0)
  {
    var months := SortedByPeriod(records);
    SameTotals(months, records);
    var s := SupplierMetrics(name, records);
    assert s.totalTurnover == Sum(months, Turnover) && s.totalItems == Sum(months, Items);
    assert s.avgItemsPerMonth == PerMonth(s.totalItems, |records|);
  }

  /** Two orders of the same records have the same totals and length. */
  lemma SameTotals(months: seq<SupplierMonthly>, records: seq<SupplierMonthly>)
    requires multiset(months) == multiset(records)
    ensures Sum(months, Turnover) == Sum(records, Turnover)
    ensures Sum(months, Items) == Sum(records, Items)
    ensures |months| == |records|
  {
    SumPermutation(months, records, Turnover);
    SumPermutation(months, records, Items);
    assert |months| == |multiset(months)| == |records|;
  }

  /** Without a record above 0 the percentage is `null` and the
      difference 0; otherwise the ends are the first and the last such
      record and the percentage is the difference over the first. */
  lemma SupplierDelta(months: seq<SupplierMonthly>, f: SupplierMonthly -> real)
    ensures var ends := NonZeroEnds(months, f);
      && (DeltaPctOf(ends, f).None? <==> forall i :: 0 <= i < |months| ==> f(months[i]) <= 0.0)
      && (DeltaPctOf(ends, f).None? ==> DeltaAbsOf(ends, f) == 0.0)
      && (DeltaPctOf(ends, f).Some? ==>
            exists i, j :: 0 <= i < |months| && 0 <= j < |months|
              && ends == Some((months[i], months[j]))
              && f(months[i]) > 0.0 && f(months[j]) > 0.0
              && (forall k :: 0 <= k < i ==> f(months[k]) <= 0.0)
              && (forall k :: j < k < |months| ==> f(months[k]) <= 0.0))
    ensures var ends := NonZeroEnds(months, f);
      ends.Some? ==>
        && DeltaAbsOf(ends, f) == f(ends.value.1) - f(ends.value.0)
        && DeltaPctOf(ends, f) == Some(DeltaAbsOf(ends, f) / f(ends.value.0) * 100.0)
  {
    var ends := NonZeroEnds(months, f);
    if ends.Some? {
      var i, j := NonZeroEndsAt(months, f);
      assert ends == Some((months[i], months[j]));
    }
  }

  /** Whether a supplier has a percentage does not depend on the order of
      its records, and a supplier without one is FLAT. */
  lemma SupplierTurnoverPct(name: string, records: seq<SupplierMonthly>)
    ensures var s := SupplierMetrics(name, records);
      && (s.turnoverDeltaPct.None? <==> forall i :: 0 <= i < |records| ==> records[i].turnover <= 0.0)
      && (s.itemsDeltaPct.None? <==> forall i :: 0 <= i < |records| ==> records[i].items <= 0.0)
      && s.turnoverTrend == SupplierTrend(s.turnoverDeltaPct)
      && s.itemsTrend == SupplierTrend(s.itemsDeltaPct)
      && (s.turnoverDeltaPct.None? ==> s.turnoverDeltaAbs == 0.0 && s.turnoverTrend == Flat)
      && (s.itemsDeltaPct.None? ==> s.itemsDeltaAbs == 0.0 && s.itemsTrend == Flat)
  {
    var months := SortedByPeriod(records);
    SupplierDelta(months, Turnover);
    SupplierDelta(months, Items);
    SamePositives(months, records);
  }

  /** Two orders of the same records have a record above 0 of each kind
      alike. */
  lemma SamePositives(months: seq<SupplierMonthly>, records: seq<SupplierMonthly>)
    requires multiset(months) == multiset(records)
    ensures (forall i :: 0 <= i < |months| ==> months[i].turnover <= 0.0) <==> (forall i :: 0 <= i < |records| ==> records[i].turnover <= 0.0)
    ensures (forall i :: 0 <= i < |months| ==> months[i].items <= 0.0) <==> (forall i :: 0 <= i < |records| ==> records[i].items <= 0.0)
  {
    forall i | 0 <= i < |records| ensures records[i] in months {
      assert records[i] in multiset(records);
    }
    forall i | 0 <= i < |months| ensures months[i] in records {
      assert months[i] in multiset(records);
    }
  }

  /** One summary per supplier, in the order of first appearance, each
      with its base slug. */
  function SupplierSummaries(rows: seq<RawSupplierRow>): (ss: seq<SupplierSummary>)
    ensures |ss| == |SupplierNames(rows)|
  {
    var names := SupplierNames(rows);
    seq(|names|, i requires 0 <= i < |names| => SupplierMetrics(names[i], RecordsOf(rows, names[i])))
  }

  /** The i-th summary is that of the i-th supplier over its own rows. */
  lemma SupplierSummaryAt(rows: seq<RawSupplierRow>, i: nat)
    requires i < |SupplierNames(rows)|
    ensures SupplierSummaries(rows)[i] == SupplierMetrics(SupplierNames(rows)[i], RecordsOf(rows, SupplierNames(rows)[i]))
  {
  }

  /** The summaries with the slugs `slugs` in place of their own. */
  function WithSupplierSlugs(ss: seq<SupplierSummary>, slugs: seq<string>): (r: seq<SupplierSummary>)
    requires |slugs| == |ss|
    ensures |r| == |ss| && forall i :: 0 <= i < |ss| ==> r[i] == ss[i].(slug := slugs[i])
  {
    seq(|ss|, i requires 0 <= i < |ss| => ss[i].(slug := slugs[i]))
  }

  function BaseSupplierSlugs(ss: seq<SupplierSummary>): (bs: seq<string>)
    ensures |bs| == |ss| && forall i :: 0 <= i < |ss| ==> bs[i] == ss[i].slug
  {
    seq(|ss|, i requires 0 <= i < |ss| => ss[i].slug)
  }

  /** The `usedSlugs` pass: each supplier in turn takes the first free
      candidate of its base slug. */
  function UniqueSupplierSlugs(ss: seq<SupplierSummary>): (r: seq<SupplierSummary>)
    ensures |r| == |ss|
    ensures forall i :: 0 <= i < |ss| ==> r[i] == ss[i].(slug := r[i].slug) && IsCandidate(r[i].slug, ss[i].slug)
    ensures forall i, j :: 0 <= i < j < |r| ==> r[i].slug != r[j].slug
  {
    AssignSlugsFacts(BaseSupplierSlugs(ss), {});
    WithSupplierSlugs(ss, AssignSlugs(BaseSupplierSlugs(ss), {}))
  }

  /** The sort key of `(a, b) => b.totalTurnover - a.totalTurnover`. */
  function NegTurnover(s: SupplierSummary): real { -s.totalTurnover }

  /** `aggregateSupplierData`: the months of all rows in increasing order
      and one summary per supplier with unique slugs, by total turnover
      from the largest; suppliers of equal turnover keep their order of
      first appearance. */
  function AggregateSupplierSpec(rows: seq<RawSupplierRow>, generatedAt: string): (d: SupplierData)
    ensures d.generatedAt == generatedAt
    ensures d.monthsAvailable == SupplierMonthsAvailable(rows)
    ensures multiset(d.suppliers) == multiset(UniqueSupplierSlugs(SupplierSummaries(rows)))
    ensures forall i, j :: 0 <= i < j < |d.suppliers| ==> d.suppliers[i].totalTurnover >= d.suppliers[j].totalTurnover
    ensures forall v :: WithKey(d.suppliers, NegTurnover, v) == WithKey(UniqueSupplierSlugs(SupplierSummaries(rows)), NegTurnover, v)
  {
    RealLeIsTotalOrder();
    var sorted := SortBy(UniqueSupplierSlugs(SupplierSummaries(rows)), NegTurnover, RealLe);
    assert forall i, j :: 0 <= i < j < |sorted| ==> RealLe(NegTurnover(sorted[i]), NegTurnover(sorted[j]));
    SupplierData(SupplierMonthsAvailable(rows), sorted, generatedAt)
  }

  /** A supplier of that name is in `ss`. */
  ghost predicate SupplierNamed(ss: seq<SupplierSummary>, n: string) {
    exists i :: 0 <= i < |ss| && ss[i].name == n
  }

  /** No two suppliers share a slug or a name, and the names are exactly
      the suppliers of the rows. */
  lemma SupplierAggregateUnique(rows: seq<RawSupplierRow>, generatedAt: string)
    ensures var ss := AggregateSupplierSpec(rows, generatedAt).suppliers;
      && (forall i, j :: 0 <= i < j < |ss| ==> ss[i].slug != ss[j].slug && ss[i].name != ss[j].name)
      && (forall n :: SupplierNamed(ss, n) <==> exists k :: 0 <= k < |rows| && rows[k].supplier == n)
  {
    var u := UniqueSupplierSlugs(SupplierSummaries(rows));
    var ss := AggregateSupplierSpec(rows, generatedAt).suppliers;
    UniqueSummaryNames(rows);
    PermutedSuppliersUnique(u, ss);
  }

  /** Before the final sort, each supplier of the rows has one summary,
      and the slugs are unique. */
  lemma UniqueSummaryNames(rows: seq<RawSupplierRow>)
    ensures var u := UniqueSupplierSlugs(SupplierSummaries(rows));
      && (forall i, j :: 0 <= i < j < |u| ==> u[i].slug != u[j].slug && u[i].name != u[j].name)
      && (forall n :: SupplierNamed(u, n) <==> exists k :: 0 <= k < |rows| && rows[k].supplier == n)
  {
    var names := SupplierNames(rows);
    var u := UniqueSupplierSlugs(SupplierSummaries(rows));
    forall i | 0 <= i < |u| ensures u[i].name == names[i] {
      UniqueSummaryAt(rows, i);
    }
    NamedInOrder(rows, names, u);
  }

  /** Summaries named after the first-appearance list of the suppliers. */
  lemma NamedInOrder(rows: seq<RawSupplierRow>, names: seq<string>, u: seq<SupplierSummary>)
    requires names == SupplierNames(rows)
    requires |u| == |names| && forall i :: 0 <= i < |u| ==> u[i].name == names[i]
    ensures forall i, j :: 0 <= i < j < |u| ==> u[i].name != u[j].name
    ensures forall n :: SupplierNamed(u, n) <==> exists k :: 0 <= k < |rows| && rows[k].supplier == n
  {
    forall i, j | 0 <= i < j < |u| ensures u[i].name != u[j].name {
      assert names[i] != names[j];
    }
    forall n ensures SupplierNamed(u, n) <==> exists k :: 0 <= k < |rows| && rows[k].supplier == n {
      if SupplierNamed(u, n) {
        var i :| 0 <= i < |u| && u[i].name == n;
        assert names[i] in names;
        var k :| 0 <= k < |rows| && SupplierOf(rows[k]) == names[i];
      }
      if exists k :: 0 <= k < |rows| && rows[k].supplier == n {
        var k :| 0 <= k < |rows| && rows[k].supplier == n;
        assert SupplierOf(rows[k]) == n;
        assert n in names;
        var i :| 0 <= i < |names| && names[i] == n;
        assert u[i].name == n;
      }
    }
  }

  function SupplierSlugOf(s: SupplierSummary): string { s.slug }
  function SupplierNameOf(s: SupplierSummary): string { s.name }

  lemma PermutedSuppliersUnique(u: seq<SupplierSummary>, ss: seq<SupplierSummary>)
    requires multiset(ss) == multiset(u)
    requires forall i, j :: 0 <= i < j < |u| ==> u[i].slug != u[j].slug && u[i].name != u[j].name
    ensures forall i, j :: 0 <= i < j < |ss| ==> ss[i].slug != ss[j].slug && ss[i].name != ss[j].name
    ensures forall n :: SupplierNamed(ss, n) <==> SupplierNamed(u, n)
  {
    assert DistinctKeys(u, SupplierSlugOf) && DistinctKeys(u, SupplierNameOf);
    DistinctKeysPermutation(u, ss, SupplierSlugOf);
    DistinctKeysPermutation(u, ss, SupplierNameOf);
    forall i, j | 0 <= i < j < |ss| ensures ss[i].slug != ss[j].slug && ss[i].name != ss[j].name {
      assert SupplierSlugOf(ss[i]) != SupplierSlugOf(ss[j]) && SupplierNameOf(ss[i]) != SupplierNameOf(ss[j]);
    }
    forall n ensures SupplierNamed(ss, n) <==> SupplierNamed(u, n) {
      if SupplierNamed(ss, n) {
        var i :| 0 <= i < |ss| && ss[i].name == n;
        assert ss[i] in multiset(u);
        var j :| 0 <= j < |u| && u[j] == ss[i];
      }
      if SupplierNamed(u, n) {
        var j :| 0 <= j < |u| && u[j].name == n;
        assert u[j] in multiset(ss);
        var i :| 0 <= i < |ss| && ss[i] == u[j];
      }
    }
  }

  /** Every supplier of the aggregate is, up to its slug, the summary of
      its own rows, and its slug is a candidate of its base slug. */
  lemma SupplierAggregateMember(rows: seq<RawSupplierRow>, generatedAt: string, s: SupplierSummary)
    requires s in AggregateSupplierSpec(rows, generatedAt).suppliers
    ensures exists k :: 0 <= k < |rows| && rows[k].supplier == s.name
    ensures s.(slug := CreateSupplierSlug(s.name)) == SupplierMetrics(s.name, RecordsOf(rows, s.name))
    ensures IsCandidate(s.slug, CreateSupplierSlug(s.name))
  {
    var i := AggregatePosition(rows, generatedAt, s);
    UniqueSummaryAt(rows, i);
    var k := NameRow(rows, i);
  }

  /** A supplier of the aggregate sits at some position before the sort. */
  lemma AggregatePosition(rows: seq<RawSupplierRow>, generatedAt: string, s: SupplierSummary) returns (i: nat)
    requires s in AggregateSupplierSpec(rows, generatedAt).suppliers
    ensures i < |SupplierNames(rows)| && UniqueSupplierSlugs(SupplierSummaries(rows))[i] == s
  {
    var d := AggregateSupplierSpec(rows, generatedAt);
    i := PermutationPosition(d.suppliers, UniqueSupplierSlugs(SupplierSummaries(rows)), s);
  }

  /** Every supplier name comes from a row. */
  lemma NameRow(rows: seq<RawSupplierRow>, i: nat) returns (k: nat)
    requires i < |SupplierNames(rows)|
    ensures k < |rows| && rows[k].supplier == SupplierNames(rows)[i]
  {
    var names := SupplierNames(rows);
    assert names[i] in names;
    k :| 0 <= k < |rows| && SupplierOf(rows[k]) == names[i];
  }

  /** The i-th summary before the final sort: that of the i-th supplier,
      with a candidate of its base slug. */
  lemma UniqueSummaryAt(rows: seq<RawSupplierRow>, i: nat)
    requires i < |SupplierNames(rows)|
    ensures var u := UniqueSupplierSlugs(SupplierSummaries(rows));
      var n := SupplierNames(rows)[i];
      && u[i].name == n
      && u[i].(slug := CreateSupplierSlug(n)) == SupplierMetrics(n, RecordsOf(rows, n))
      && IsCandidate(u[i].slug, CreateSupplierSlug(n))
  {
    var n := SupplierNames(rows)[i];
    var ss := SupplierSummaries(rows);
    SupplierSeries(n, RecordsOf(rows, n));
    SupplierSummaryAt(rows, i);
  }

  // ---------------------------------------------------------------------
  // The aggregation loops
  // ---------------------------------------------------------------------

  /** The state of the `rows.forEach` that fills `supplierMap` and
      `monthsSet` once the rows `seen` are done; the insertion order of the
      map is `names`, that of the set `months`. */
  ghost predicate Grouped(seen: seq<RawSupplierRow>, names: seq<string>,
                          groups: map<string, seq<SupplierMonthly>>, months: seq<string>) {
    && names == SupplierNames(seen)
    && months == FirstKeys(seen, RowPeriod)
    && (forall n :: n in groups <==> n in names)
    && (forall n :: n in groups ==> groups[n] == RecordsOf(seen, n))
  }

  lemma GroupedStep(seen: seq<RawSupplierRow>, row: RawSupplierRow, names: seq<string>,
                    groups: map<string, seq<SupplierMonthly>>, months: seq<string>)
    requires Grouped(seen, names, groups, months)
    ensures var g := if row.supplier in groups then groups else groups[row.supplier := []];
      Grouped(seen + [row],
        if row.supplier in groups then names else names + [row.supplier],
        g[row.supplier := g[row.supplier] + [ToSupplierMonthly(row)]],
        if row.period in months then months else months + [row.period])
  {
    var g := if row.supplier in groups then groups else groups[row.supplier := []];
    var g2 := g[row.supplier := g[row.supplier] + [ToSupplierMonthly(row)]];
    var names2 := if row.supplier in groups then names else names + [row.supplier];
    var months2 := if row.period in months then months else months + [row.period];
    FirstKeysSnoc(seen, row, SupplierOf);
    FirstKeysSnoc(seen, row, RowPeriod);
    assert names2 == SupplierNames(seen + [row]);
    assert months2 == FirstKeys(seen + [row], RowPeriod);
    if row.supplier !in groups {
      RecordsOfAbsent(seen, row.supplier);
    }
    GroupsStep(seen, row, groups);
    KeysStep(groups, names, row.supplier, [ToSupplierMonthly(row)]);
    assert Grouped(seen + [row], names2, g2, months2);
  }

  /** Adding a key missing from both the map and the list of its keys keeps
      the two in step. */
  lemma KeysStep<V>(groups: map<string, seq<V>>, names: seq<string>, x: string, more: seq<V>)
    requires forall n :: n in groups <==> n in names
    ensures var g := if x in groups then groups else groups[x := []];
      var names2 := if x in groups then names else names + [x];
      forall n :: n in g[x := g[x] + more] <==> n in names2
  {
  }

  /** Appending the record of `row` to its supplier's array, created empty
      when missing, keeps every array equal to the records of its rows. */
  lemma GroupsStep(seen: seq<RawSupplierRow>, row: RawSupplierRow, groups: map<string, seq<SupplierMonthly>>)
    requires forall n :: n in groups ==> groups[n] == RecordsOf(seen, n)
    requires row.supplier !in groups ==> RecordsOf(seen, row.supplier) == []
    ensures var g := if row.supplier in groups then groups else groups[row.supplier := []];
      var g2 := g[row.supplier := g[row.supplier] + [ToSupplierMonthly(row)]];
      forall n :: n in g2 ==> g2[n] == RecordsOf(seen + [row], n)
  {
    var g := if row.supplier in groups then groups else groups[row.supplier := []];
    var g2 := g[row.supplier := g[row.supplier] + [ToSupplierMonthly(row)]];
    RecordsOfSnoc(seen, row);
    assert g[row.supplier] == RecordsOf(seen, row.supplier);
    forall n | n in g2 ensures g2[n] == RecordsOf(seen + [row], n) {
      if n != row.supplier {
        assert g2[n] == groups[n];
      }
    }
  }

  /** The grouping pass of `aggregateSupplierData`. */
  method GroupSupplierRows(rows: seq<RawSupplierRow>)
    returns (names: seq<string>, supplierMap: map<string, seq<SupplierMonthly>>, monthsSet: seq<string>)
    ensures names == SupplierNames(rows)
    ensures monthsSet == FirstKeys(rows, RowPeriod)
    ensures forall n :: n in supplierMap <==> n in names
    ensures forall n :: n in supplierMap ==> supplierMap[n] == RecordsOf(rows, n)
  {
    names, supplierMap, monthsSet := [], map[], [];
    var i := 0;
    while i < |rows|
      invariant i <= |rows| && Grouped(rows[..i], names, supplierMap, monthsSet)
    {
      var row := rows[i];
      GroupedStep(rows[..i], row, names, supplierMap, monthsSet);
      assert rows[..i + 1] == rows[..i] + [row];
      if row.supplier !in supplierMap {
        supplierMap := supplierMap[row.supplier := []];
        names := names + [row.supplier];
      }
      supplierMap := supplierMap[row.supplier := supplierMap[row.supplier] + [ToSupplierMonthly(row)]];
      if row.period !in monthsSet {
        monthsSet := monthsSet + [row.period];
      }
      i := i + 1;
    }
    assert rows[..|rows|] == rows;
  }

  /** A further row adds one record to its own supplier's series and
      none to the others. */
  lemma RecordsOfSnoc(rows: seq<RawSupplierRow>, row: RawSupplierRow)
    ensures forall n :: RecordsOf(rows + [row], n) == RecordsOf(rows, n) + (if n == row.supplier then [ToSupplierMonthly(row)] else [])
  {
    forall n ensures RecordsOf(rows + [row], n) == RecordsOf(rows, n) + (if n == row.supplier then [ToSupplierMonthly(row)] else []) {
      CollectSnoc(rows, row, OwnRecord(n));
    }
  }

  /** A supplier with no row has an empty series. */
  lemma RecordsOfAbsent(rows: seq<RawSupplierRow>, n: string)
    requires n !in SupplierNames(rows)
    ensures RecordsOf(rows, n) == []
  {
    if RecordsOf(rows, n) != [] {
      var m := RecordsOf(rows, n)[0];
      CollectMember(rows, OwnRecord(n), m);
    }
  }

  /** The state of the `supplierMap.forEach` after `i` suppliers: their
      summaries, with the slugs they were given, have been pushed, and
      `used` holds those slugs. */
  ghost predicate SummaryPassAt(ss: seq<SupplierSummary>, i: nat, suppliers: seq<SupplierSummary>, used: set<string>) {
    var bases := BaseSupplierSlugs(ss);
    var slugs := AssignSlugs(bases, {});
    && i <= |ss|
    && suppliers == WithSupplierSlugs(ss, slugs)[..i]
    && AssignSlugs(bases[i..], used) == slugs[i..]
  }

  lemma SummaryPassStep(ss: seq<SupplierSummary>, i: nat, suppliers: seq<SupplierSummary>, used: set<string>)
    requires SummaryPassAt(ss, i, suppliers, used) && i < |ss|
    ensures var slug := FreshSlug(ss[i].slug, used);
      SummaryPassAt(ss, i + 1, suppliers + [ss[i].(slug := slug)], used + {slug})
  {
    var bases := BaseSupplierSlugs(ss);
    var slugs := AssignSlugs(bases, {});
    AssignSlugsStep(bases, slugs, i, used);
    var w := WithSupplierSlugs(ss, slugs);
    assert bases[i] == ss[i].slug;
    assert w[i] == ss[i].(slug := slugs[i]);
    assert w[..i + 1] == w[..i] + [w[i]];
  }

  /** The summary pass of `aggregateSupplierData` over the groups. */
  method SummarizeSuppliers(ghost rows: seq<RawSupplierRow>, names: seq<string>, supplierMap: map<string, seq<SupplierMonthly>>)
    returns (suppliers: seq<SupplierSummary>)
    requires names == SupplierNames(rows)
    requires forall n :: n in names ==> n in supplierMap && supplierMap[n] == RecordsOf(rows, n)
    ensures suppliers == UniqueSupplierSlugs(SupplierSummaries(rows))
  {
    ghost var ss := SupplierSummaries(rows);
    suppliers := [];
    var usedSlugs: set<string> := {};
    SummaryPassStart(ss);
    var i := 0;
    while i < |names|
      invariant SummaryPassAt(ss, i, suppliers, usedSlugs)
    {
      var supplierName := names[i];
      SummaryOfSupplier(rows, names, supplierMap, i);
      var summary := SupplierMetrics(supplierName, supplierMap[supplierName]);
      var slug := ResolveSlug(summary.slug, usedSlugs);
      SummaryPassStep(ss, i, suppliers, usedSlugs);
      usedSlugs := usedSlugs + {slug};
      suppliers := suppliers + [summary.(slug := slug)];
      i := i + 1;
    }
    SummaryPassEnd(ss, suppliers, usedSlugs);
  }

  /** The array the grouping pass holds for the i-th supplier gives that
      supplier's summary. */
  lemma SummaryOfSupplier(rows: seq<RawSupplierRow>, names: seq<string>,
                          supplierMap: map<string, seq<SupplierMonthly>>, i: nat)
    requires names == SupplierNames(rows)
    requires forall n :: n in names ==> n in supplierMap && supplierMap[n] == RecordsOf(rows, n)
    requires i < |names|
    ensures names[i] in supplierMap
    ensures SupplierMetrics(names[i], supplierMap[names[i]]) == SupplierSummaries(rows)[i]
  {
    assert names[i] in names;
    SupplierSummaryAt(rows, i);
  }

  lemma SummaryPassStart(ss: seq<SupplierSummary>)
    ensures SummaryPassAt(ss, 0, [], {})
  {
    assert AssignSlugs(BaseSupplierSlugs(ss), {})[0..] == AssignSlugs(BaseSupplierSlugs(ss), {});
    assert BaseSupplierSlugs(ss)[0..] == BaseSupplierSlugs(ss);
  }

  lemma SummaryPassEnd(ss: seq<SupplierSummary>, suppliers: seq<SupplierSummary>, used: set<string>)
    requires SummaryPassAt(ss, |ss|, suppliers, used)
    ensures suppliers == UniqueSupplierSlugs(ss)
  {
    assert WithSupplierSlugs(ss, AssignSlugs(BaseSupplierSlugs(ss), {}))[..|ss|]
      == WithSupplierSlugs(ss, AssignSlugs(BaseSupplierSlugs(ss), {}));
  }

  /** `aggregateSupplierData`. */
  method AggregateSupplierData(rows: seq<RawSupplierRow>, generatedAt: string) returns (d: SupplierData)
    ensures d == AggregateSupplierSpec(rows, generatedAt)
  {
    var names, supplierMap, monthsSet := GroupSupplierRows(rows);
    LexLeIsTotalOrder();
    var monthsAvailable := SortBy(monthsSet, Id, LexLe);
    var suppliers := SummarizeSuppliers(rows, names, supplierMap);
    RealLeIsTotalOrder();
    d := SupplierData(monthsAvailable, SortBy(suppliers, NegTurnover, RealLe), generatedAt);
  }

  // ---------------------------------------------------------------------
  // The directory
  // ---------------------------------------------------------------------

  predicate IsSupplierFile(file: string) { HasExtension(file, [".xls", ".xlsx"]) }

  /** `listSupplierFiles`: the names ending in `.xls` or `.xlsx`, whatever
      their case, in listing order. */
  function ListSupplierFiles(listing: seq<string>): (files: seq<string>)
    ensures forall f :: f in files <==> f in listing && IsSupplierFile(f)
  {
    forall f ensures f in Filter(listing, IsSupplierFile) <==> f in listing && IsSupplierFile(f) {
      FilterMember(listing, IsSupplierFile, f);
    }
    Filter(listing, IsSupplierFile)
  }

  /** The rows a listed file yields, read from its path under `dir`. */
  function SupplierRowsIn(dir: string, excel: string -> Option<Grid>, numberText: real -> string)
    : string -> seq<RawSupplierRow>
  {
    (file: string) => SupplierFileRows(JoinPath(dir, file), excel(JoinPath(dir, file)), numberText)
  }

  function AllSupplierRows(dir: string, listing: seq<string>, excel: string -> Option<Grid>, numberText: real -> string)
    : seq<RawSupplierRow>
  {
    ConcatMap(ListSupplierFiles(listing), SupplierRowsIn(dir, excel, numberText))
  }

  /** What `ingestSupplierDirectory` returns: the empty data set without
      workbooks, otherwise the aggregate of all rows. */
  function IngestSupplierSpec(dir: string, listing: seq<string>, excel: string -> Option<Grid>,
                              numberText: real -> string, generatedAt: string): (d: SupplierData)
    ensures ListSupplierFiles(listing) == [] ==> d == SupplierData([], [], generatedAt)
  {
    if ListSupplierFiles(listing) == [] then SupplierData([], [], generatedAt)
    else AggregateSupplierSpec(AllSupplierRows(dir, listing, excel, numberText), generatedAt)
  }

  /** The state of the file loop after `i` files: every file read so far
      counts as processed, whether it yielded rows or not. */
  ghost predicate SupplierFilesAt(files: seq<string>, f: string -> seq<RawSupplierRow>, i: nat,
                                  allRows: seq<RawSupplierRow>, processed: seq<string>) {
    i <= |files| && allRows == ConcatMap(files[..i], f) && processed == files[..i]
  }

  lemma SupplierFilesStep(files: seq<string>, f: string -> seq<RawSupplierRow>, i: nat,
                          allRows: seq<RawSupplierRow>, processed: seq<string>)
    requires SupplierFilesAt(files, f, i, allRows, processed) && i < |files|
    ensures SupplierFilesAt(files, f, i + 1, allRows + f(files[i]), processed + [files[i]])
  {
    assert files[..i + 1] == files[..i] + [files[i]];
    ConcatMapSnoc(files[..i], files[i], f);
  }

  /** The rows of one listed workbook. */
  method ReadSupplierFile(dir: string, file: string, excel: string -> Option<Grid>, numberText: real -> string)
    returns (rows: seq<RawSupplierRow>)
    ensures rows == SupplierRowsIn(dir, excel, numberText)(file)
  {
    var filePath := JoinPath(dir, file);
    rows := ParseSupplierExcelFile(filePath, excel(filePath), numberText);
  }

  /** `ingestSupplierDirectory`, also returning the `processedFiles` it
      logs: every listed workbook. */
  method IngestSupplierDirectory(dir: string, listing: seq<string>, excel: string -> Option<Grid>,
                                 numberText: real -> string, generatedAt: string)
    returns (data: SupplierData, processedFiles: seq<string>)
    ensures data == IngestSupplierSpec(dir, listing, excel, numberText, generatedAt)
    ensures processedFiles == ListSupplierFiles(listing)
  {
    var files := ListSupplierFiles(listing);
    if |files| == 0 {
      return SupplierData([], [], generatedAt), [];
    }
    ghost var f := SupplierRowsIn(dir, excel, numberText);
    var allRows: seq<RawSupplierRow> := [];
    processedFiles := [];
    var i := 0;
    while i < |files|
      invariant SupplierFilesAt(files, f, i, allRows, processedFiles)
    {
      SupplierFilesStep(files, f, i, allRows, processedFiles);
      var rows := ReadSupplierFile(dir, files[i], excel, numberText);
      allRows := allRows + rows;
      processedFiles := processedFiles + [files[i]];
      i := i + 1;
    }
    assert files[..|files|] == files;
    data := AggregateSupplierData(allRows, generatedAt);
  }

  /** Every row gathered is valid and carries the period of the name of a
      listed workbook. */
  lemma AllSupplierRowsValid(dir: string, listing: seq<string>, excel: string -> Option<Grid>,
                             numberText: real -> string, r: RawSupplierRow)
    requires r in AllSupplierRows(dir, listing, excel, numberText)
    ensures RawSupplierRowValid(r)
    ensures exists f :: f in listing && IsSupplierFile(f) && ParsePeriodFromFilename(BaseName(JoinPath(dir, f))) == Some(r.period)
  {
    var files := ListSupplierFiles(listing);
    ConcatMapMember(files, SupplierRowsIn(dir, excel, numberText), r);
    var i :| 0 <= i < |files| && r in SupplierRowsIn(dir, excel, numberText)(files[i]);
    var p := JoinPath(dir, files[i]);
    SupplierFileRowsValid(p, excel(p), numberText, r);
    assert files[i] in listing && IsSupplierFile(files[i]);
  }
}
