/** What the customer and the supplier ingest share: decoded sheet cells
    and how a cell is read as text or as a number, the mapping of header
    columns to fields by substring patterns, and the file-name tests. */
module Columns {
  import opened Base
  import opened Text
  import opened Format
  import opened NumberCz

  // ---------------------------------------------------------------------
  // Cells
  // ---------------------------------------------------------------------

  /** A decoded cell: `None` where the row has no value (`undefined`),
      otherwise the number or the text the sheet holds. */
  type Cell = Option<NumberOrText>

  /** A decoded sheet, row 0 being the header row. */
  type Grid = seq<seq<Cell>>

  /** JavaScript truthiness of a cell: `undefined`, `0` and `""` are
      false. */
  predicate CellTruthy(c: Cell) {
    match c
    case None => false
    case Some(Num(x)) => x != 0.0
    case Some(Str(s)) => s != ""
  }

  /** `row[k]`, `undefined` past the end of the row. */
  function CellAt(row: seq<Cell>, k: nat): (c: Cell)
    ensures k >= |row| ==> c.None?
  {
    if k < |row| then row[k] else None
  }

  /** `String(cell || '')`. How JavaScript prints a number is the
      caller's `numberText`. */
  function CellText(c: Cell, numberText: real -> string): (r: string)
    ensures !CellTruthy(c) ==> r == ""
    ensures c.Some? && c.value.Str? ==> r == c.value.s
  {
    if !CellTruthy(c) then ""
    else match c.value
      case Num(x) => numberText(x)
      case Str(s) => s
  }

  /** `parseNumberCz(cell || 0)`. */
  function CellNumber(c: Cell): (r: real)
    ensures !CellTruthy(c) ==> r == 0.0
    ensures c.Some? && c.value.Num? ==> r == c.value.x
  {
    ParseNumberCz(if CellTruthy(c) then c.value else Num(0.0))
  }

  /** `parseNumberCz(String(cell || 0))`: a number is printed and read
      back; a text, and the `"0"` of a missing cell, read as by
      `CellNumber`. */
  function CellNumberViaText(c: Cell, numberText: real -> string): (r: real)
    ensures !(CellTruthy(c) && c.value.Num?) ==> r == CellNumber(c)
  {
    if CellTruthy(c) && c.value.Num? then ParseNumberCz(Str(numberText(c.value.x)))
    else CellNumber(c)
  }

  /** Reading a number through its printed form gives the number whenever
      the printed form is one `Number()` reads back exactly. */
  lemma CellNumberViaTextOfNumber(x: real, numberText: real -> string)
    requires x != 0.0
    requires Trim(numberText(x)) != "" && Trim(numberText(x)) != "-"
    requires JsNumber(Trim(numberText(x))) == Some(x)
    ensures CellNumberViaText(Some(Num(x)), numberText) == x
  {
  }

  /** The header row as the strings `String(h || '')`. */
  function HeaderTexts(row: seq<Cell>, numberText: real -> string): (hs: seq<string>)
    ensures |hs| == |row| && forall i :: 0 <= i < |row| ==> hs[i] == CellText(row[i], numberText)
  {
    seq(|row|, i requires 0 <= i < |row| => CellText(row[i], numberText))
  }

  /** The period test of the row schemas, `/^\d{4}-\d{2}$/`. */
  predicate MatchesPeriodRegex(s: string) {
    |s| == 7 && AllDigits(s[..4]) && s[4] == '-' && AllDigits(s[5..])
  }

  /** A month identifier passes the period test. */
  lemma MonthIdMatchesRegex(s: string)
    requires IsMonthId(s)
    ensures MatchesPeriodRegex(s)
  {
  }

  // ---------------------------------------------------------------------
  // Mapping header columns to fields
  // ---------------------------------------------------------------------

  /** `patterns.some(pattern => normalized.includes(pattern))`. */
  predicate AnyPattern(normalized: string, patterns: seq<string>) {
    exists p :: p in patterns && Contains(normalized, p)
  }

  /** The index of the first entry of `table` one of whose patterns occurs
      in the normalised header. */
  function FirstMatch<F>(table: seq<(F, seq<string>)>, normalized: string): (r: Option<nat>)
    ensures r.Some? ==> r.value < |table| && AnyPattern(normalized, table[r.value].1)
    ensures r.Some? ==> forall j :: 0 <= j < r.value ==> !AnyPattern(normalized, table[j].1)
    ensures r.None? <==> forall j :: 0 <= j < |table| ==> !AnyPattern(normalized, table[j].1)
    decreases |table|
  {
    if table == [] then None
    else if AnyPattern(normalized, table[0].1) then Some(0)
    else
      var rest := FirstMatch(table[1..], normalized);
      assert forall j :: 1 <= j < |table| ==> table[j] == table[1..][j - 1];
      if rest.None? then None else Some(rest.value + 1)
  }

  /** The field a header stands for: the first one in table order that has
      a pattern occurring in the normalised header. */
  function HeaderField<F>(table: seq<(F, seq<string>)>, header: string): Option<F> {
    match FirstMatch(table, NormalizeHeader(header))
    case None => None
    case Some(k) => Some(table[k].0)
  }

  /** The field of every header, in order. */
  function HeaderFields<F>(table: seq<(F, seq<string>)>, headers: seq<string>): (fs: seq<Option<F>>)
    ensures |fs| == |headers| && forall i :: 0 <= i < |headers| ==> fs[i] == HeaderField(table, headers[i])
  {
    seq(|headers|, i requires 0 <= i < |headers| => HeaderField(table, headers[i]))
  }

  /** Every field of `fs` mapped to the last index where it occurs. */
  function LastIndex<F>(fs: seq<Option<F>>): map<F, nat>
    decreases |fs|
  {
    if fs == [] then map[]
    else
      var i := |fs| - 1;
      var m := LastIndex(fs[..i]);
      if fs[i].None? then m else m[fs[i].value := i]
  }

  /** The mapping `mapColumns` builds from `headers`: every header that
      stands for a field maps that field to its index, a later header
      overwriting an earlier one. */
  function ColumnsOf<F>(table: seq<(F, seq<string>)>, headers: seq<string>): map<F, nat> {
    LastIndex(HeaderFields(table, headers))
  }

  /** The state of the outer loop of `mapColumns` after `i` headers. */
  ghost predicate MappedUpTo<F>(fs: seq<Option<F>>, i: nat, mapping: map<F, nat>) {
    i <= |fs| && mapping == LastIndex(fs[..i])
  }

  lemma MappedStep<F>(fs: seq<Option<F>>, i: nat, mapping: map<F, nat>)
    requires MappedUpTo(fs, i, mapping) && i < |fs|
    ensures fs[i].None? ==> MappedUpTo(fs, i + 1, mapping)
    ensures fs[i].Some? ==> MappedUpTo(fs, i + 1, mapping[fs[i].value := i])
  {
    assert fs[..i + 1][..i] == fs[..i];
  }

  /** The inner loop of `mapColumns`: the entries of `table` are tried in
      order and the search stops at the first one with a matching
      pattern. */
  method FindField<F>(table: seq<(F, seq<string>)>, normalized: string) returns (found: Option<nat>)
    ensures found == FirstMatch(table, normalized)
  {
    found := None;
    var k := 0;
    while k < |table|
      invariant k <= |table|
      invariant forall j :: 0 <= j < k ==> !AnyPattern(normalized, table[j].1)
    {
      if AnyPattern(normalized, table[k].1) {
        found := Some(k);
        break;
      }
      k := k + 1;
    }
  }

  /** The field of the entry found, if any. */
  function FieldAt<F>(table: seq<(F, seq<string>)>, found: Option<nat>): Option<F> {
    if found.Some? && found.value < |table| then Some(table[found.value].0) else None
  }

  lemma HeaderFieldIs<F>(table: seq<(F, seq<string>)>, headers: seq<string>, i: nat, found: Option<nat>)
    requires i < |headers| && found == FirstMatch(table, NormalizeHeader(headers[i]))
    ensures HeaderFields(table, headers)[i] == FieldAt(table, found)
  {
  }

  /** One header more: the field found for it, if any, is mapped to its
      index. */
  lemma MappedNext<F>(table: seq<(F, seq<string>)>, headers: seq<string>, fs: seq<Option<F>>,
                      i: nat, mapping: map<F, nat>, found: Option<nat>)
    requires fs == HeaderFields(table, headers) && MappedUpTo(fs, i, mapping) && i < |headers|
    requires found == FirstMatch(table, NormalizeHeader(headers[i]))
    ensures found.Some? ==> found.value < |table| && MappedUpTo(fs, i + 1, mapping[table[found.value].0 := i])
    ensures found.None? ==> MappedUpTo(fs, i + 1, mapping)
  {
    MappedStep(fs, i, mapping);
    HeaderFieldIs(table, headers, i, found);
  }

  /** `mapColumns`: each header is normalised and the fields are tried in
      table order; the first one with a matching pattern gets the header's
      index. */
  method MapColumns<F>(table: seq<(F, seq<string>)>, headers: seq<string>) returns (mapping: map<F, nat>)
    ensures mapping == ColumnsOf(table, headers)
  {
    ghost var fs := HeaderFields(table, headers);
    mapping := map[];
    var index := 0;
    while index < |headers|
      invariant MappedUpTo(fs, index, mapping)
    {
      var normalized := NormalizeHeader(headers[index]);
      var found := FindField(table, normalized);
      MappedNext(table, headers, fs, index, mapping, found);
      if found.Some? {
        mapping := mapping[table[found.value].0 := index];
      }
      index := index + 1;
    }
    assert fs[..index] == fs;
    assert mapping == LastIndex(fs);
  }

  /** A field is mapped exactly when some entry is that field, and then
      to the last such entry. */
  lemma {:induction false} LastIndexSpec<F>(fs: seq<Option<F>>, f: F)
    ensures var m := LastIndex(fs);
      && (f in m <==> exists i :: 0 <= i < |fs| && fs[i] == Some(f))
      && (f in m ==> m[f] < |fs| && fs[m[f]] == Some(f) && forall j :: m[f] < j < |fs| ==> fs[j] != Some(f))
    decreases |fs|
  {
    if fs != [] {
      var i := |fs| - 1;
      LastIndexSpec(fs[..i], f);
      assert forall j :: 0 <= j < i ==> fs[..i][j] == fs[j];
    }
  }

  /** A field is mapped exactly when some header stands for it, and then
      to the last such header: earlier matches are overwritten. */
  lemma ColumnsOfSpec<F>(table: seq<(F, seq<string>)>, headers: seq<string>, f: F)
    ensures var m := ColumnsOf(table, headers);
      && (f in m <==> exists i :: 0 <= i < |headers| && HeaderField(table, headers[i]) == Some(f))
      && (f in m ==>
            && m[f] < |headers|
            && HeaderField(table, headers[m[f]]) == Some(f)
            && forall j :: m[f] < j < |headers| ==> HeaderField(table, headers[j]) != Some(f))
  {
    LastIndexSpec(HeaderFields(table, headers), f);
  }

  /** No two fields share a column: each header stands for at most one
      field. */
  lemma ColumnsInjective<F>(table: seq<(F, seq<string>)>, headers: seq<string>, f: F, g: F)
    requires f in ColumnsOf(table, headers) && g in ColumnsOf(table, headers) && f != g
    ensures ColumnsOf(table, headers)[f] != ColumnsOf(table, headers)[g]
  {
    ColumnsOfSpec(table, headers, f);
    ColumnsOfSpec(table, headers, g);
  }

  // ---------------------------------------------------------------------
  // File names
  // ---------------------------------------------------------------------

  /** The name ends, ignoring case, in one of the extensions (the test
      `/\.(…)$/i`). */
  predicate HasExtension(file: string, extensions: seq<string>) {
    exists e :: e in extensions && EndsWith(LowerStr(file), e)
  }

  /** `path.join(dir, file)` for a directory that is already normalised
      (no `.` or `..` segments, no repeated `/`) and a plain file name: a
      `/` goes between unless the directory is empty or already ends in
      one. */
  function JoinPath(dir: string, file: string): (p: string)
    ensures EndsWith(p, file)
  {
    if dir == [] then file
    else if dir[|dir| - 1] == '/' then dir + file
    else dir + "/" + file
  }

  /** `path.split('/').pop() || ''`: what follows the last `/`. */
  function BaseName(path: string): (r: string)
    ensures '/' !in r
    ensures EndsWith(path, r)
    ensures '/' !in path ==> r == path
    decreases |path|
  {
    if path == [] then []
    else if path[|path| - 1] == '/' then []
    else
      var r := BaseName(path[..|path| - 1]) + [path[|path| - 1]];
      assert path[..|path| - 1] + [path[|path| - 1]] == path;
      r
  }

  /** The base name of a joined path is the file name itself. */
  lemma BaseNameOfJoin(dir: string, file: string)
    requires '/' !in file
    ensures BaseName(JoinPath(dir, file)) == file
  {
    var p := JoinPath(dir, file);
    var q := p[..|p| - |file|];
    assert p == q + file;
    assert q == [] || q[|q| - 1] == '/';
    BaseNameAfterSlash(q, file);
  }

  lemma {:induction false} BaseNameAfterSlash(q: string, file: string)
    requires '/' !in file
    requires q == [] || q[|q| - 1] == '/'
    ensures BaseName(q + file) == file
    decreases |file|
  {
    if file == [] {
      assert q + file == q;
    } else {
      var init, last := file[..|file| - 1], file[|file| - 1];
      var p := q + file;
      assert last in file;
      assert p[|p| - 1] == last;
      assert p[..|p| - 1] == q + init;
      BaseNameStep(p);
      BaseNameAfterSlash(q, init);
      assert init + [last] == file;
    }
  }

  /** A path not ending in `/` keeps its last character in its base name. */
  lemma BaseNameStep(p: string)
    requires p != [] && p[|p| - 1] != '/'
    ensures BaseName(p) == BaseName(p[..|p| - 1]) + [p[|p| - 1]]
  {
  }
}
