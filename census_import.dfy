// The census import route (app/api/census/import/route.js): every sheet of the
// census spreadsheet is read row by row into the census table, which is
// cleared first. The Google Sheets client and the database calls are outside
// the model: a sheet's fetch result and the fault, if any, that a row's
// database calls raise are parameters.

module CensusImport {
  import opened Wrappers
  import opened JsText
  import opened Census

  const Sheets: seq<string> := ["RCK", "CNT", "CNB", "CLK", "SINSAR", "UBER", "JATEN"]

  // ------------------------------------------------------------ cell values

  /** `parseAge`: null for a missing or empty cell, otherwise `parseInt` of it,
      and null again when that is NaN. */
  function ParseAge(v: Option<string>): (age: Option<int>)
    ensures !Truthy(v) ==> age.None?
    ensures Truthy(v) ==> (age.Some? <==> ParseInt(v.value).Int?)
    ensures age.Some? ==> ParseInt(v.value) == Int(age.value)
  {
    if !Truthy(v) then None
    else match ParseInt(v.value)
      case Int(n) => Some(n)
      case NaN => None
  }

  /** A decimal age, alone or followed by text that does not start with a digit
      (a unit, say), reads as its value. */
  lemma ParseAgeDecimal(n: nat, rest: string)
    requires rest == [] || DigitValue(rest[0]) >= 10
    requires n != 0 || rest == [] || (rest[0] != 'x' && rest[0] != 'X')
    ensures ParseAge(Some(NatToString(n) + rest)) == Some(n)
  {
    ParseIntDigitsThen(n, rest);
  }

  /** A cell without decimal digits reads as no age. */
  lemma ParseAgeNoDigits(s: string)
    requires forall i :: 0 <= i < |s| ==> !IsDecimalDigit(s[i])
    ensures ParseAge(Some(s)) == None
  {
    ParseIntNoDigits(s);
  }

  /** `normalizeDate`: null for a missing or empty cell, otherwise the text trimmed. */
  function NormalizeDate(v: Option<string>): (d: Option<string>)
    ensures !Truthy(v) ==> d.None?
    ensures Truthy(v) ==> d.Some? && |d.value| <= |v.value|
    ensures d.Some? ==> d.value == Trim(v.value)
  {
    if !Truthy(v) then None else Some(Trim(v.value))
  }

  /** A cell of only white space becomes the empty string, not null; normalizing
      a normalized date changes nothing. */
  lemma NormalizeDateFacts(v: Option<string>)
    ensures Truthy(v) && AllSpace(v.value) ==> NormalizeDate(v) == Some("")
    ensures Truthy(NormalizeDate(v)) ==> NormalizeDate(NormalizeDate(v)) == NormalizeDate(v)
  {
    if Truthy(v) {
      TrimBlank(v.value);
      TrimIdempotent(v.value);
    }
  }

  // ------------------------------------------------------------------ rows

  /** A row as the Sheets API returns it: trailing empty cells are absent. */
  type Row = seq<string>

  /** `row[k]`: undefined past the end of the row. */
  function Cell(row: Row, k: nat): (c: Option<string>)
    ensures c.Some? <==> k < |row|
  {
    if k < |row| then Some(row[k]) else None
  }

  /** `!row.some(cell => cell && cell.trim())`: no cell has text other than white space. */
  predicate IsBlankRow(row: Row) {
    forall k :: 0 <= k < |row| ==> Trim(row[k]) == ""
  }

  lemma BlankRowMeaning(row: Row)
    ensures IsBlankRow(row) <==> forall k :: 0 <= k < |row| ==> AllSpace(row[k])
  {
    forall k | 0 <= k < |row| {
      TrimBlank(row[k]);
    }
  }

  /** The text column stored from spreadsheet column k (A = 0 .. Q = 16); the date
      (5) and the age (6) are converted instead. */
  function TextColumn(r: Record, k: nat): Option<string>
    requires k <= 16 && k != 5 && k != 6
  {
    match k
    case 0 => r.no
    case 1 => r.desa
    case 2 => r.kelompok
    case 3 => r.nama
    case 4 => r.tempatLahir
    case 7 => r.jenisKelamin
    case 8 => r.statusPernikahan
    case 9 => r.pendidikan
    case 10 => r.kelas
    case 11 => r.namaLembagaPendidikan
    case 12 => r.dapukan
    case 13 => r.kategori
    case 14 => r.kategoriUsia
    case 15 => r.golonganDarah
    case 16 => r.kemubalighan
  }

  /** The record created from a row of a sheet: each text column holds its cell,
      or null when the cell is missing or empty; the date is normalized, the age
      parsed, and the sheet is the sheet's name. */
  function MapRow(row: Row, sheet: string): (r: Record)
    ensures forall k :: 0 <= k <= 16 && k != 5 && k != 6 ==> TextColumn(r, k) == OrNull(Cell(row, k))
    ensures r.tglLahir == NormalizeDate(Cell(row, 5))
    ensures r.usiaSekarang == ParseAge(Cell(row, 6))
    ensures r.sheet == Some(sheet)
  {
    Record(
      OrNull(Cell(row, 0)), OrNull(Cell(row, 1)), OrNull(Cell(row, 2)), OrNull(Cell(row, 3)),
      OrNull(Cell(row, 4)), NormalizeDate(Cell(row, 5)), ParseAge(Cell(row, 6)),
      OrNull(Cell(row, 7)), OrNull(Cell(row, 8)), OrNull(Cell(row, 9)), OrNull(Cell(row, 10)),
      OrNull(Cell(row, 11)), OrNull(Cell(row, 12)), OrNull(Cell(row, 13)), OrNull(Cell(row, 14)),
      OrNull(Cell(row, 15)), OrNull(Cell(row, 16)), Some(sheet))
  }

  // ---------------------------------------------------------- de-duplication

  /** The columns a duplicate is recognised by. */
  datatype Key = Key(nama: Option<string>, tglLahir: Option<string>, sheet: Option<string>)

  function KeyOf(r: Record): Key {
    Key(r.nama, r.tglLahir, r.sheet)
  }

  /** `nama || tglLahir`: only then is the table searched for a duplicate. */
  predicate Identifiable(k: Key) {
    k.nama.Some? || Truthy(k.tglLahir)
  }

  /** `findFirst({ where: { nama, tglLahir, sheet } })` finds a record (null matches null). */
  predicate HasKey(table: seq<Record>, k: Key) {
    exists i :: 0 <= i < |table| && KeyOf(table[i]) == k
  }

  /** No two records share a key that identifies them. */
  predicate UniqueKeys(table: seq<Record>) {
    forall i, j :: 0 <= i < j < |table| && Identifiable(KeyOf(table[i])) ==> KeyOf(table[i]) != KeyOf(table[j])
  }

  /** Which of a row's database calls throws: none, the duplicate lookup, or the create. */
  datatype Fault = NoFault | LookupFault | CreateFault

  datatype Outcome = Blank | Duplicate | Created(record: Record) | Failed

  /** What happens to a non-blank row's record: an identifiable record is looked
      up first and skipped when already present; otherwise it is created. */
  function Decide(table: seq<Record>, r: Record, fault: Fault): (o: Outcome)
    ensures o.Created? ==> o.record == r && fault != CreateFault
    ensures o.Created? && Identifiable(KeyOf(r)) ==> !HasKey(table, KeyOf(r))
    ensures o.Created? && Identifiable(KeyOf(r)) ==> fault.NoFault?
    ensures o == Duplicate <==> Identifiable(KeyOf(r)) && fault != LookupFault && HasKey(table, KeyOf(r))
    ensures o != Blank
    ensures o == Failed ==> !fault.NoFault?
  {
    if Identifiable(KeyOf(r)) then
      (if fault == LookupFault then Failed
       else if HasKey(table, KeyOf(r)) then Duplicate
       else if fault == CreateFault then Failed
       else Created(r))
    else if fault == CreateFault then Failed
    else Created(r)
  }

  /** What happens to one data row, given the records already in the table. */
  function Classify(table: seq<Record>, sheet: string, row: Row, fault: Fault): (o: Outcome)
    ensures o == Blank <==> IsBlankRow(row)
  {
    if IsBlankRow(row) then Blank else Decide(table, MapRow(row, sheet), fault)
  }

  /** A non-blank row that names nobody and has no date is always created, unless
      its create call throws. */
  lemma AnonymousRowsAreCreated(table: seq<Record>, sheet: string, row: Row, fault: Fault)
    requires !IsBlankRow(row) && !Truthy(Cell(row, 3)) && !Truthy(NormalizeDate(Cell(row, 5)))
    ensures fault != CreateFault ==> Classify(table, sheet, row, fault) == Created(MapRow(row, sheet))
    ensures fault == CreateFault ==> Classify(table, sheet, row, fault) == Failed
  {
    var r := MapRow(row, sheet);
    assert TextColumn(r, 3) == OrNull(Cell(row, 3));
  }

  // ------------------------------------------------------------ one sheet

  /** The table and the per-sheet counters after some rows of a sheet. */
  datatype SheetRun = SheetRun(table: seq<Record>, imported: nat, duplicates: nat, errors: nat)

  function Step(run: SheetRun, sheet: string, row: Row, fault: Fault): SheetRun {
    match Classify(run.table, sheet, row, fault)
    case Blank => run
    case Duplicate => run.(duplicates := run.duplicates + 1)
    case Created(r) => run.(table := run.table + [r], imported := run.imported + 1)
    case Failed => run.(errors := run.errors + 1)
  }

  /** The row loop over a sheet's data rows; row number n (from 1) meets fault(sheet, n). */
  function RunRows(table: seq<Record>, sheet: string, rows: seq<Row>, fault: (string, nat) -> Fault): (run: SheetRun)
    ensures run.imported + run.duplicates + run.errors <= |rows|
    decreases |rows|
  {
    if rows == [] then SheetRun(table, 0, 0, 0)
    else Step(RunRows(table, sheet, rows[..|rows| - 1], fault), sheet, rows[|rows| - 1], fault(sheet, |rows|))
  }

  function NonBlankRows(rows: seq<Row>): nat {
    if rows == [] then 0
    else NonBlankRows(rows[..|rows| - 1]) + (if IsBlankRow(rows[|rows| - 1]) then 0 else 1)
  }

  /** The run over one more row is one more step. */
  lemma RunRowsSnoc(table: seq<Record>, sheet: string, rows: seq<Row>, i: int, fault: (string, nat) -> Fault)
    requires 0 <= i < |rows|
    ensures RunRows(table, sheet, rows[..i + 1], fault)
            == Step(RunRows(table, sheet, rows[..i], fault), sheet, rows[i], fault(sheet, i + 1))
  {
    assert rows[..i + 1][..i] == rows[..i];
  }

  /** Every non-blank row is counted exactly once, as imported, duplicate or
      error; blank rows nowhere. The table only grows, by the imported records,
      each tagged with the sheet. */
  lemma {:induction false} RowsAccounted(table: seq<Record>, sheet: string, rows: seq<Row>, fault: (string, nat) -> Fault)
    ensures var run := RunRows(table, sheet, rows, fault);
            && run.imported + run.duplicates + run.errors == NonBlankRows(rows)
            && |run.table| == |table| + run.imported
            && run.table[..|table|] == table
            && forall i :: |table| <= i < |run.table| ==> run.table[i].sheet == Some(sheet)
    decreases |rows|
  {
    if rows != [] {
      var prev := RunRows(table, sheet, rows[..|rows| - 1], fault);
      var last := rows[|rows| - 1];
      RowsAccounted(table, sheet, rows[..|rows| - 1], fault);
      StepAccounted(prev, sheet, last, fault(sheet, |rows|));
      if Step(prev, sheet, last, fault(sheet, |rows|)).table != prev.table {
        GrowByOne(table, prev.table, MapRow(last, sheet), sheet);
      }
    }
  }

  /** One row adds one to the three counters unless it is blank, and either keeps
      the table or appends the row's record with one more import. */
  lemma StepAccounted(run: SheetRun, sheet: string, row: Row, fault: Fault)
    ensures var s := Step(run, sheet, row, fault);
            && s.imported + s.duplicates + s.errors
               == run.imported + run.duplicates + run.errors + (if IsBlankRow(row) then 0 else 1)
            && ((s.table == run.table && s.imported == run.imported)
                || (s.table == run.table + [MapRow(row, sheet)] && s.imported == run.imported + 1))
  {
  }

  /** Appending a record of the sheet keeps the old prefix and the sheet tags. */
  lemma GrowByOne(table: seq<Record>, p: seq<Record>, r: Record, sheet: string)
    requires |table| <= |p| && p[..|table|] == table && r.sheet == Some(sheet)
    requires forall i :: |table| <= i < |p| ==> p[i].sheet == Some(sheet)
    ensures (p + [r])[..|table|] == table
    ensures forall i :: |table| <= i < |p + [r]| ==> (p + [r])[i].sheet == Some(sheet)
  {
    assert (p + [r])[..|table|] == p[..|table|];
  }

  lemma StepKeepsUnique(run: SheetRun, sheet: string, row: Row, fault: Fault)
    requires UniqueKeys(run.table)
    ensures UniqueKeys(Step(run, sheet, row, fault).table)
  {
    var o := Classify(run.table, sheet, row, fault);
  }

  /** Within a sheet no identifiable record is created twice: the lookup finds
      the earlier one. */
  lemma {:induction false} RunRowsKeepsUnique(table: seq<Record>, sheet: string, rows: seq<Row>, fault: (string, nat) -> Fault)
    requires UniqueKeys(table)
    ensures UniqueKeys(RunRows(table, sheet, rows, fault).table)
    decreases |rows|
  {
    if rows != [] {
      RunRowsKeepsUnique(table, sheet, rows[..|rows| - 1], fault);
      StepKeepsUnique(RunRows(table, sheet, rows[..|rows| - 1], fault), sheet, rows[|rows| - 1], fault(sheet, |rows|));
    }
  }

  /** `sheets.spreadsheets.values.get`: throws, or gives the (possibly absent) rows. */
  datatype Fetch = FetchFailed | Fetched(values: Option<seq<Row>>)

  /** The table and the running totals after some sheets. */
  datatype ImportRun = ImportRun(table: seq<Record>, imported: nat, errors: nat)

  /** One sheet: a failed fetch counts one error; no rows is skipped; otherwise
      the header row is dropped and the data rows are imported. */
  function ImportSheet(run: ImportRun, sheet: string, f: Fetch, fault: (string, nat) -> Fault): ImportRun {
    match f
    case FetchFailed => run.(errors := run.errors + 1)
    case Fetched(values) =>
      if values.None? || values.value == [] then run
      else
        var s := RunRows(run.table, sheet, values.value[1..], fault);
        ImportRun(s.table, run.imported + s.imported, run.errors + s.errors)
  }

  /** The sheet loop over a list of sheet names. */
  function ImportSheets(sheets: seq<string>, fetch: string -> Fetch, fault: (string, nat) -> Fault): (run: ImportRun)
    ensures run.errors >= FailedSheets(sheets, fetch)
    decreases |sheets|
  {
    if sheets == [] then ImportRun([], 0, 0)
    else
      var last := sheets[|sheets| - 1];
      ImportSheet(ImportSheets(sheets[..|sheets| - 1], fetch, fault), last, fetch(last), fault)
  }

  function FailedSheets(sheets: seq<string>, fetch: string -> Fetch): nat {
    if sheets == [] then 0
    else FailedSheets(sheets[..|sheets| - 1], fetch) + (if fetch(sheets[|sheets| - 1]).FetchFailed? then 1 else 0)
  }

  /** The non-blank data rows of the sheets that were fetched. */
  function DataRows(sheets: seq<string>, fetch: string -> Fetch): nat {
    if sheets == [] then 0
    else
      var f := fetch(sheets[|sheets| - 1]);
      DataRows(sheets[..|sheets| - 1], fetch)
        + (if f.Fetched? && f.values.Some? && f.values.value != [] then NonBlankRows(f.values.value[1..]) else 0)
  }

  /** After the import (which starts from the cleared table) the table holds
      exactly the imported records, with no identifiable key twice; every failed
      sheet counts one error, each non-blank data row at most one count. */
  lemma {:induction false} ImportTotals(sheets: seq<string>, fetch: string -> Fetch, fault: (string, nat) -> Fault)
    ensures var r := ImportSheets(sheets, fetch, fault);
            && |r.table| == r.imported
            && UniqueKeys(r.table)
            && r.errors >= FailedSheets(sheets, fetch)
            && r.imported + r.errors <= DataRows(sheets, fetch) + FailedSheets(sheets, fetch)
    decreases |sheets|
  {
    if sheets != [] {
      var init := sheets[..|sheets| - 1];
      var last := sheets[|sheets| - 1];
      ImportTotals(init, fetch, fault);
      var prev := ImportSheets(init, fetch, fault);
      var f := fetch(last);
      if f.Fetched? && f.values.Some? && f.values.value != [] {
        RowsAccounted(prev.table, last, f.values.value[1..], fault);
        RunRowsKeepsUnique(prev.table, last, f.values.value[1..], fault);
      }
    }
  }

  /** Without any database fault every row error is gone: the errors are exactly
      the sheets whose fetch failed. */
  lemma {:induction false} NoFaultNoRowErrors(table: seq<Record>, sheet: string, rows: seq<Row>, fault: (string, nat) -> Fault)
    requires forall n :: 1 <= n <= |rows| ==> fault(sheet, n) == NoFault
    ensures RunRows(table, sheet, rows, fault).errors == 0
    decreases |rows|
  {
    if rows != [] {
      var prev := RunRows(table, sheet, rows[..|rows| - 1], fault);
      NoFaultNoRowErrors(table, sheet, rows[..|rows| - 1], fault);
      NoFaultStep(prev, sheet, rows[|rows| - 1]);
    }
  }

  /** A row without a database fault adds no error. */
  /** Step spelled out as the route's branches. */
  lemma StepCases(run: SheetRun, sheet: string, row: Row, fault: Fault)
    ensures var r := MapRow(row, sheet);
            Step(run, sheet, row, fault)
            == if IsBlankRow(row) then run
               else if Identifiable(KeyOf(r)) && fault == LookupFault then run.(errors := run.errors + 1)
               else if Identifiable(KeyOf(r)) && HasKey(run.table, KeyOf(r)) then run.(duplicates := run.duplicates + 1)
               else if fault == CreateFault then run.(errors := run.errors + 1)
               else run.(table := run.table + [r], imported := run.imported + 1)
  {
  }

  lemma NoFaultStep(run: SheetRun, sheet: string, row: Row)
    ensures Step(run, sheet, row, NoFault).errors == run.errors
  {
  }

  // ------------------------------------------------------------ the route

  datatype ImportResponse = Completed(imported: nat, errors: nat) | Fatal

  /** The census table the route writes. */
  class CensusTable {
    var records: seq<Record>

    constructor (records: seq<Record>)
      ensures this.records == records
    {
      this.records := records;
    }

    /** The row loop of one sheet, with the sheet's three counters. */
    method ImportRows(sheet: string, dataRows: seq<Row>, fault: (string, nat) -> Fault)
      returns (sheetImported: nat, sheetDuplicates: nat, sheetErrors: nat)
      modifies this
      ensures RunRows(old(records), sheet, dataRows, fault) == SheetRun(records, sheetImported, sheetDuplicates, sheetErrors)
    {
      ghost var start := records;
      sheetImported, sheetDuplicates, sheetErrors := 0, 0, 0;
      var currentRow := 0;
      while currentRow < |dataRows|
        invariant 0 <= currentRow <= |dataRows|
        invariant RunRows(start, sheet, dataRows[..currentRow], fault)
                  == SheetRun(records, sheetImported, sheetDuplicates, sheetErrors)
      {
        RunRowsSnoc(start, sheet, dataRows, currentRow, fault);
        sheetImported, sheetDuplicates, sheetErrors :=
          ImportRow(sheet, dataRows[currentRow], fault(sheet, currentRow + 1), sheetImported, sheetDuplicates, sheetErrors);
        currentRow := currentRow + 1;
      }
      assert dataRows[..currentRow] == dataRows;
    }

    /** One data row: a blank row is skipped, an identifiable row is looked up
        first, the rest is created; the counters record which happened. */
    method ImportRow(sheet: string, row: Row, rowFault: Fault, imported: nat, duplicates: nat, errors: nat)
      returns (newImported: nat, newDuplicates: nat, newErrors: nat)
      modifies this
      ensures Step(SheetRun(old(records), imported, duplicates, errors), sheet, row, rowFault)
              == SheetRun(records, newImported, newDuplicates, newErrors)
    {
      newImported, newDuplicates, newErrors := imported, duplicates, errors;
      StepCases(SheetRun(records, imported, duplicates, errors), sheet, row, rowFault);
      if !IsBlankRow(row) {
        var r := MapRow(row, sheet);
        if Identifiable(KeyOf(r)) && rowFault == LookupFault {
          newErrors := errors + 1;
        } else if Identifiable(KeyOf(r)) && HasKey(records, KeyOf(r)) {
          newDuplicates := duplicates + 1;
        } else if rowFault == CreateFault {
          newErrors := errors + 1;
        } else {
          records := records + [r];
          newImported := imported + 1;
        }
      }
    }

    /** POST: when the client connects, clear the table and import every sheet
        in turn; otherwise fail with the table unchanged. */
    method Import(connected: bool, fetch: string -> Fetch, fault: (string, nat) -> Fault) returns (resp: ImportResponse)
      modifies this
      ensures !connected ==> resp == Fatal && records == old(records)
      ensures connected ==> var r := ImportSheets(Sheets, fetch, fault);
                            resp == Completed(r.imported, r.errors) && records == r.table
    {
      if !connected {
        return Fatal;
      }
      records := [];
      var totalImported := 0;
      var totalErrors := 0;
      var i := 0;
      while i < |Sheets|
        invariant 0 <= i <= |Sheets|
        invariant ImportSheets(Sheets[..i], fetch, fault) == ImportRun(records, totalImported, totalErrors)
      {
        var sheet := Sheets[i];
        assert Sheets[..i + 1][..i] == Sheets[..i];
        var f := fetch(sheet);
        if f.FetchFailed? {
          totalErrors := totalErrors + 1;
        } else if f.values.Some? && f.values.value != [] {
          var sheetImported, sheetDuplicates, sheetErrors := ImportRows(sheet, f.values.value[1..], fault);
          totalImported := totalImported + sheetImported;
          totalErrors := totalErrors + sheetErrors;
        }
        i := i + 1;
      }
      assert Sheets[..i] == Sheets;
      resp := Completed(totalImported, totalErrors);
    }
  }
}
