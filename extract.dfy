/** The row extractor (`extractRequiredData`, first half): each data row of the
    relabelled grid becomes a usage record, and only records with a positive
    amount are kept, in sheet order. */
module Extract {
  import opened Wrappers
  import opened Cells
  import opened Columns
  import opened Units
  import opened Seqs

  /** The two copies of the pipeline differ in the text written for a missing time. */
  datatype Variant = UsageStatement | ConsumptionReport

  function TimePlaceholder(v: Variant): string {
    match v
    case UsageStatement => "N/A"
    case ConsumptionReport => "DD/MM/AAAA"
  }

  /** `{ start_time, end_time, usage_type, raw_amount, display_amount }`. */
  datatype UsageRecord = UsageRecord(
    startTime: string, endTime: string, category: Cell, rawAmount: real, displayAmount: string)

  /** `row[i]`: positions outside the row read as `undefined`. */
  function CellAt(row: seq<Cell>, i: int): Cell {
    if 0 <= i < |row| then row[i] else Missing
  }

  /** `formatDateTime`: a falsy value gives the placeholder, a value the date
      parser accepts its locale rendering, any other value `String(value)`. */
  function FormatDateTime(lib: Library, value: Cell, variant: Variant): (r: string)
    ensures !Truthy(value) ==> r == TimePlaceholder(variant)
    ensures Truthy(value) && lib.dateOf(value).None? ==> r == Display(lib, value)
    ensures Truthy(value) && lib.dateOf(value).Some? ==> r == lib.localeDateTime(lib.dateOf(value).value)
  {
    if !Truthy(value) then TimePlaceholder(variant)
    else match lib.dateOf(value)
      case Some(t) => lib.localeDateTime(t)
      case None => Display(lib, value)
  }

  /** `index >= 0 && row[index]`: the column was found and its cell is truthy. */
  predicate Present(row: seq<Cell>, index: int) {
    index >= 0 && Truthy(CellAt(row, index))
  }

  function TimeField(lib: Library, row: seq<Cell>, index: int, variant: Variant): string {
    if Present(row, index) then FormatDateTime(lib, CellAt(row, index), variant) else TimePlaceholder(variant)
  }

  /** The `map` callback that turns one data row into a record. */
  function ToRecord(lib: Library, cols: ColumnIndexSet, row: seq<Cell>, variant: Variant): UsageRecord {
    var rawAmount := if Present(row, cols.amount) then CellAt(row, cols.amount) else Number(0.0);
    var usageType := if Present(row, cols.category) then CellAt(row, cols.category) else Text("N/A");
    UsageRecord(
      TimeField(lib, row, cols.startTime, variant),
      TimeField(lib, row, cols.endTime, variant),
      usageType,
      NumberOrZero(lib, rawAmount),
      ConvertUnits(lib, rawAmount, usageType).display)
  }

  function Records(lib: Library, cols: ColumnIndexSet, rows: seq<seq<Cell>>, variant: Variant): (recs: seq<UsageRecord>)
    ensures |recs| == |rows|
    ensures forall i :: 0 <= i < |rows| ==> recs[i] == ToRecord(lib, cols, rows[i], variant)
  {
    seq(|rows|, i requires 0 <= i < |rows| => ToRecord(lib, cols, rows[i], variant))
  }

  predicate Positive(r: UsageRecord) {
    r.rawAmount > 0.0
  }

  /** `excelData.slice(1).map(...).filter(row => row.raw_amount > 0)`, with
      the columns resolved from row 0; a grid of at most one row gives nothing. */
  function ExtractRows(lib: Library, grid: seq<seq<Cell>>, variant: Variant): (rows: seq<UsageRecord>)
    ensures |grid| <= 1 ==> rows == []
    ensures |rows| < |grid|  || |grid| == 0
    ensures forall k :: 0 <= k < |rows| ==> rows[k].rawAmount > 0.0
  {
    if |grid| <= 1 then []
    else Filter(Records(lib, ResolveColumns(lib, grid[0]), grid[1..], variant), Positive)
  }

  /** Appending a data row to the sheet appends its record to the output
      exactly when its amount is positive: the output is the positive records
      in sheet order, each once. */
  lemma ExtractRowsAppend(lib: Library, grid: seq<seq<Cell>>, row: seq<Cell>, variant: Variant)
    requires |grid| >= 1
    ensures var rec := ToRecord(lib, ResolveColumns(lib, grid[0]), row, variant);
      ExtractRows(lib, grid + [row], variant)
        == ExtractRows(lib, grid, variant) + (if rec.rawAmount > 0.0 then [rec] else [])
  {
    var cols := ResolveColumns(lib, grid[0]);
    var g := grid + [row];
    assert g[0] == grid[0];
    assert g[1..] == grid[1..] + [row];
    var before := Records(lib, cols, grid[1..], variant);
    var all := Records(lib, cols, g[1..], variant);
    assert all == before + [ToRecord(lib, cols, row, variant)];
    FilterConcat(before, [ToRecord(lib, cols, row, variant)], Positive);
    assert Filter(before, Positive) == ExtractRows(lib, grid, variant) by {
      if |grid| == 1 {
        assert before == [];
      }
    }
  }

  /** Every data row whose amount is positive is represented in the output. */
  lemma ExtractRowsKeeps(lib: Library, grid: seq<seq<Cell>>, variant: Variant, i: int)
    requires 1 <= i < |grid|
    requires ToRecord(lib, ResolveColumns(lib, grid[0]), grid[i], variant).rawAmount > 0.0
    ensures ToRecord(lib, ResolveColumns(lib, grid[0]), grid[i], variant) in ExtractRows(lib, grid, variant)
  {
    var recs := Records(lib, ResolveColumns(lib, grid[0]), grid[1..], variant);
    assert recs[i - 1] == ToRecord(lib, ResolveColumns(lib, grid[0]), grid[i], variant);
    FilterKeeps(recs, Positive);
  }

  /** A missing column or a falsy cell gives category "N/A", the variant's
      placeholder for the times and amount 0. */
  lemma MissingCellDefaults(lib: Library, cols: ColumnIndexSet, row: seq<Cell>, variant: Variant)
    ensures var rec := ToRecord(lib, cols, row, variant);
      && (!Present(row, cols.category) ==> rec.category == Text("N/A"))
      && (!Present(row, cols.startTime) ==> rec.startTime == TimePlaceholder(variant))
      && (!Present(row, cols.endTime) ==> rec.endTime == TimePlaceholder(variant))
      && (!Present(row, cols.amount) ==> rec.rawAmount == 0.0)
  {
  }

  /** Without a header containing "amount" every amount is 0, so nothing is extracted. */
  lemma NoAmountColumnNoRows(lib: Library, grid: seq<seq<Cell>>, variant: Variant)
    requires |grid| >= 1
    requires forall i :: 0 <= i < |grid[0]| ==> !HeaderMatches(lib, Amount, grid[0][i])
    ensures ExtractRows(lib, grid, variant) == []
  {
    var cols := ResolveColumns(lib, grid[0]);
    assert IndexOf(cols, Amount) == cols.amount;
    assert cols.amount == -1;
    if |grid| > 1 {
      var recs := Records(lib, cols, grid[1..], variant);
      FilterNone(recs, Positive);
    }
  }
}
