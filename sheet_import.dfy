/** The generic spreadsheet viewer: choose a sheet, keep its visible rows,
    keep the whitelisted columns, drop blank rows, and show a prefix of the
    result. */
module SheetImport {
  import opened Wrappers
  import opened Seqs
  import opened Text
  import opened Cells

  /** The headers a column must carry exactly (case-sensitive) to be kept. */
  const AllowedColumns: seq<string> :=
    ["START_TIME", "END_TIME", "CALLING_FROM", "USAGE_TYPE", "ACT_DURATION", "AMOUNT", "RESOURCE_NAME"]

  const PreferredSheet := "Export Worksheet"
  const NoSheetsError := "No sheets found in the Excel file."
  const NoVisibleRowsError := "Excel file contains no visible data rows."
  const NoMatchingColumnsError := "No matching columns found. Expected columns: " + Join(AllowedColumns, ", ")
  const DefaultRowCount := 100

  /** `words.join(sep)`. */
  function Join(words: seq<string>, sep: string): string {
    if |words| == 0 then ""
    else if |words| == 1 then words[0]
    else words[0] + sep + Join(words[1..], sep)
  }

  /** One entry of a sheet's `!rows` array: an index the array does not hold
      (skipped by `forEach`), an entry that is `undefined`/`null`, or row
      properties with their `hidden` flag. */
  datatype RowInfo = Hole | Blank | Props(hidden: bool)

  /** The row part of a sheet's `!ref` range (0-based, both ends included). */
  datatype RowSpan = RowSpan(first: nat, last: nat)

  /** A decoded sheet: its row properties if it has any, its range if it has
      one, and `sheet_to_json(ws, {header: 1})`, whose index k is sheet row k. */
  datatype Sheet = Sheet(rowInfo: Option<seq<RowInfo>>, ref: Option<RowSpan>, grid: seq<seq<Cell>>)

  datatype Workbook = Workbook(sheetNames: seq<string>, sheets: map<string, Sheet>)

  /** The uploaded file: its name and the workbook it decodes to. */
  datatype UploadedFile = UploadedFile(name: string, workbook: Workbook)

  /** What a successful upload puts on the page. */
  datatype Upload = Upload(headers: seq<Cell>, data: seq<seq<Cell>>)

  /** Every listed sheet name has a sheet, as the workbook reader guarantees. */
  predicate WellFormed(wb: Workbook) {
    forall k :: 0 <= k < |wb.sheetNames| ==> wb.sheetNames[k] in wb.sheets
  }

  /** "Export Worksheet" when the workbook has it, else the first sheet name;
      no (or an empty) first name is an error. */
  function ChooseSheet(wb: Workbook): (r: Result<string, string>)
    ensures PreferredSheet in wb.sheets ==> r == Success(PreferredSheet)
    ensures PreferredSheet !in wb.sheets ==>
      (r.Success? <==> |wb.sheetNames| > 0 && wb.sheetNames[0] != "")
    ensures PreferredSheet !in wb.sheets && r.Success? ==> r.value == wb.sheetNames[0]
    ensures r.Failure? ==> r.error == NoSheetsError
    ensures WellFormed(wb) && r.Success? ==> r.value in wb.sheets
  {
    if PreferredSheet in wb.sheets then Success(PreferredSheet)
    else if |wb.sheetNames| == 0 || wb.sheetNames[0] == "" then Failure(NoSheetsError)
    else Success(wb.sheetNames[0])
  }

  /** `decode_range(ws['!ref'] || 'A1:A1')`, rows only. */
  function SpanOf(sheet: Sheet): RowSpan {
    if sheet.ref.Some? then sheet.ref.value else RowSpan(0, 0)
  }

  /** Row `k` lies in the range. */
  predicate InSpan(span: RowSpan, k: nat) {
    span.first <= k <= span.last
  }

  /** The `forEach` test `!row || !row.hidden` on an entry it visits. */
  predicate Shown(info: RowInfo) {
    info.Blank? || (info.Props? && !info.hidden)
  }

  /** The visible-row set as the code builds it: with row properties, the
      visited indices whose entry is not hidden; without, the whole range. */
  ghost function VisibleRowsAsWritten(sheet: Sheet): set<nat> {
    if sheet.rowInfo.Some? then
      var info := sheet.rowInfo.value;
      set k: nat | k < |info| && Shown(info[k])
    else
      var span := SpanOf(sheet);
      set k: nat | k <= span.last && InSpan(span, k)
  }

  /** Whether row `k` carries row properties that mark it hidden. */
  predicate HiddenAt(info: Option<seq<RowInfo>>, k: nat) {
    info.Some? && k < |info.value| && info.value[k].Props? && info.value[k].hidden
  }

  /** The visible-row set the code evidently means: every row of the range
      except those marked hidden. */
  ghost function VisibleRows(sheet: Sheet): set<nat> {
    var span := SpanOf(sheet);
    set k: nat | span.first <= k <= span.last && !HiddenAt(sheet.rowInfo, k)
  }

  /** The `forEach`/`for` loops of the upload handler that fill `visibleRows`. */
  method CollectVisibleRowsAsWritten(sheet: Sheet) returns (visible: set<nat>)
    ensures visible == VisibleRowsAsWritten(sheet)
  {
    visible := {};
    if sheet.rowInfo.Some? {
      var info := sheet.rowInfo.value;
      var i := 0;
      while i < |info|
        invariant 0 <= i <= |info|
        invariant visible == set k: nat | k < i && Shown(info[k])
      {
        if Shown(info[i]) {
          visible := visible + {i};
        }
        i := i + 1;
      }
    } else {
      var span := SpanOf(sheet);
      var i := span.first;
      while i <= span.last
        invariant span.first <= i && (span.first <= span.last ==> i <= span.last + 1)
        invariant visible == set k: nat | k < i && InSpan(span, k)
      {
        visible := visible + {i};
        i := i + 1;
      }
    }
  }

  /** The corrected loop: walk the range and skip only rows marked hidden. */
  method CollectVisibleRows(sheet: Sheet) returns (visible: set<nat>)
    ensures visible == VisibleRows(sheet)
  {
    visible := {};
    var span := SpanOf(sheet);
    var i := span.first;
    while i <= span.last
      invariant span.first <= i && (span.first <= span.last ==> i <= span.last + 1)
      invariant visible == set k: nat | span.first <= k < i && k <= span.last && !HiddenAt(sheet.rowInfo, k)
    {
      if !HiddenAt(sheet.rowInfo, i) {
        visible := visible + {i};
      }
      i := i + 1;
    }
  }

  /** The rows of `grid` whose index is in `visible`, in order (built from the back). */
  function KeepRows(grid: seq<seq<Cell>>, visible: set<nat>): (r: seq<seq<Cell>>)
    ensures |r| <= |grid|
  {
    if |grid| == 0 then []
    else
      var n := |grid| - 1;
      KeepRows(grid[..n], visible) + (if n in visible then [grid[n]] else [])
  }

  /** The `tempData.forEach` loop that pushes the visible rows into `jsonData`. */
  method KeepVisibleRows(grid: seq<seq<Cell>>, visible: set<nat>) returns (jsonData: seq<seq<Cell>>)
    ensures jsonData == KeepRows(grid, visible)
  {
    jsonData := [];
    var i := 0;
    while i < |grid|
      invariant 0 <= i <= |grid|
      invariant jsonData == KeepRows(grid[..i], visible)
    {
      assert grid[..i + 1][..i] == grid[..i];
      if i in visible {
        jsonData := jsonData + [grid[i]];
      }
      i := i + 1;
    }
    assert grid[..i] == grid;
  }

  /** The increasing list of the indices below `n` that are in `visible`. */
  function VisibleIndices(n: nat, visible: set<nat>): (r: seq<nat>)
    ensures |r| <= n
    ensures forall k :: 0 <= k < |r| ==> r[k] < n && r[k] in visible
    ensures forall j, k :: 0 <= j < k < |r| ==> r[j] < r[k]
    ensures forall i: nat :: i < n && i in visible ==> i in r
  {
    if n == 0 then []
    else VisibleIndices(n - 1, visible) + (if n - 1 in visible then [n - 1] else [])
  }

  /** `idx.map(i => s[i])`. */
  function Pick<T>(s: seq<T>, idx: seq<nat>): (r: seq<T>)
    requires forall k :: 0 <= k < |idx| ==> idx[k] < |s|
    ensures |r| == |idx| && forall k :: 0 <= k < |idx| ==> r[k] == s[idx[k]]
  {
    seq(|idx|, k requires 0 <= k < |idx| => s[idx[k]])
  }

  /** `jsonData` keeps exactly the rows whose index is visible, in sheet order. */
  lemma {:induction false} KeepRowsPicks(grid: seq<seq<Cell>>, visible: set<nat>)
    ensures KeepRows(grid, visible) == Pick(grid, VisibleIndices(|grid|, visible))
    decreases |grid|
  {
    if |grid| > 0 {
      var n := |grid| - 1;
      KeepRowsPicks(grid[..n], visible);
      var idx := VisibleIndices(n, visible);
      assert Pick(grid[..n], idx) == Pick(grid, idx);
      assert KeepRows(grid, visible) == Pick(grid, idx) + (if n in visible then [grid[n]] else []);
      if n in visible {
        assert VisibleIndices(|grid|, visible) == idx + [n];
        PickSnoc(grid, idx, n);
      } else {
        assert VisibleIndices(|grid|, visible) == idx;
      }
    }
  }

  lemma PickSnoc<T>(s: seq<T>, idx: seq<nat>, i: nat)
    requires forall k :: 0 <= k < |idx| ==> idx[k] < |s|
    requires i < |s|
    ensures Pick(s, idx + [i]) == Pick(s, idx) + [s[i]]
  {
    assert forall k :: 0 <= k < |idx| ==> (idx + [i])[k] == idx[k];
  }

  /** Every visible row is kept when the set covers the whole grid. */
  lemma KeepRowsAll(grid: seq<seq<Cell>>, visible: set<nat>)
    requires forall i: nat :: i < |grid| ==> i in visible
    ensures KeepRows(grid, visible) == grid
  {
    KeepRowsPicks(grid, visible);
    var idx := VisibleIndices(|grid|, visible);
    IncreasingCover(idx, |grid|);
  }

  /** A strictly increasing list of indices below `n` that holds all of them is `0 .. n-1`. */
  lemma {:induction false} IncreasingCover(idx: seq<nat>, n: nat)
    requires |idx| <= n
    requires forall k :: 0 <= k < |idx| ==> idx[k] < n
    requires forall j, k :: 0 <= j < k < |idx| ==> idx[j] < idx[k]
    requires forall i: nat :: i < n ==> i in idx
    ensures |idx| == n && forall k :: 0 <= k < n ==> idx[k] == k
    decreases n
  {
    if n > 0 {
      var m := n - 1;
      assert m in idx;
      var q :| 0 <= q < |idx| && idx[q] == m;
      var last := |idx| - 1;
      assert idx[q] <= idx[last];
      var init := idx[..last];
      forall i: nat | i < m ensures i in init {
        assert i in idx;
        var p :| 0 <= p < |idx| && idx[p] == i;
        assert p != last;
        assert init[p] == i;
      }
      IncreasingCover(init, m);
    }
  }

  /** `ALLOWED_COLUMNS.includes(col)`: strict equality with a whitelisted string. */
  predicate IsAllowed(col: Cell) {
    col.Text? && col.s in AllowedColumns
  }

  /** `allowedIndexes`: the positions of the whitelisted headers, increasing. */
  function AllowedIndexes(headers: seq<Cell>): (r: seq<nat>)
    ensures forall k :: 0 <= k < |r| ==> r[k] < |headers| && IsAllowed(headers[r[k]])
    ensures forall j, k :: 0 <= j < k < |r| ==> r[j] < r[k]
    ensures forall i :: 0 <= i < |headers| && IsAllowed(headers[i]) ==> i in r
  {
    if |headers| == 0 then []
    else
      var n := |headers| - 1;
      AllowedIndexes(headers[..n]) + (if IsAllowed(headers[n]) then [n] else [])
  }

  /** `cell !== undefined && cell !== null && cell !== ''`. */
  predicate IsFilled(c: Cell) {
    !c.Missing? && c != Text("")
  }

  /** `row.some(...)`: the row has a filled cell. */
  predicate HasContent(row: seq<Cell>) {
    exists k :: 0 <= k < |row| && IsFilled(row[k])
  }

  /** `row[i] ?? ''`. */
  function CellOrBlank(row: seq<Cell>, i: nat): (c: Cell)
    ensures i < |row| && !row[i].Missing? ==> c == row[i]
    ensures i >= |row| || row[i].Missing? ==> c == Text("")
  {
    if i < |row| && !row[i].Missing? then row[i] else Text("")
  }

  /** `allowedIndexes.map((i) => row[i] ?? '')`. */
  function Project(row: seq<Cell>, idx: seq<nat>): (r: seq<Cell>)
    ensures |r| == |idx|
    ensures forall k :: 0 <= k < |idx| ==> r[k] == CellOrBlank(row, idx[k])
  {
    seq(|idx|, k requires 0 <= k < |idx| => CellOrBlank(row, idx[k]))
  }

  /** `filteredData`: the rows with content, projected on the kept columns. */
  function FilteredData(rows: seq<seq<Cell>>, idx: seq<nat>): (r: seq<seq<Cell>>)
    ensures |r| <= |rows|
    ensures forall k :: 0 <= k < |r| ==> |r[k]| == |idx|
  {
    var kept := Filter(rows, HasContent);
    seq(|kept|, k requires 0 <= k < |kept| => Project(kept[k], idx))
  }

  /** Appending a data row appends its projection exactly when it has content,
      so the order of the rows is kept. */
  lemma FilteredDataAppend(rows: seq<seq<Cell>>, row: seq<Cell>, idx: seq<nat>)
    ensures FilteredData(rows + [row], idx)
      == FilteredData(rows, idx) + (if HasContent(row) then [Project(row, idx)] else [])
  {
    FilterConcat(rows, [row], HasContent);
    assert Filter([row], HasContent) == (if HasContent(row) then [row] else []) by {
      assert [row][..0] == [];
    }
  }

  /** Every output row comes from a data row that has content. */
  lemma FilteredDataFrom(rows: seq<seq<Cell>>, idx: seq<nat>)
    ensures forall k :: 0 <= k < |FilteredData(rows, idx)| ==>
      exists i :: 0 <= i < |rows| && HasContent(rows[i]) && FilteredData(rows, idx)[k] == Project(rows[i], idx)
  {
    var kept := Filter(rows, HasContent);
    var out := FilteredData(rows, idx);
    assert |out| == |kept| && forall k :: 0 <= k < |out| ==> out[k] == Project(kept[k], idx);
    forall k | 0 <= k < |out|
      ensures exists i :: 0 <= i < |rows| && HasContent(rows[i]) && out[k] == Project(rows[i], idx)
    {
      var row := kept[k];
      assert HasContent(row) && row in rows;
      var i :| 0 <= i < |rows| && rows[i] == row;
      assert out[k] == Project(rows[i], idx);
    }
  }

  /** The upload handler after the visible rows are known: the two errors, or
      the kept headers and the filtered data. */
  function UploadFrom(sheet: Sheet, visible: set<nat>): (r: Result<Upload, string>)
    ensures |KeepRows(sheet.grid, visible)| <= 1 <==> r == Failure(NoVisibleRowsError)
    ensures r == Failure(NoMatchingColumnsError) <==>
      |KeepRows(sheet.grid, visible)| > 1 && AllowedIndexes(KeepRows(sheet.grid, visible)[0]) == []
    ensures r.Success? <==>
      |KeepRows(sheet.grid, visible)| > 1 && AllowedIndexes(KeepRows(sheet.grid, visible)[0]) != []
    ensures r.Success? ==>
      var json := KeepRows(sheet.grid, visible);
      var idx := AllowedIndexes(json[0]);
      && |r.value.headers| == |idx| > 0
      && (forall k :: 0 <= k < |idx| ==> r.value.headers[k] == json[0][idx[k]] && IsAllowed(r.value.headers[k]))
      && r.value.data == FilteredData(json[1..], idx)
      && (forall k :: 0 <= k < |r.value.data| ==> |r.value.data[k]| == |r.value.headers|)
  {
    var json := KeepRows(sheet.grid, visible);
    if |json| <= 1 then Failure(NoVisibleRowsError)
    else
      var idx := AllowedIndexes(json[0]);
      if |idx| == 0 then Failure(NoMatchingColumnsError)
      else Success(Upload(Pick(json[0], idx), FilteredData(json[1..], idx)))
  }

  /** The upload handler's outcome for a workbook, with the corrected visible
      rows (see `ReadUploadAsWritten` for the set the code builds). */
  ghost function ReadUpload(wb: Workbook): (r: Result<Upload, string>)
    requires WellFormed(wb)
    ensures ChooseSheet(wb).Failure? ==> r == Failure(ChooseSheet(wb).error)
    ensures ChooseSheet(wb).Success? ==>
      r == UploadFrom(wb.sheets[ChooseSheet(wb).value], VisibleRows(wb.sheets[ChooseSheet(wb).value]))
    ensures r.Failure? ==> r.error in {NoSheetsError, NoVisibleRowsError, NoMatchingColumnsError} && r.error != ""
    ensures r.Success? ==> forall k :: 0 <= k < |r.value.data| ==> |r.value.data[k]| == |r.value.headers|
  {
    match ChooseSheet(wb)
    case Failure(e) => Failure(e)
    case Success(name) => UploadFrom(wb.sheets[name], VisibleRows(wb.sheets[name]))
  }

  /** The handler's work between reading the workbook and setting the state. */
  method ParseWorkbook(wb: Workbook) returns (r: Result<Upload, string>)
    requires WellFormed(wb)
    ensures r == ReadUpload(wb)
    ensures r.Failure? ==> r.error in {NoSheetsError, NoVisibleRowsError, NoMatchingColumnsError}
  {
    var name := ChooseSheet(wb);
    if name.Failure? {
      return Failure(name.error);
    }
    var sheet := wb.sheets[name.value];
    var visible := CollectVisibleRows(sheet);
    var jsonData := KeepVisibleRows(sheet.grid, visible);
    if |jsonData| <= 1 {
      return Failure(NoVisibleRowsError);
    }
    var idx := AllowedIndexes(jsonData[0]);
    if |idx| == 0 {
      return Failure(NoMatchingColumnsError);
    }
    r := Success(Upload(Pick(jsonData[0], idx), FilteredData(jsonData[1..], idx)));
  }

  /** The upload handler's outcome as the code computes it, with the visible
      rows its `forEach` collects. */
  ghost function ReadUploadAsWritten(wb: Workbook): (r: Result<Upload, string>)
    requires WellFormed(wb)
    ensures r.Failure? ==> r.error in {NoSheetsError, NoVisibleRowsError, NoMatchingColumnsError} && r.error != ""
    ensures r.Success? ==> forall k :: 0 <= k < |r.value.data| ==> |r.value.data[k]| == |r.value.headers|
  {
    match ChooseSheet(wb)
    case Failure(e) => Failure(e)
    case Success(name) => UploadFrom(wb.sheets[name], VisibleRowsAsWritten(wb.sheets[name]))
  }

  /** Row properties, when present, hold an entry for every row of a range
      that starts at row 0, with no holes. */
  predicate FullRowInfo(sheet: Sheet) {
    sheet.rowInfo.Some? ==>
      && SpanOf(sheet).first == 0
      && |sheet.rowInfo.value| == SpanOf(sheet).last + 1
      && forall k :: 0 <= k < |sheet.rowInfo.value| ==> !sheet.rowInfo.value[k].Hole?
  }

  /** The handler as written and the corrected one give the same outcome
      whenever the chosen sheet's row properties are full. */
  lemma UploadAsWrittenAgrees(wb: Workbook)
    requires WellFormed(wb)
    requires ChooseSheet(wb).Success? ==> FullRowInfo(wb.sheets[ChooseSheet(wb).value])
    ensures ReadUploadAsWritten(wb) == ReadUpload(wb)
  {
    if ChooseSheet(wb).Success? {
      AsWrittenAgrees(wb.sheets[ChooseSheet(wb).value]);
    }
  }

  /** A workbook holding only `SparseSheet`: the handler as written reports no
      visible data rows, while the corrected one loads both data rows. */
  lemma SparseUploadFails()
    ensures WellFormed(Workbook([PreferredSheet], map[PreferredSheet := SparseSheet]))
    ensures ReadUploadAsWritten(Workbook([PreferredSheet], map[PreferredSheet := SparseSheet]))
      == Failure(NoVisibleRowsError)
    ensures ReadUpload(Workbook([PreferredSheet], map[PreferredSheet := SparseSheet])).Success?
  {
    var wb := Workbook([PreferredSheet], map[PreferredSheet := SparseSheet]);
    assert ChooseSheet(wb) == Success(PreferredSheet);
    assert wb.sheets[PreferredSheet] == SparseSheet;
    RowsWithoutPropertiesDropped();
  }

  /** With no holes and an entry for every row of a range that starts at row 0,
      the loop as written finds the intended set. */
  lemma AsWrittenAgrees(sheet: Sheet)
    requires FullRowInfo(sheet)
    ensures VisibleRowsAsWritten(sheet) == VisibleRows(sheet)
  {
    if sheet.rowInfo.Some? {
      var info := sheet.rowInfo.value;
      forall k: nat ensures k in VisibleRowsAsWritten(sheet) <==> k in VisibleRows(sheet) {
        if k < |info| {
          assert Shown(info[k]) <==> !HiddenAt(sheet.rowInfo, k);
        }
      }
    }
  }

  /** A sheet whose only row entry is for the header row (say, a custom
      height), with two data rows under it. */
  const SparseSheet := Sheet(Some([Props(false)]), Some(RowSpan(0, 2)),
    [[Text("START_TIME"), Text("AMOUNT")], [Text("01/02/2024"), Number(3.0)], [Text("02/02/2024"), Number(4.0)]])

  /** The loop as written counts rows without properties as hidden: the upload
      of `SparseSheet` fails, though none of its rows is hidden. */
  lemma RowsWithoutPropertiesDropped()
    ensures VisibleRowsAsWritten(SparseSheet) == {0}
    ensures VisibleRows(SparseSheet) == {0, 1, 2}
    ensures UploadFrom(SparseSheet, VisibleRowsAsWritten(SparseSheet)) == Failure(NoVisibleRowsError)
    ensures UploadFrom(SparseSheet, VisibleRows(SparseSheet)).Success?
  {
    SparseVisibleSets();
    SparseKeptRows();
    SparseHeaders();
  }

  lemma SparseVisibleSets()
    ensures VisibleRowsAsWritten(SparseSheet) == {0}
    ensures VisibleRows(SparseSheet) == {0, 1, 2}
  {
    forall k: nat ensures k in VisibleRowsAsWritten(SparseSheet) <==> k == 0 { }
    forall k: nat ensures k in VisibleRows(SparseSheet) <==> k <= 2 { }
  }

  lemma SparseKeptRows()
    ensures KeepRows(SparseSheet.grid, {0}) == [SparseSheet.grid[0]]
    ensures KeepRows(SparseSheet.grid, {0, 1, 2}) == SparseSheet.grid
  {
    var grid := SparseSheet.grid;
    assert grid[..1][..0] == [] && grid[..2][..1] == grid[..1] && grid[..3][..2] == grid[..2];
    assert grid[..3] == grid;
  }

  lemma SparseHeaders()
    ensures AllowedIndexes(SparseSheet.grid[0]) == [0, 1]
  {
    var header := SparseSheet.grid[0];
    assert header[..1][..0] == [] && header[..2][..1] == header[..1] && header[..2] == header;
    assert IsAllowed(header[0]) && IsAllowed(header[1]);
  }

  /** `s.split('.')[0]`: the text before the first dot. */
  function BeforeDot(s: string): (r: string)
    ensures |r| <= |s| && r == s[..|r|]
    ensures '.' !in r
    ensures |r| < |s| ==> s[|r|] == '.'
  {
    if |s| == 0 || s[0] == '.' then "" else [s[0]] + BeforeDot(s[1..])
  }

  /** The name the report downloads under: the uploaded file's name up to its
      first dot, or "excel-report" when that is empty, with ".pdf" added. */
  function DownloadName(fileName: string): (r: string)
    ensures |r| > 4 && r[|r| - 4..] == ".pdf"
    ensures |fileName| == 0 || fileName[0] == '.' ==> r[..|r| - 4] == "excel-report"
    ensures |fileName| > 0 && fileName[0] != '.' ==>
      var stem := r[..|r| - 4];
      && 0 < |stem| <= |fileName| && stem == fileName[..|stem|] && '.' !in stem
      && (|stem| == |fileName| || fileName[|stem|] == '.')
  {
    var stem := BeforeDot(fileName);
    (if stem == "" then "excel-report" else stem) + ".pdf"
  }

  /** The page's state: the loaded table, the file name, the error text, and
      how many rows to display. */
  class ExcelToPdfPage {
    var excelData: seq<seq<Cell>>
    var headers: seq<Cell>
    var fileName: string
    var errorMessage: string
    var displayRowCount: int
    var totalRowCount: int

    /** The row count is the table's length, every row has one cell per
        header, and the display count is not negative. */
    ghost predicate Valid()
      reads this
    {
      && totalRowCount == |excelData|
      && displayRowCount >= 0
      && forall k :: 0 <= k < |excelData| ==> |excelData[k]| == |headers|
    }

    constructor()
      ensures Valid()
      ensures excelData == [] && headers == [] && fileName == "" && errorMessage == ""
      ensures displayRowCount == DefaultRowCount && totalRowCount == 0
    {
      excelData, headers, fileName, errorMessage := [], [], "", "";
      displayRowCount, totalRowCount := DefaultRowCount, 0;
    }

    /** `handleRowCountChange`: only a positive integer changes the count. */
    method HandleRowCountChange(value: string)
      requires Valid()
      modifies this
      ensures Valid()
      ensures ParseInt(value).Some? && ParseInt(value).value > 0 ==> displayRowCount == ParseInt(value).value
      ensures !(ParseInt(value).Some? && ParseInt(value).value > 0) ==> displayRowCount == old(displayRowCount)
      ensures excelData == old(excelData) && headers == old(headers) && totalRowCount == old(totalRowCount)
      ensures fileName == old(fileName) && errorMessage == old(errorMessage)
    {
      var parsed := ParseInt(value);
      if parsed.Some? && parsed.value > 0 {
        displayRowCount := parsed.value;
      }
    }

    /** The quick-select buttons: `Math.min(count, totalRowCount)`. */
    method QuickSelect(count: nat)
      requires Valid()
      modifies this
      ensures Valid()
      ensures displayRowCount <= count && displayRowCount <= totalRowCount
      ensures displayRowCount == count || displayRowCount == totalRowCount
      ensures excelData == old(excelData) && headers == old(headers) && totalRowCount == old(totalRowCount)
      ensures fileName == old(fileName) && errorMessage == old(errorMessage)
    {
      displayRowCount := if count < totalRowCount then count else totalRowCount;
    }

    /** The "All" button. */
    method SelectAll()
      requires Valid()
      modifies this
      ensures Valid()
      ensures displayRowCount == totalRowCount
      ensures excelData == old(excelData) && headers == old(headers) && totalRowCount == old(totalRowCount)
      ensures fileName == old(fileName) && errorMessage == old(errorMessage)
    {
      displayRowCount := totalRowCount;
    }

    /** `excelData.slice(0, displayRowCount)`. */
    function DisplayData(): (r: seq<seq<Cell>>)
      reads this
      requires Valid()
      ensures |r| == if displayRowCount < |excelData| then displayRowCount else |excelData|
      ensures forall k :: 0 <= k < |r| ==> r[k] == excelData[k]
    {
      if displayRowCount < |excelData| then excelData[..displayRowCount] else excelData
    }

    /** `resetData`: back to an empty table. */
    method ResetData()
      requires Valid()
      modifies this
      ensures Valid()
      ensures excelData == [] && headers == [] && fileName == "" && errorMessage == "" && totalRowCount == 0
      ensures displayRowCount == old(displayRowCount)
    {
      excelData, headers, fileName, errorMessage, totalRowCount := [], [], "", "", 0;
    }

    /** `handleFileUpload`: no file changes nothing; otherwise the page shows
        the file name and either the upload or its error over an empty table. */
    method HandleFileUpload(file: Option<UploadedFile>)
      requires Valid()
      requires file.Some? ==> WellFormed(file.value.workbook)
      modifies this
      ensures Valid()
      ensures file.None? ==>
        && excelData == old(excelData) && headers == old(headers)
        && fileName == old(fileName) && errorMessage == old(errorMessage) && totalRowCount == old(totalRowCount)
      ensures file.Some? ==> fileName == file.value.name
      ensures file.Some? && ReadUpload(file.value.workbook).Success? ==>
        && headers == ReadUpload(file.value.workbook).value.headers
        && excelData == ReadUpload(file.value.workbook).value.data
        && errorMessage == ""
      ensures file.Some? && ReadUpload(file.value.workbook).Failure? ==>
        && headers == [] && excelData == [] && totalRowCount == 0
        && errorMessage == ReadUpload(file.value.workbook).error && errorMessage != ""
      ensures displayRowCount == old(displayRowCount)
    {
      if file.None? {
        return;
      }
      fileName := file.value.name;
      var r := ParseWorkbook(file.value.workbook);
      if r.Success? {
        ShowUpload(r.value);
      } else {
        ShowError(r.error);
      }
    }

    /** The success branch: the table becomes the upload and the error is cleared. */
    method ShowUpload(upload: Upload)
      requires forall k :: 0 <= k < |upload.data| ==> |upload.data[k]| == |upload.headers|
      requires displayRowCount >= 0
      modifies this
      ensures Valid()
      ensures headers == upload.headers && excelData == upload.data && errorMessage == ""
      ensures fileName == old(fileName) && displayRowCount == old(displayRowCount)
    {
      headers, excelData, totalRowCount, errorMessage := upload.headers, upload.data, |upload.data|, "";
    }

    /** The failure branch: the error is shown over an empty table. */
    method ShowError(message: string)
      requires displayRowCount >= 0
      modifies this
      ensures Valid()
      ensures headers == [] && excelData == [] && totalRowCount == 0 && errorMessage == message
      ensures fileName == old(fileName) && displayRowCount == old(displayRowCount)
    {
      headers, excelData, totalRowCount, errorMessage := [], [], 0, message;
    }
  }
}
