/** The generic table report: the rows are cut into pages of a fixed size,
    and every page repeats the report header, the table header, the footer
    and its page number. */
module ReportDocument {
  import opened Seqs
  import opened Text
  import opened Cells

  /** `paginate`'s own default page size, and the one the document passes. */
  const PaginateDefault := 30
  const DefaultRowsPerPage := 35
  const DefaultTitle := "Excel Data Report"
  const DefaultCompany := "DATA SERVICES INC."
  const Disclaimer := "This report is for informational purposes only. Please contact support for any discrepancies."

  function Min(a: int, b: int): int {
    if a < b then a else b
  }

  /** The pages that start at row `i`: `data.slice(i, i + r)` and so on. */
  function ChunksFrom<T>(data: seq<T>, r: nat, i: nat): seq<seq<T>>
    requires r > 0
    decreases |data| - i
  {
    if i >= |data| then [] else [data[i..Min(i + r, |data|)]] + ChunksFrom(data, r, i + r)
  }

  /** The value of `paginate(data, r)`; with no data there is no page. */
  function Chunks<T>(data: seq<T>, r: int): seq<seq<T>>
    requires r > 0 || |data| == 0
  {
    if |data| == 0 then [] else ChunksFrom(data, r, 0)
  }

  /** `paginate`: the `for` loop that pushes one slice per page. It stops
      only for a positive page size, unless there is no data. */
  method Paginate<T>(data: seq<T>, rowsPerPage: int) returns (pages: seq<seq<T>>)
    requires rowsPerPage > 0 || |data| == 0
    ensures pages == Chunks(data, rowsPerPage)
  {
    pages := [];
    var i: nat := 0;
    while i < |data|
      invariant |data| == 0 ==> pages == []
      invariant |data| > 0 ==> pages + ChunksFrom(data, rowsPerPage, i) == Chunks(data, rowsPerPage)
      decreases |data| - i
    {
      pages := pages + [data[i..Min(i + rowsPerPage, |data|)]];
      i := i + rowsPerPage;
    }
  }

  lemma {:induction false} FlattenFront<T>(a: seq<T>, rest: seq<seq<T>>)
    ensures Flatten([a] + rest) == a + Flatten(rest)
  {
    FlattenConcat([a], rest);
    FlattenSingle(a);
  }

  lemma {:induction false} ChunksFromFlatten<T>(data: seq<T>, r: nat, i: nat)
    requires r > 0 && i <= |data|
    ensures Flatten(ChunksFrom(data, r, i)) == data[i..]
    decreases |data| - i
  {
    if i < |data| {
      var end := Min(i + r, |data|);
      FlattenFront(data[i..end], ChunksFrom(data, r, i + r));
      if i + r <= |data| {
        ChunksFromFlatten(data, r, i + r);
      } else {
        assert ChunksFrom(data, r, i + r) == [];
        assert Flatten<T>([]) == [];
      }
      assert data[i..] == data[i..end] + data[end..];
    } else {
      assert Flatten<T>([]) == [];
    }
  }

  /** Concatenating the pages gives back the data. */
  lemma PaginateRoundTrip<T>(data: seq<T>, r: int)
    requires r > 0 || |data| == 0
    ensures Flatten(Chunks(data, r)) == data
  {
    if |data| > 0 {
      ChunksFromFlatten(data, r, 0);
    } else {
      assert Flatten<T>([]) == [];
    }
  }

  lemma {:induction false} ChunksFromSizes<T>(data: seq<T>, r: nat, i: nat)
    requires r > 0
    ensures forall p :: 0 <= p < |ChunksFrom(data, r, i)| ==>
      0 < |ChunksFrom(data, r, i)[p]| <= r && (p < |ChunksFrom(data, r, i)| - 1 ==> |ChunksFrom(data, r, i)[p]| == r)
    decreases |data| - i
  {
    if i < |data| {
      ChunksFromSizes(data, r, i + r);
      var c := ChunksFrom(data, r, i);
      assert c[1..] == ChunksFrom(data, r, i + r);
      if |c| > 1 {
        assert i + r < |data|;
      }
    }
  }

  /** Every page is non-empty and holds at most `r` rows; all but the last hold exactly `r`. */
  lemma PageSizes<T>(data: seq<T>, r: int)
    requires r > 0 || |data| == 0
    ensures var c := Chunks(data, r);
      forall p :: 0 <= p < |c| ==> 0 < |c[p]| <= r && (p < |c| - 1 ==> |c[p]| == r)
  {
    if |data| > 0 {
      ChunksFromSizes(data, r, 0);
    }
  }

  lemma {:induction false} ChunksFromCount<T>(data: seq<T>, r: nat, i: nat)
    requires r > 0 && i < |data|
    ensures var c := |ChunksFrom(data, r, i)|;
      (c - 1) * r < |data| - i <= c * r
    decreases |data| - i
  {
    if i + r < |data| {
      ChunksFromCount(data, r, i + r);
      var c' := |ChunksFrom(data, r, i + r)|;
      assert |ChunksFrom(data, r, i)| == c' + 1;
      assert (c' + 1) * r == c' * r + r;
    } else {
      assert ChunksFrom(data, r, i + r) == [];
    }
  }

  /** The page count is `ceil(|data| / r)`: the smallest count whose pages of
      `r` rows hold all the data. */
  lemma PageCount<T>(data: seq<T>, r: int)
    requires r > 0 || |data| == 0
    ensures |data| == 0 <==> |Chunks(data, r)| == 0
    ensures |data| > 0 ==> (|Chunks(data, r)| - 1) * r < |data| <= |Chunks(data, r)| * r
  {
    if |data| > 0 {
      ChunksFromCount(data, r, 0);
    }
  }

  lemma {:induction false} ChunksFromAt<T>(data: seq<T>, r: nat, i: nat, p: nat)
    requires r > 0 && p < |ChunksFrom(data, r, i)|
    ensures i + p * r < |data|
    ensures ChunksFrom(data, r, i)[p] == data[i + p * r..Min(i + p * r + r, |data|)]
    decreases p
  {
    if p > 0 {
      ChunksFromAt(data, r, i + r, p - 1);
      assert i + r + (p - 1) * r == i + p * r;
    }
  }

  /** Page `p` holds the rows from `p * r` on: `data.slice(p * r, p * r + r)`. */
  lemma PageAt<T>(data: seq<T>, r: int, p: nat)
    requires r > 0 && p < |Chunks(data, r)|
    ensures p * r < |data|
    ensures Chunks(data, r)[p] == data[p * r..Min(p * r + r, |data|)]
  {
    ChunksFromAt(data, r, 0, p);
  }

  /** One `key: value` line of the report-details block. */
  datatype DetailLine = DetailLine(name: string, value: string)

  /** One rendered table row: its cell texts and whether it has the stripe style. */
  datatype TableRow = TableRow(cells: seq<string>, striped: bool)

  /** One rendered page, part by part, top to bottom. */
  datatype RenderedPage = RenderedPage(
    companyName: string, title: string, details: seq<DetailLine>,
    headerRow: seq<string>, rows: seq<TableRow>,
    footer: string, disclaimer: string, pageLabel: string)

  /** The component's props, in order; `reportDetails` as its entries. */
  datatype ReportProps = ReportProps(
    headers: seq<Cell>, data: seq<seq<Cell>>, title: string, companyName: string,
    reportDate: string, reportDetails: seq<(string, string)>, rowsPerPage: int)

  /** A header rendered as a React child: `undefined` renders nothing. */
  function ChildText(lib: Library, c: Cell): string {
    if c.Missing? then "" else Display(lib, c)
  }

  function HeaderRow(lib: Library, headers: seq<Cell>): (r: seq<string>)
    ensures |r| == |headers| && forall k :: 0 <= k < |headers| ==> r[k] == ChildText(lib, headers[k])
  {
    seq(|headers|, k requires 0 <= k < |headers| => ChildText(lib, headers[k]))
  }

  /** `row.map((cell) => String(cell))`. */
  function RowText(lib: Library, row: seq<Cell>): (r: seq<string>)
    ensures |r| == |row| && forall k :: 0 <= k < |row| ==> r[k] == Display(lib, row[k])
  {
    seq(|row|, k requires 0 <= k < |row| => Display(lib, row[k]))
  }

  /** The details block: one line per entry, then the generation date. */
  function DetailsBlock(entries: seq<(string, string)>, reportDate: string): (r: seq<DetailLine>)
    ensures |r| == |entries| + 1
    ensures forall k :: 0 <= k < |entries| ==> r[k] == DetailLine(entries[k].0 + ":", entries[k].1)
    ensures r[|entries|] == DetailLine("Report Generated:", reportDate)
  {
    seq(|entries|, k requires 0 <= k < |entries| => DetailLine(entries[k].0 + ":", entries[k].1))
      + [DetailLine("Report Generated:", reportDate)]
  }

  function PageLabel(index: nat, count: nat): string {
    "Page " + IntToString(index + 1) + " of " + IntToString(count)
  }

  /** One page of the document: page `index` of `count`, holding `pageData`. */
  function RenderPage(lib: Library, props: ReportProps, pageData: seq<seq<Cell>>, index: nat, count: nat): RenderedPage {
    RenderedPage(
      props.companyName, props.title,
      if index == 0 && |props.reportDetails| > 0 then DetailsBlock(props.reportDetails, props.reportDate) else [],
      HeaderRow(lib, props.headers),
      seq(|pageData|, j requires 0 <= j < |pageData| => TableRow(RowText(lib, pageData[j]), j % 2 == 1)),
      props.companyName + " - Confidential Information", Disclaimer, PageLabel(index, count))
  }

  /** `ExcelPDFDocument`: one rendered page per page of rows. */
  function RenderDocument(lib: Library, props: ReportProps): (doc: seq<RenderedPage>)
    requires props.rowsPerPage > 0 || |props.data| == 0
    ensures |doc| == |Chunks(props.data, props.rowsPerPage)|
    ensures forall i :: 0 <= i < |doc| ==>
      && doc[i].companyName == props.companyName && doc[i].title == props.title
      && doc[i].headerRow == HeaderRow(lib, props.headers)
      && doc[i].footer == props.companyName + " - Confidential Information"
      && doc[i].disclaimer == Disclaimer
      && doc[i].pageLabel == PageLabel(i, |doc|)
    ensures forall i :: 0 < i < |doc| ==> doc[i].details == []
    ensures |doc| > 0 ==> (doc[0].details != [] <==> |props.reportDetails| > 0)
    ensures forall i :: 0 <= i < |doc| ==>
      |doc[i].rows| == |Chunks(props.data, props.rowsPerPage)[i]|
      && forall j :: 0 <= j < |doc[i].rows| ==> (doc[i].rows[j].striped <==> j % 2 == 1)
  {
    var pages := Chunks(props.data, props.rowsPerPage);
    seq(|pages|, i requires 0 <= i < |pages| => RenderPage(lib, props, pages[i], i, |pages|))
  }

  /** Row `j` of page `p` shows data row `p * r + j`, cell for cell. */
  lemma RowRendered(lib: Library, props: ReportProps, p: nat, j: nat)
    requires props.rowsPerPage > 0
    requires p < |RenderDocument(lib, props)| && j < |RenderDocument(lib, props)[p].rows|
    ensures p * props.rowsPerPage + j < |props.data|
    ensures RenderDocument(lib, props)[p].rows[j].cells == RowText(lib, props.data[p * props.rowsPerPage + j])
  {
    var r, pages := props.rowsPerPage, Chunks(props.data, props.rowsPerPage);
    var doc := RenderDocument(lib, props);
    assert doc[p] == RenderPage(lib, props, pages[p], p, |pages|);
    PageAt(props.data, r, p);
    var start := p * r;
    assert pages[p] == props.data[start..Min(start + r, |props.data|)];
    assert j < |pages[p]|;
    assert pages[p][j] == props.data[start + j];
    assert doc[p].rows[j] == TableRow(RowText(lib, pages[p][j]), j % 2 == 1);
  }

  /** The page count is `ceil(|data| / r)`, and each page shows at most `r` rows. */
  lemma DocumentPages(lib: Library, props: ReportProps)
    requires props.rowsPerPage > 0
    ensures var doc := RenderDocument(lib, props);
      && (|props.data| == 0 <==> |doc| == 0)
      && (|props.data| > 0 ==> (|doc| - 1) * props.rowsPerPage < |props.data| <= |doc| * props.rowsPerPage)
      && (forall i :: 0 <= i < |doc| ==> 0 < |doc[i].rows| <= props.rowsPerPage)
  {
    PageCount(props.data, props.rowsPerPage);
    PageSizes(props.data, props.rowsPerPage);
  }

  /** The props the viewer page passes: its headers and all its rows, with
      every other prop left at its default. */
  function ExportProps(headers: seq<Cell>, data: seq<seq<Cell>>, reportDate: string): ReportProps {
    ReportProps(headers, data, DefaultTitle, DefaultCompany, reportDate, [], DefaultRowsPerPage)
  }

  /** The exported report has pages of 35 rows, no details block, and shows
      data row `k` as row `k % 35` of page `k / 35`. */
  lemma ExportDocument(lib: Library, headers: seq<Cell>, data: seq<seq<Cell>>, reportDate: string)
    ensures var doc := RenderDocument(lib, ExportProps(headers, data, reportDate));
      && |doc| == (|data| + 34) / 35
      && (forall i :: 0 <= i < |doc| ==> doc[i].details == [] && doc[i].title == DefaultTitle)
      && (forall k :: 0 <= k < |data| ==>
            k / 35 < |doc| && k % 35 < |doc[k / 35].rows| && doc[k / 35].rows[k % 35].cells == RowText(lib, data[k]))
  {
    var props := ExportProps(headers, data, reportDate);
    var doc := RenderDocument(lib, props);
    PageCount(data, 35);
    forall k | 0 <= k < |data|
      ensures k / 35 < |doc| && k % 35 < |doc[k / 35].rows| && doc[k / 35].rows[k % 35].cells == RowText(lib, data[k])
    {
      var p, j := k / 35, k % 35;
      PageAt(data, 35, p);
      RowRendered(lib, props, p, j);
    }
  }
}
