/** `generatePDF` of the usage-statement page: a banner, the detail table,
    then the summary by category, the footer and the page numbers. */
module StatementPdf {
  import opened Wrappers
  import opened Seqs
  import opened Cells
  import opened Extract
  import opened Summary
  import opened DateRange
  import opened Pdf
  import opened Tables

  const DetailLabels := ["Start Time", "End Time", "Usage Type", "Consumption"]
  const SummaryTitle := "Usage Summary by Type"
  /** Top of the table on the first page. */
  const TableTop := 55
  /** The cursor under the first-page table header. */
  const FirstRowY := TableTop + RowHeight

  /** The pages of a statement with `n` detail rows and `m` summary rows: the
      first page, the breaks of the table from under its header, and the
      breaks of the summary block from two row heights below the table. */
  function StatementPages(n: nat, m: nat): nat {
    1 + BreaksIn(FirstRowY, n, DetailTop, RowHeight)
      + BreaksIn(CursorAfter(FirstRowY, n, DetailTop, RowHeight) + 2 * RowHeight, m, Margin, SummaryRowHeight)
  }

  /** The first page holds 19 detail rows (at 65, 75, ..., 245 mm), and every
      later page 23: `n` rows add no page for n <= 19, and q + 1 pages for
      `19 + 23q + r` rows with 1 <= r <= 23. */
  lemma StatementTablePages(q: nat, r: int)
    requires 1 <= r <= DetailRowsPerPage
    ensures forall n: nat :: n <= 19 ==> BreaksIn(FirstRowY, n, DetailTop, RowHeight) == 0
    ensures BreaksIn(FirstRowY, 19 + q * DetailRowsPerPage + r, DetailTop, RowHeight) == q + 1
  {
    forall n: nat | n <= 19 ensures BreaksIn(FirstRowY, n, DetailTop, RowHeight) == 0 {
      DetailRunFits(FirstRowY, n);
    }
    DetailRunFits(FirstRowY, 19);
    RunSplit(FirstRowY, 19, q * DetailRowsPerPage + r, DetailTop, RowHeight);
    DetailPagesFromBreak(FirstRowY + 19 * RowHeight, q, r);
  }

  /** The statement fits on one page exactly when the table has at most 19
      rows and the summary rows, which start at `85 + 10n` mm, all start
      above the overflow line. */
  lemma OnePageStatement(n: nat, m: nat)
    ensures StatementPages(n, m) == 1 <==> n <= 19 && (m == 0 || 10 * n + 15 * m <= 177)
  {
    if n <= 19 {
      DetailRunFits(FirstRowY, n);
      var y0 := FirstRowY + n * RowHeight + 2 * RowHeight;
      if m > 0 && 10 * n + 15 * m > 177 {
        SummaryRunOverflows(y0, m);
      } else {
        SummaryRunFits(y0, m);
      }
    } else {
      DetailRunFits(FirstRowY, 19);
      RunSplit(FirstRowY, 19, n - 19, DetailTop, RowHeight);
      DetailRunOverflows(FirstRowY + 19 * RowHeight, n - 19);
    }
  }

  /** The first-page banner: logo, document number, user, date range, title,
      sheet name and generation time. */
  function Banner(form: Form, range: Range, generatedOn: string): (r: seq<Placed>)
    ensures forall k :: 0 <= k < |r| ==> IsBannerItem(r[k])
  {
    [Placed(10, Logo),
     Placed(15, Caption("Document #: " + OrDefault(form.documentNumber, "N/A"))),
     Placed(25, Caption("User: " + OrDefault(form.userName, "N/A"))),
     Placed(35, Caption(range.min + " - " + range.max)),
     Placed(35, Caption("Usage Statement")),
     Placed(45, Caption("Sheet: " + form.sheetName)),
     Placed(45, Caption("Generated on: " + generatedOn))]
  }

  predicate IsBannerItem(op: Placed) {
    SectionOf(op.item) == Heading
  }

  /** No item of the detail table comes after an item of the summary block. */
  ghost predicate TableBeforeSummary(ops: seq<Placed>) {
    forall i, j :: 0 <= i < j < |ops| && IsSummaryItem(ops[i].item) ==> !IsTableItem(ops[j].item)
  }

  /** What a finished drawing holds, read off its pages without the page
      numbers: the page count the break rule gives, the banner first, exactly
      the expected detail rows, summary rows and one footer, every row inside
      the body, the table before the summary, and the footer last on the last page. */
  ghost predicate StatementDrawn(lib: Library, rows: seq<UsageRecord>, summaries: seq<CategorySummary>,
                          banner: seq<Placed>, body: seq<seq<Placed>>) {
    && |body| == StatementPages(|rows|, |summaries|)
    && |banner| <= |Flatten(body)| && Flatten(body)[..|banner|] == banner
    && Select(Flatten(body), IsDetailRow) == ExpectedDetails(lib, rows)
    && Select(Flatten(body), IsSummaryRow) == ExpectedSummaryRows(summaries)
    && Select(Flatten(body), IsFooter) == [FooterLine(CompanyFooter)]
    && (forall k :: 0 <= k < |Flatten(body)| ==> InBody(Flatten(body)[k]))
    && TableBeforeSummary(Flatten(body))
    && |body[|body| - 1]| > 0
    && body[|body| - 1][|body[|body| - 1]| - 1] == Placed(FooterY, FooterLine(CompanyFooter))
  }

  /** The drawing part of `generatePDF`: draw, then stamp the page numbers. */
  method Layout(lib: Library, rows: seq<UsageRecord>, summaries: seq<CategorySummary>, banner: seq<Placed>)
    returns (pages: seq<seq<Placed>>)
    requires forall k :: 0 <= k < |banner| ==> IsBannerItem(banner[k])
    ensures Stamped(pages) && StatementDrawn(lib, rows, summaries, banner, Body(pages))
    ensures forall p :: 0 <= p < |pages| ==> RowsUnderHeader(pages[p])
  {
    var doc := new PdfDoc();
    assert Flatten(doc.pages) == [] by {
      assert doc.pages[..0] == [];
    }
    DrawReport(doc, lib, rows, summaries, banner);
    pages := Finish(doc);
  }

  /** Draws the banner and the sections on a blank one-page document. */
  method DrawReport(doc: PdfDoc, lib: Library, rows: seq<UsageRecord>, summaries: seq<CategorySummary>,
                    banner: seq<Placed>)
    requires Drawing(doc) && Flatten(doc.pages) == [] && |doc.pages| == 1
    requires forall k :: 0 <= k < |banner| ==> IsBannerItem(banner[k])
    modifies doc
    ensures Drawing(doc) && StatementDrawn(lib, rows, summaries, banner, doc.pages)
  {
    PutAll(doc, banner);
    assert Flatten(doc.pages) == banner;
    ghost var header, table, sumHeader, block, footer := DrawSections(doc, lib, rows, summaries);
    ghost var ops := banner + [header] + table + [sumHeader] + block + [footer];
    DrawnSections(lib, rows, summaries, banner, header, table, sumHeader, block, footer, ops);
    assert Flatten(doc.pages) == ops;
  }

  /** What each section of the drawing holds:
      the table header, the detail rows, the summary header, the summary rows and the footer. */
  ghost predicate SectionsDrawn(lib: Library, rows: seq<UsageRecord>, summaries: seq<CategorySummary>,
                                header: Placed, table: seq<Placed>, sumHeader: Placed, block: seq<Placed>, footer: Placed) {
    && header.item.TableHeader?
    && Select(table, IsDetailRow) == ExpectedDetails(lib, rows) && TableOps(table)
    && sumHeader.item.SummaryHeader? && InBody(sumHeader)
    && Select(block, IsSummaryRow) == ExpectedSummaryRows(summaries) && SummaryOps(block)
    && footer == Placed(FooterY, FooterLine(CompanyFooter))
  }

  /** Everything after the banner: the table, the summary block and the footer. */
  method DrawSections(doc: PdfDoc, lib: Library, rows: seq<UsageRecord>, summaries: seq<CategorySummary>)
    returns (ghost header: Placed, ghost table: seq<Placed>, ghost sumHeader: Placed,
             ghost block: seq<Placed>, ghost footer: Placed)
    requires Drawing(doc)
    modifies doc
    ensures Drawing(doc)
    ensures Flatten(doc.pages) == Flatten(old(doc.pages)) + [header] + table + [sumHeader] + block + [footer]
    ensures |doc.pages| == |old(doc.pages)| + StatementPages(|rows|, |summaries|) - 1
    ensures var last := doc.pages[|doc.pages| - 1]; |last| > 0 && last[|last| - 1] == footer
    ensures SectionsDrawn(lib, rows, summaries, header, table, sumHeader, block, footer)
  {
    var top := Placed(TableTop, TableHeader(DetailLabels));
    Put(doc, top.y, top.item);
    var y;
    y, table := DrawDetailRows(doc, lib, rows, DetailLabels, FirstRowY);
    y := y + RowHeight;
    var title := Placed(y, SummaryHeader(SummaryTitle));
    Put(doc, title.y, title.item);
    y := y + RowHeight;
    y, block := DrawSummaryRows(doc, summaries, y);
    var closing := Placed(FooterY, FooterLine(CompanyFooter));
    Put(doc, closing.y, closing.item);
    header, sumHeader, footer := top, title, closing;
  }

  /** The properties of a document assembled from sections known to satisfy `SectionsDrawn`. */
  lemma DrawnSections(lib: Library, rows: seq<UsageRecord>, summaries: seq<CategorySummary>,
                      banner: seq<Placed>, header: Placed, table: seq<Placed>, sumHeader: Placed, block: seq<Placed>, footer: Placed, ops: seq<Placed>)
    requires ops == banner + [header] + table + [sumHeader] + block + [footer]
    requires forall k :: 0 <= k < |banner| ==> IsBannerItem(banner[k])
    requires SectionsDrawn(lib, rows, summaries, header, table, sumHeader, block, footer)
    ensures |banner| <= |ops| && ops[..|banner|] == banner
    ensures Select(ops, IsDetailRow) == ExpectedDetails(lib, rows)
    ensures Select(ops, IsSummaryRow) == ExpectedSummaryRows(summaries)
    ensures Select(ops, IsFooter) == [FooterLine(CompanyFooter)]
    ensures forall k :: 0 <= k < |ops| ==> InBody(ops[k])
    ensures TableBeforeSummary(ops)
  {
    StatementSections(lib, rows, summaries, banner, header, table, sumHeader, block, footer, ops);
  }

  lemma StatementSections(lib: Library, rows: seq<UsageRecord>, summaries: seq<CategorySummary>,
                          banner: seq<Placed>, header: Placed, table: seq<Placed>,
                          sumHeader: Placed, block: seq<Placed>, footer: Placed, ops: seq<Placed>)
    requires ops == banner + [header] + table + [sumHeader] + block + [footer]
    requires forall k :: 0 <= k < |banner| ==> IsBannerItem(banner[k])
    requires header.item.TableHeader?
    requires Select(table, IsDetailRow) == ExpectedDetails(lib, rows) && TableOps(table)
    requires sumHeader.item.SummaryHeader? && InBody(sumHeader)
    requires Select(block, IsSummaryRow) == ExpectedSummaryRows(summaries) && SummaryOps(block)
    requires footer == Placed(FooterY, FooterLine(CompanyFooter))
    ensures |banner| <= |ops| && ops[..|banner|] == banner
    ensures Select(ops, IsDetailRow) == ExpectedDetails(lib, rows)
    ensures Select(ops, IsSummaryRow) == ExpectedSummaryRows(summaries)
    ensures Select(ops, IsFooter) == [FooterLine(CompanyFooter)]
    ensures forall k :: 0 <= k < |ops| ==> InBody(ops[k])
    ensures TableBeforeSummary(ops)
  {
    assert ops[..|banner|] == banner;
    DetailsOfStatement(banner, header, table, sumHeader, block, footer);
    SummaryRowsOfStatement(banner, header, table, sumHeader, block, footer);
    FootersOfStatement(banner, header, table, sumHeader, block, footer);
    PlacementOfStatement(banner, header, table, sumHeader, block, footer);
  }

  /** The detail rows of the assembled document are those of its table. */
  lemma DetailsOfStatement(banner: seq<Placed>, header: Placed, table: seq<Placed>,
                           sumHeader: Placed, block: seq<Placed>, footer: Placed)
    requires forall k :: 0 <= k < |banner| ==> IsBannerItem(banner[k])
    requires header.item.TableHeader? && sumHeader.item.SummaryHeader? && footer.item.FooterLine?
    requires forall k :: 0 <= k < |block| ==> block[k].item.SummaryRow?
    ensures Select(banner + [header] + table + [sumHeader] + block + [footer], IsDetailRow)
      == Select(table, IsDetailRow)
  {
    SelectNone(banner, IsDetailRow);
    SelectNone(block, IsDetailRow);
    SelectOne(header, IsDetailRow);
    SelectOne(sumHeader, IsDetailRow);
    SelectOne(footer, IsDetailRow);
    SelectSix(banner, [header], table, [sumHeader], block, [footer], IsDetailRow);
  }

  /** The summary rows of the assembled document are those of its summary block. */
  lemma SummaryRowsOfStatement(banner: seq<Placed>, header: Placed, table: seq<Placed>,
                               sumHeader: Placed, block: seq<Placed>, footer: Placed)
    requires forall k :: 0 <= k < |banner| ==> IsBannerItem(banner[k])
    requires header.item.TableHeader? && sumHeader.item.SummaryHeader? && footer.item.FooterLine?
    requires forall k :: 0 <= k < |table| ==> IsTableItem(table[k].item)
    ensures Select(banner + [header] + table + [sumHeader] + block + [footer], IsSummaryRow)
      == Select(block, IsSummaryRow)
  {
    SelectNone(banner, IsSummaryRow);
    SelectNone(table, IsSummaryRow);
    SelectOne(header, IsSummaryRow);
    SelectOne(sumHeader, IsSummaryRow);
    SelectOne(footer, IsSummaryRow);
    SelectSix(banner, [header], table, [sumHeader], block, [footer], IsSummaryRow);
  }

  /** The footer is drawn exactly once. */
  lemma FootersOfStatement(banner: seq<Placed>, header: Placed, table: seq<Placed>,
                           sumHeader: Placed, block: seq<Placed>, footer: Placed)
    requires forall k :: 0 <= k < |banner| ==> !IsFooter(banner[k].item)
    requires !IsFooter(header.item) && !IsFooter(sumHeader.item) && IsFooter(footer.item)
    requires forall k :: 0 <= k < |table| ==> !IsFooter(table[k].item)
    requires forall k :: 0 <= k < |block| ==> !IsFooter(block[k].item)
    ensures Select(banner + [header] + table + [sumHeader] + block + [footer], IsFooter) == [footer.item]
  {
    SelectNone(banner, IsFooter);
    SelectNone(table, IsFooter);
    SelectNone(block, IsFooter);
    SelectOne(header, IsFooter);
    SelectOne(sumHeader, IsFooter);
    SelectOne(footer, IsFooter);
    SelectSix(banner, [header], table, [sumHeader], block, [footer], IsFooter);
  }

  /** Where things sit in the assembled document: rows inside the body, the
      table before the summary. */
  lemma PlacementOfStatement(banner: seq<Placed>, header: Placed, table: seq<Placed>,
                             sumHeader: Placed, block: seq<Placed>, footer: Placed)
    requires forall k :: 0 <= k < |banner| ==> IsBannerItem(banner[k])
    requires header.item.TableHeader? && TableOps(table)
    requires sumHeader.item.SummaryHeader? && InBody(sumHeader)
    requires SummaryOps(block)
    requires footer.item.FooterLine?
    ensures var ops := banner + [header] + table + [sumHeader] + block + [footer];
      (forall k :: 0 <= k < |ops| ==> InBody(ops[k])) && TableBeforeSummary(ops)
  {
    var ops := banner + [header] + table + [sumHeader] + block + [footer];
    var cut := |banner| + 1 + |table|;
    forall k | 0 <= k < cut ensures !IsSummaryItem(ops[k].item) && InBody(ops[k]) {
      if k < |banner| {
        assert ops[k] == banner[k];
      } else if k > |banner| {
        assert ops[k] == table[k - |banner| - 1];
      }
    }
    forall k | cut <= k < |ops| ensures !IsTableItem(ops[k].item) && InBody(ops[k]) {
      if cut < k < |ops| - 1 {
        assert ops[k] == block[k - cut - 1];
      }
    }
  }

  /** `generatePDF`: the two error messages, and otherwise the saved document. */
  method GeneratePdf(lib: Library, data: Option<seq<seq<Cell>>>, form: Form, generatedOn: string)
    returns (r: Result<Document, string>)
    ensures (data.None? || data.value == []) <==> r == Failure(NoDataError)
    ensures data.Some? && data.value != [] && ExtractRows(lib, data.value, UsageStatement) == [] ==>
      r == Failure(NoRowsError)
    ensures r.Success? <==> data.Some? && data.value != [] && ExtractRows(lib, data.value, UsageStatement) != []
    ensures r.Success? ==>
      var rows := ExtractRows(lib, data.value, UsageStatement);
      var range := Range(FormatDate(lib, Earliest(lib, rows)), FormatDate(lib, Latest(lib, rows)));
      && r.value.fileName == FileName(form.documentNumber)
      && Stamped(r.value.pages)
      && StatementDrawn(lib, rows, ExpectedSummaries(lib, rows), Banner(form, range, generatedOn), Body(r.value.pages))
  {
    if data.None? || data.value == [] {
      return Failure(NoDataError);
    }
    var rows, summaries := ExtractRequiredData(lib, data.value, UsageStatement);
    var range := CalculateDateRange(lib, rows);
    if rows == [] {
      return Failure(NoRowsError);
    }
    var pages := Layout(lib, rows, summaries, Banner(form, range, generatedOn));
    r := Success(Document(FileName(form.documentNumber), pages));
  }
}
