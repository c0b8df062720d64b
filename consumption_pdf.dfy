/** `generatePDF` of the consumption-report page: the same data, with the
    summary block before the detail table and Portuguese captions. */
module ConsumptionPdf {
  import opened Wrappers
  import opened Seqs
  import opened Cells
  import opened Extract
  import opened Summary
  import opened DateRange
  import opened Pdf
  import opened Tables

  const DetailLabels := ["Data de Início", "Data Final", "Tipo de Consumo", "Consumo"]
  const SummaryTitle := "Resumo de Consumo"
  /** Top of the summary block on the first page. */
  const SummaryTop := 55
  /** The cursor under the first-page summary header. */
  const FirstRowY := SummaryTop + RowHeight

  /** The pages of a report with `n` detail rows and `m` summary rows: the
      first page, the breaks of the summary block from under its header, and
      the breaks of the table from under the header drawn one row height below
      the summary. */
  function ReportPages(n: nat, m: nat): nat {
    1 + BreaksIn(FirstRowY, m, Margin, SummaryRowHeight)
      + BreaksIn(CursorAfter(FirstRowY, m, Margin, SummaryRowHeight) + 2 * RowHeight, n, DetailTop, RowHeight)
  }

  /** The first page holds 13 summary rows (at 65, 80, ..., 245 mm), and every
      later page 16: `m` rows add no page for m <= 13, and q + 1 pages for
      `13 + 16q + r` rows with 1 <= r <= 16. */
  lemma ReportSummaryPages(q: nat, r: int)
    requires 1 <= r <= SummaryRowsPerPage
    ensures forall m: nat :: m <= 13 ==> BreaksIn(FirstRowY, m, Margin, SummaryRowHeight) == 0
    ensures BreaksIn(FirstRowY, 13 + q * SummaryRowsPerPage + r, Margin, SummaryRowHeight) == q + 1
  {
    forall m: nat | m <= 13 ensures BreaksIn(FirstRowY, m, Margin, SummaryRowHeight) == 0 {
      SummaryRunFits(FirstRowY, m);
    }
    SummaryRunFits(FirstRowY, 13);
    RunSplit(FirstRowY, 13, q * SummaryRowsPerPage + r, Margin, SummaryRowHeight);
    SummaryPagesFromBreak(FirstRowY + 13 * SummaryRowHeight, q, r);
  }

  /** The report fits on one page exactly when the summary has at most 13
      rows and the detail rows, which start at `85 + 15m` mm, all start above
      the overflow line. */
  lemma OnePageReport(n: nat, m: nat)
    ensures ReportPages(n, m) == 1 <==> m <= 13 && (n == 0 || 15 * m + 10 * n <= 172)
  {
    if m <= 13 {
      SummaryRunFits(FirstRowY, m);
      var y0 := FirstRowY + m * SummaryRowHeight + 2 * RowHeight;
      if n > 0 && 15 * m + 10 * n > 172 {
        DetailRunOverflows(y0, n);
      } else {
        DetailRunFits(y0, n);
      }
    } else {
      SummaryRunFits(FirstRowY, 13);
      RunSplit(FirstRowY, 13, m - 13, Margin, SummaryRowHeight);
      SummaryRunOverflows(FirstRowY + 13 * SummaryRowHeight, m - 13);
    }
  }

  /** The first-page banner: logo image, customer number, customer name,
      title, consumption period and generation time. */
  function Banner(form: Form, range: Range, generatedOn: string): (r: seq<Placed>)
    ensures forall k :: 0 <= k < |r| ==> IsBannerItem(r[k])
  {
    [Placed(10, Logo),
     Placed(15, Caption("Nº do Cliente: " + OrDefault(form.documentNumber, "N/A"))),
     Placed(25, Caption("Cliente: " + OrDefault(form.userName, "N/A"))),
     Placed(35, Caption("Relatório de Consumo")),
     Placed(45, Caption(range.min + " - " + range.max)),
     Placed(45, Caption("Gerado em: " + generatedOn))]
  }

  predicate IsBannerItem(op: Placed) {
    SectionOf(op.item) == Heading
  }

  /** No item of the summary block comes after an item of the detail table. */
  ghost predicate SummaryBeforeTable(ops: seq<Placed>) {
    forall i, j :: 0 <= i < j < |ops| && IsTableItem(ops[i].item) ==> !IsSummaryItem(ops[j].item)
  }

  /** The consumption period the page shows: the placeholder while there
      are no rows, the computed range otherwise. */
  method Period(lib: Library, rows: seq<UsageRecord>) returns (range: Range)
    ensures |rows| == 0 ==> range == Range(TimePlaceholder(ConsumptionReport), TimePlaceholder(ConsumptionReport))
    ensures |rows| > 0 ==> range == Range(FormatDate(lib, Earliest(lib, rows)), FormatDate(lib, Latest(lib, rows)))
  {
    if |rows| > 0 {
      range := CalculateDateRange(lib, rows);
    } else {
      range := Range(TimePlaceholder(ConsumptionReport), TimePlaceholder(ConsumptionReport));
    }
  }

  /** What a finished drawing holds, read off its pages without the page
      numbers: the page count the break rule gives, the banner first, exactly
      the expected detail rows, summary rows and one footer, every row inside
      the body, the summary before the table, and the footer last on the last page. */
  ghost predicate ReportDrawn(lib: Library, rows: seq<UsageRecord>, summaries: seq<CategorySummary>,
                          banner: seq<Placed>, body: seq<seq<Placed>>) {
    && |body| == ReportPages(|rows|, |summaries|)
    && |banner| <= |Flatten(body)| && Flatten(body)[..|banner|] == banner
    && Select(Flatten(body), IsDetailRow) == ExpectedDetails(lib, rows)
    && Select(Flatten(body), IsSummaryRow) == ExpectedSummaryRows(summaries)
    && Select(Flatten(body), IsFooter) == [FooterLine(CompanyFooter)]
    && (forall k :: 0 <= k < |Flatten(body)| ==> InBody(Flatten(body)[k]))
    && SummaryBeforeTable(Flatten(body))
    && |body[|body| - 1]| > 0
    && body[|body| - 1][|body[|body| - 1]| - 1] == Placed(FooterY, FooterLine(CompanyFooter))
  }

  /** The drawing part of `generatePDF`: draw, then stamp the page numbers. */
  method Layout(lib: Library, rows: seq<UsageRecord>, summaries: seq<CategorySummary>, banner: seq<Placed>)
    returns (pages: seq<seq<Placed>>)
    requires forall k :: 0 <= k < |banner| ==> IsBannerItem(banner[k])
    ensures Stamped(pages) && ReportDrawn(lib, rows, summaries, banner, Body(pages))
    ensures forall p :: 0 <= p < |pages| ==> RowsUnderHeader(pages[p])
  {
    var doc := new PdfDoc();
    assert Flatten(doc.pages) == [] by {
      assert doc.pages[..0] == [];
    }
    DrawReport(doc, lib, rows, summaries, banner);
    pages := Finish(doc);
  }

  /** Draws the banner and the sections on a blank one-page document. */
  method DrawReport(doc: PdfDoc, lib: Library, rows: seq<UsageRecord>, summaries: seq<CategorySummary>,
                    banner: seq<Placed>)
    requires Drawing(doc) && Flatten(doc.pages) == [] && |doc.pages| == 1
    requires forall k :: 0 <= k < |banner| ==> IsBannerItem(banner[k])
    modifies doc
    ensures Drawing(doc) && ReportDrawn(lib, rows, summaries, banner, doc.pages)
  {
    PutAll(doc, banner);
    assert Flatten(doc.pages) == banner;
    ghost var sumHeader, block, header, table, footer := DrawSections(doc, lib, rows, summaries);
    ghost var ops := banner + [sumHeader] + block + [header] + table + [footer];
    DrawnSections(lib, rows, summaries, banner, sumHeader, block, header, table, footer, ops);
    assert Flatten(doc.pages) == ops;
  }

  /** What each section of the drawing holds:
      the summary header, the summary rows, the table header, the detail rows and the footer. */
  ghost predicate SectionsDrawn(lib: Library, rows: seq<UsageRecord>, summaries: seq<CategorySummary>,
                                sumHeader: Placed, block: seq<Placed>, header: Placed, table: seq<Placed>, footer: Placed) {
    && sumHeader.item.SummaryHeader? && InBody(sumHeader)
    && Select(block, IsSummaryRow) == ExpectedSummaryRows(summaries) && SummaryOps(block)
    && header.item.TableHeader?
    && Select(table, IsDetailRow) == ExpectedDetails(lib, rows) && TableOps(table)
    && footer == Placed(FooterY, FooterLine(CompanyFooter))
  }

  /** Everything after the banner: the summary block, the table and the footer.
      The table header is drawn right after the summary, without an overflow check. */
  method DrawSections(doc: PdfDoc, lib: Library, rows: seq<UsageRecord>, summaries: seq<CategorySummary>)
    returns (ghost sumHeader: Placed, ghost block: seq<Placed>, ghost header: Placed,
             ghost table: seq<Placed>, ghost footer: Placed)
    requires Drawing(doc)
    modifies doc
    ensures Drawing(doc)
    ensures Flatten(doc.pages) == Flatten(old(doc.pages)) + [sumHeader] + block + [header] + table + [footer]
    ensures |doc.pages| == |old(doc.pages)| + ReportPages(|rows|, |summaries|) - 1
    ensures var last := doc.pages[|doc.pages| - 1]; |last| > 0 && last[|last| - 1] == footer
    ensures SectionsDrawn(lib, rows, summaries, sumHeader, block, header, table, footer)
  {
    var title := Placed(SummaryTop, SummaryHeader(SummaryTitle));
    Put(doc, title.y, title.item);
    var y;
    y, block := DrawSummaryRows(doc, summaries, FirstRowY);
    y := y + RowHeight;
    var top := Placed(y, TableHeader(DetailLabels));
    Put(doc, top.y, top.item);
    y, table := DrawDetailRows(doc, lib, rows, DetailLabels, y + RowHeight);
    var closing := Placed(FooterY, FooterLine(CompanyFooter));
    Put(doc, closing.y, closing.item);
    sumHeader, header, footer := title, top, closing;
  }

  /** The properties of a document assembled from sections known to satisfy `SectionsDrawn`. */
  lemma DrawnSections(lib: Library, rows: seq<UsageRecord>, summaries: seq<CategorySummary>,
                      banner: seq<Placed>, sumHeader: Placed, block: seq<Placed>, header: Placed, table: seq<Placed>, footer: Placed, ops: seq<Placed>)
    requires ops == banner + [sumHeader] + block + [header] + table + [footer]
    requires forall k :: 0 <= k < |banner| ==> IsBannerItem(banner[k])
    requires SectionsDrawn(lib, rows, summaries, sumHeader, block, header, table, footer)
    ensures |banner| <= |ops| && ops[..|banner|] == banner
    ensures Select(ops, IsDetailRow) == ExpectedDetails(lib, rows)
    ensures Select(ops, IsSummaryRow) == ExpectedSummaryRows(summaries)
    ensures Select(ops, IsFooter) == [FooterLine(CompanyFooter)]
    ensures forall k :: 0 <= k < |ops| ==> InBody(ops[k])
    ensures SummaryBeforeTable(ops)
  {
    ReportSections(lib, rows, summaries, banner, sumHeader, block, header, table, footer, ops);
  }

  lemma ReportSections(lib: Library, rows: seq<UsageRecord>, summaries: seq<CategorySummary>,
                       banner: seq<Placed>, sumHeader: Placed, block: seq<Placed>,
                       header: Placed, table: seq<Placed>, footer: Placed, ops: seq<Placed>)
    requires ops == banner + [sumHeader] + block + [header] + table + [footer]
    requires forall k :: 0 <= k < |banner| ==> IsBannerItem(banner[k])
    requires sumHeader.item.SummaryHeader? && InBody(sumHeader)
    requires Select(block, IsSummaryRow) == ExpectedSummaryRows(summaries) && SummaryOps(block)
    requires header.item.TableHeader?
    requires Select(table, IsDetailRow) == ExpectedDetails(lib, rows) && TableOps(table)
    requires footer == Placed(FooterY, FooterLine(CompanyFooter))
    ensures |banner| <= |ops| && ops[..|banner|] == banner
    ensures Select(ops, IsDetailRow) == ExpectedDetails(lib, rows)
    ensures Select(ops, IsSummaryRow) == ExpectedSummaryRows(summaries)
    ensures Select(ops, IsFooter) == [FooterLine(CompanyFooter)]
    ensures forall k :: 0 <= k < |ops| ==> InBody(ops[k])
    ensures SummaryBeforeTable(ops)
  {
    assert ops[..|banner|] == banner;
    DetailsOfReport(banner, sumHeader, block, header, table, footer);
    SummaryRowsOfReport(banner, sumHeader, block, header, table, footer);
    FootersOfReport(banner, sumHeader, block, header, table, footer);
    PlacementOfReport(banner, sumHeader, block, header, table, footer);
  }

  lemma DetailsOfReport(banner: seq<Placed>, sumHeader: Placed, block: seq<Placed>,
                        header: Placed, table: seq<Placed>, footer: Placed)
    requires forall k :: 0 <= k < |banner| ==> IsBannerItem(banner[k])
    requires header.item.TableHeader? && sumHeader.item.SummaryHeader? && footer.item.FooterLine?
    requires forall k :: 0 <= k < |block| ==> block[k].item.SummaryRow?
    ensures Select(banner + [sumHeader] + block + [header] + table + [footer], IsDetailRow)
      == Select(table, IsDetailRow)
  {
    SelectNone(banner, IsDetailRow);
    SelectNone(block, IsDetailRow);
    SelectOne(header, IsDetailRow);
    SelectOne(sumHeader, IsDetailRow);
    SelectOne(footer, IsDetailRow);
    SelectSix(banner, [sumHeader], block, [header], table, [footer], IsDetailRow);
  }

  lemma SummaryRowsOfReport(banner: seq<Placed>, sumHeader: Placed, block: seq<Placed>,
                            header: Placed, table: seq<Placed>, footer: Placed)
    requires forall k :: 0 <= k < |banner| ==> IsBannerItem(banner[k])
    requires header.item.TableHeader? && sumHeader.item.SummaryHeader? && footer.item.FooterLine?
    requires forall k :: 0 <= k < |table| ==> IsTableItem(table[k].item)
    ensures Select(banner + [sumHeader] + block + [header] + table + [footer], IsSummaryRow)
      == Select(block, IsSummaryRow)
  {
    SelectNone(banner, IsSummaryRow);
    SelectNone(table, IsSummaryRow);
    SelectOne(header, IsSummaryRow);
    SelectOne(sumHeader, IsSummaryRow);
    SelectOne(footer, IsSummaryRow);
    SelectSix(banner, [sumHeader], block, [header], table, [footer], IsSummaryRow);
  }

  lemma FootersOfReport(banner: seq<Placed>, sumHeader: Placed, block: seq<Placed>,
                        header: Placed, table: seq<Placed>, footer: Placed)
    requires forall k :: 0 <= k < |banner| ==> !IsFooter(banner[k].item)
    requires !IsFooter(header.item) && !IsFooter(sumHeader.item) && IsFooter(footer.item)
    requires forall k :: 0 <= k < |table| ==> !IsFooter(table[k].item)
    requires forall k :: 0 <= k < |block| ==> !IsFooter(block[k].item)
    ensures Select(banner + [sumHeader] + block + [header] + table + [footer], IsFooter) == [footer.item]
  {
    SelectNone(banner, IsFooter);
    SelectNone(table, IsFooter);
    SelectNone(block, IsFooter);
    SelectOne(header, IsFooter);
    SelectOne(sumHeader, IsFooter);
    SelectOne(footer, IsFooter);
    SelectSix(banner, [sumHeader], block, [header], table, [footer], IsFooter);
  }

  lemma PlacementOfReport(banner: seq<Placed>, sumHeader: Placed, block: seq<Placed>,
                          header: Placed, table: seq<Placed>, footer: Placed)
    requires forall k :: 0 <= k < |banner| ==> IsBannerItem(banner[k])
    requires sumHeader.item.SummaryHeader? && InBody(sumHeader) && SummaryOps(block)
    requires header.item.TableHeader? && TableOps(table)
    requires footer.item.FooterLine?
    ensures var ops := banner + [sumHeader] + block + [header] + table + [footer];
      (forall k :: 0 <= k < |ops| ==> InBody(ops[k])) && SummaryBeforeTable(ops)
  {
    var ops := banner + [sumHeader] + block + [header] + table + [footer];
    var cut := |banner| + 1 + |block|;
    forall k | 0 <= k < cut ensures !IsTableItem(ops[k].item) && InBody(ops[k]) {
      if k < |banner| {
        assert ops[k] == banner[k];
      } else if k > |banner| {
        assert ops[k] == block[k - |banner| - 1];
      }
    }
    forall k | cut <= k < |ops| ensures !IsSummaryItem(ops[k].item) && InBody(ops[k]) {
      if cut < k < |ops| - 1 {
        assert ops[k] == table[k - cut - 1];
      }
    }
  }

  /** `generatePDF`: the two error messages, and otherwise the saved document. */
  method GeneratePdf(lib: Library, data: Option<seq<seq<Cell>>>, form: Form, generatedOn: string)
    returns (r: Result<Document, string>)
    ensures (data.None? || data.value == []) <==> r == Failure(NoDataError)
    ensures data.Some? && data.value != [] && ExtractRows(lib, data.value, ConsumptionReport) == [] ==>
      r == Failure(NoRowsError)
    ensures r.Success? <==> data.Some? && data.value != [] && ExtractRows(lib, data.value, ConsumptionReport) != []
    ensures r.Success? ==>
      var rows := ExtractRows(lib, data.value, ConsumptionReport);
      var range := Range(FormatDate(lib, Earliest(lib, rows)), FormatDate(lib, Latest(lib, rows)));
      && r.value.fileName == FileName(form.documentNumber)
      && Stamped(r.value.pages)
      && ReportDrawn(lib, rows, ExpectedSummaries(lib, rows), Banner(form, range, generatedOn), Body(r.value.pages))
  {
    if data.None? || data.value == [] {
      return Failure(NoDataError);
    }
    var rows, summaries := ExtractRequiredData(lib, data.value, ConsumptionReport);
    var range := CalculateDateRange(lib, rows);
    if rows == [] {
      return Failure(NoRowsError);
    }
    var pages := Layout(lib, rows, summaries, Banner(form, range, generatedOn));
    r := Success(Document(FileName(form.documentNumber), pages));
  }
}
