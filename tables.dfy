/** The two table loops both generators share: the detail table (one striped
    row per record, the header repeated on every page it spills onto) and the
    per-category summary block. */
module Tables {
  import opened Seqs
  import opened Cells
  import opened Truncate
  import opened Extract
  import opened Summary
  import opened Pdf

  /** The four cell texts of a detail row, each shortened to fit its column. */
  function DetailCells(lib: Library, r: UsageRecord): seq<string> {
    [TruncateText(r.startTime, 18), TruncateText(r.endTime, 18),
     TruncateCell(lib, r.category, 28), TruncateText(r.displayAmount, 20)]
  }

  /** One detail row per record, in order; rows with an even index are shaded. */
  function ExpectedDetails(lib: Library, rows: seq<UsageRecord>): seq<Item> {
    seq(|rows|, k requires 0 <= k < |rows| => DetailRow(DetailCells(lib, rows[k]), k % 2 == 0))
  }

  /** One summary row per category, `category + ":"` beside its display total. */
  function ExpectedSummaryRows(summaries: seq<CategorySummary>): seq<Item> {
    seq(|summaries|, k requires 0 <= k < |summaries| =>
      SummaryRow(summaries[k].category + ":", summaries[k].displayTotal, k % 2 == 0))
  }

  /** What the detail loop adds: table headers and detail rows, each inside the page body. */
  ghost predicate TableOps(ops: seq<Placed>) {
    forall k :: 0 <= k < |ops| ==> IsTableItem(ops[k].item) && InBody(ops[k])
  }

  /** What the summary loop adds: summary rows, each inside the page body. */
  ghost predicate SummaryOps(ops: seq<Placed>) {
    forall k :: 0 <= k < |ops| ==> ops[k].item.SummaryRow? && InBody(ops[k])
  }

  /** Where a row goes when the cursor is at `y`: past the overflow line the
      loop adds a page and the row goes to `top` on it; otherwise at `y`. */
  function RowTop(y: int, top: int): int {
    if y > OverflowY then top else y
  }

  /** The cursor after `n` rows of height `h`, drawn from cursor `y0`, each
      following the overflow rule with `top` as the first row position of a new page. */
  function CursorAfter(y0: int, n: nat, top: int, h: int): int {
    if n == 0 then y0 else RowTop(CursorAfter(y0, n - 1, top, h), top) + h
  }

  /** The pages those `n` rows add: one for each row met with the cursor past the overflow line. */
  function BreaksIn(y0: int, n: nat, top: int, h: int): nat {
    if n == 0 then 0
    else BreaksIn(y0, n - 1, top, h) + (if CursorAfter(y0, n - 1, top, h) > OverflowY then 1 else 0)
  }

  /** The first detail row of a new page sits under the header redrawn at the margin. */
  const DetailTop := Margin + RowHeight

  /** Detail rows a new page holds: at 20, 30, ..., 240 mm; the cursor then reaches 250. */
  const DetailRowsPerPage := 23
  /** Summary rows a new page holds: at 10, 25, ..., 235 mm; the cursor then reaches 250. */
  const SummaryRowsPerPage := 16

  /** Drawing `a` rows and then `b` more is drawing `a + b` rows. */
  lemma {:induction false} RunSplit(y0: int, a: nat, b: nat, top: int, h: int)
    ensures CursorAfter(y0, a + b, top, h) == CursorAfter(CursorAfter(y0, a, top, h), b, top, h)
    ensures BreaksIn(y0, a + b, top, h) == BreaksIn(y0, a, top, h) + BreaksIn(CursorAfter(y0, a, top, h), b, top, h)
    decreases b
  {
    if b > 0 {
      RunSplit(y0, a, b - 1, top, h);
    }
  }

  /** Detail rows that all start above the overflow line stay on the current page, one below the other. */
  lemma {:induction false} DetailRunFits(y0: int, k: nat)
    requires k > 0 ==> y0 + (k - 1) * RowHeight <= OverflowY
    ensures BreaksIn(y0, k, DetailTop, RowHeight) == 0
    ensures CursorAfter(y0, k, DetailTop, RowHeight) == y0 + k * RowHeight
  {
    if k > 0 {
      DetailRunFits(y0, k - 1);
    }
  }

  /** A detail row that would start below the overflow line, were the rows
      before it all on the current page, forces at least one new page. */
  lemma {:induction false} DetailRunOverflows(y0: int, k: nat)
    requires k > 0 && y0 + (k - 1) * RowHeight > OverflowY
    ensures BreaksIn(y0, k, DetailTop, RowHeight) >= 1
  {
    if k > 1 && y0 + (k - 2) * RowHeight > OverflowY {
      DetailRunOverflows(y0, k - 1);
    } else {
      DetailRunFits(y0, k - 1);
    }
  }

  /** From a cursor past the overflow line, every page the detail table spills
      onto holds 23 rows: `q * 23 + r` rows, with 1 <= r <= 23, add q + 1 pages
      and leave r rows on the last one. */
  lemma {:induction false} DetailPagesFromBreak(y0: int, q: nat, r: int)
    requires y0 > OverflowY && 1 <= r <= DetailRowsPerPage
    ensures BreaksIn(y0, q * DetailRowsPerPage + r, DetailTop, RowHeight) == q + 1
    ensures CursorAfter(y0, q * DetailRowsPerPage + r, DetailTop, RowHeight) == DetailTop + r * RowHeight
    decreases q, r
  {
    if r > 1 {
      DetailPagesFromBreak(y0, q, r - 1);
    } else if q > 0 {
      DetailPagesFromBreak(y0, q - 1, DetailRowsPerPage);
      assert (q - 1) * DetailRowsPerPage + DetailRowsPerPage == q * DetailRowsPerPage;
    }
  }

  /** Summary rows that all start above the overflow line stay on the current page, one below the other. */
  lemma {:induction false} SummaryRunFits(y0: int, k: nat)
    requires k > 0 ==> y0 + (k - 1) * SummaryRowHeight <= OverflowY
    ensures BreaksIn(y0, k, Margin, SummaryRowHeight) == 0
    ensures CursorAfter(y0, k, Margin, SummaryRowHeight) == y0 + k * SummaryRowHeight
  {
    if k > 0 {
      SummaryRunFits(y0, k - 1);
    }
  }

  /** A summary row that would start below the overflow line, were the rows
      before it all on the current page, forces at least one new page. */
  lemma {:induction false} SummaryRunOverflows(y0: int, k: nat)
    requires k > 0 && y0 + (k - 1) * SummaryRowHeight > OverflowY
    ensures BreaksIn(y0, k, Margin, SummaryRowHeight) >= 1
  {
    if k > 1 && y0 + (k - 2) * SummaryRowHeight > OverflowY {
      SummaryRunOverflows(y0, k - 1);
    } else {
      SummaryRunFits(y0, k - 1);
    }
  }

  /** From a cursor past the overflow line, every page the summary block
      spills onto holds 16 rows. */
  lemma {:induction false} SummaryPagesFromBreak(y0: int, q: nat, r: int)
    requires y0 > OverflowY && 1 <= r <= SummaryRowsPerPage
    ensures BreaksIn(y0, q * SummaryRowsPerPage + r, Margin, SummaryRowHeight) == q + 1
    ensures CursorAfter(y0, q * SummaryRowsPerPage + r, Margin, SummaryRowHeight) == Margin + r * SummaryRowHeight
    decreases q, r
  {
    if r > 1 {
      SummaryPagesFromBreak(y0, q, r - 1);
    } else if q > 0 {
      SummaryPagesFromBreak(y0, q - 1, SummaryRowsPerPage);
      assert (q - 1) * SummaryRowsPerPage + SummaryRowsPerPage == q * SummaryRowsPerPage;
    }
  }

  /** `rows.forEach`: before a row that would start below the overflow line a
      new page is added and the header redrawn at the top margin. */
  method DrawDetailRows(doc: PdfDoc, lib: Library, rows: seq<UsageRecord>, labels: seq<string>, y0: int)
    returns (y: int, ghost added: seq<Placed>)
    requires Drawing(doc) && HeaderIn(doc.pages[|doc.pages| - 1])
    requires Margin + RowHeight <= y0
    modifies doc
    ensures Drawing(doc)
    ensures Flatten(doc.pages) == Flatten(old(doc.pages)) + added
    ensures Select(added, IsDetailRow) == ExpectedDetails(lib, rows) && TableOps(added)
    ensures y == CursorAfter(y0, |rows|, DetailTop, RowHeight)
    ensures |rows| == 0 ==> y == y0
    ensures |doc.pages| == |old(doc.pages)| + BreaksIn(y0, |rows|, DetailTop, RowHeight)
    ensures |rows| > 0 ==> Margin + 2 * RowHeight <= y <= OverflowY + RowHeight
  {
    ghost var start := Flatten(doc.pages);
    added := [];
    y := y0;
    var i := 0;
    while i < |rows|
      invariant 0 <= i <= |rows|
      invariant Drawing(doc) && HeaderIn(doc.pages[|doc.pages| - 1])
      invariant Flatten(doc.pages) == start + added
      invariant Select(added, IsDetailRow) == ExpectedDetails(lib, rows[..i])
      invariant TableOps(added)
      invariant y == CursorAfter(y0, i, DetailTop, RowHeight)
      invariant |doc.pages| == |old(doc.pages)| + BreaksIn(y0, i, DetailTop, RowHeight)
      invariant i > 0 ==> Margin + 2 * RowHeight <= y <= OverflowY + RowHeight
    {
      var item := DetailRow(DetailCells(lib, rows[i]), i % 2 == 0);
      ghost var step;
      y, step := DrawDetailRow(doc, labels, item, y);
      DetailsGrow(lib, rows, i, added, step);
      AppendAssoc(start, added, step);
      added := added + step;
      i := i + 1;
    }
    assert rows[..i] == rows;
  }

  /** One iteration of the detail loop: past the overflow line, a new page
      holding the header and the row; otherwise the row at the cursor. */
  method DrawDetailRow(doc: PdfDoc, labels: seq<string>, item: Item, y: int)
    returns (next: int, ghost step: seq<Placed>)
    requires Drawing(doc) && HeaderIn(doc.pages[|doc.pages| - 1])
    requires item.DetailRow? && Margin + RowHeight <= y
    modifies doc
    ensures Drawing(doc) && HeaderIn(doc.pages[|doc.pages| - 1])
    ensures Flatten(doc.pages) == Flatten(old(doc.pages)) + step
    ensures Select(step, IsDetailRow) == [item] && TableOps(step)
    ensures y > OverflowY ==>
      && doc.pages == old(doc.pages) + [step]
      && step == [Placed(Margin, TableHeader(labels)), Placed(DetailTop, item)]
    ensures y <= OverflowY ==>
      && |doc.pages| == |old(doc.pages)|
      && doc.pages[..|doc.pages| - 1] == old(doc.pages)[..|doc.pages| - 1]
      && step == [Placed(y, item)]
    ensures |doc.pages| == |old(doc.pages)| + (if y > OverflowY then 1 else 0)
    ensures next == RowTop(y, DetailTop) + RowHeight
    ensures Margin + 2 * RowHeight <= next <= OverflowY + RowHeight
  {
    if y > OverflowY {
      step := RowOnNewPage(doc, labels, item);
      next := DetailTop + RowHeight;
    } else {
      Put(doc, y, item);
      step := [Placed(y, item)];
      SelectSnoc([], Placed(y, item), IsDetailRow);
      assert [] + [Placed(y, item)] == step;
      next := y + RowHeight;
    }
  }

  /** The overflow branch of one iteration: a new page holding the header
      at the margin and the row below it, and nothing else. */
  method RowOnNewPage(doc: PdfDoc, labels: seq<string>, item: Item) returns (ghost step: seq<Placed>)
    requires Drawing(doc) && item.DetailRow?
    modifies doc
    ensures Drawing(doc) && HeaderIn(doc.pages[|doc.pages| - 1])
    ensures step == [Placed(Margin, TableHeader(labels)), Placed(DetailTop, item)]
    ensures doc.pages == old(doc.pages) + [step]
    ensures Flatten(doc.pages) == Flatten(old(doc.pages)) + step
    ensures Select(step, IsDetailRow) == [item] && TableOps(step)
  {
    HeaderOnNewPage(doc, labels);
    Put(doc, DetailTop, item);
    step := [Placed(Margin, TableHeader(labels)), Placed(DetailTop, item)];
    assert doc.pages == old(doc.pages) + [step] by {
      assert [Placed(Margin, TableHeader(labels))] + [Placed(DetailTop, item)] == step;
    }
    HeaderThenRow(Placed(Margin, TableHeader(labels)), Placed(DetailTop, item));
  }

  /** A header followed by one row contributes exactly that row to the detail selection. */
  lemma HeaderThenRow(header: Placed, row: Placed)
    requires header.item.TableHeader? && row.item.DetailRow?
    requires Margin + RowHeight <= row.y && row.y + RowHeight <= FooterY
    ensures Select([header, row], IsDetailRow) == [row.item]
    ensures TableOps([header, row])
  {
    SelectSnoc([header], row, IsDetailRow);
    SelectSnoc([], header, IsDetailRow);
    assert [] + [header] == [header];
    assert [header] + [row] == [header, row];
  }

  /** The page break of the detail table: a new page whose only item is the header at the margin. */
  method HeaderOnNewPage(doc: PdfDoc, labels: seq<string>)
    requires Drawing(doc)
    modifies doc
    ensures Drawing(doc) && HeaderIn(doc.pages[|doc.pages| - 1])
    ensures doc.pages == old(doc.pages) + [[Placed(Margin, TableHeader(labels))]]
    ensures Flatten(doc.pages) == Flatten(old(doc.pages)) + [Placed(Margin, TableHeader(labels))]
  {
    NextPage(doc);
    ghost var before := doc.pages;
    Put(doc, Margin, TableHeader(labels));
    assert doc.pages[..|doc.pages| - 1] == before[..|before| - 1] == old(doc.pages);
    assert doc.pages[|doc.pages| - 1] == [Placed(Margin, TableHeader(labels))] by {
      assert before[|before| - 1] == [];
      assert [] + [Placed(Margin, TableHeader(labels))] == [Placed(Margin, TableHeader(labels))];
    }
    assert doc.pages == doc.pages[..|doc.pages| - 1] + [doc.pages[|doc.pages| - 1]];
  }

  /** One more iteration's items extend the drawn detail rows by the next record's row. */
  lemma DetailsGrow(lib: Library, rows: seq<UsageRecord>, i: int, added: seq<Placed>, step: seq<Placed>)
    requires 0 <= i < |rows|
    requires Select(added, IsDetailRow) == ExpectedDetails(lib, rows[..i]) && TableOps(added)
    requires Select(step, IsDetailRow) == [DetailRow(DetailCells(lib, rows[i]), i % 2 == 0)] && TableOps(step)
    ensures Select(added + step, IsDetailRow) == ExpectedDetails(lib, rows[..i + 1]) && TableOps(added + step)
  {
    SelectConcat(added, step, IsDetailRow);
    ExpectedDetailsSnoc(lib, rows, i);
  }

  lemma ExpectedDetailsSnoc(lib: Library, rows: seq<UsageRecord>, i: int)
    requires 0 <= i < |rows|
    ensures ExpectedDetails(lib, rows[..i + 1])
      == ExpectedDetails(lib, rows[..i]) + [DetailRow(DetailCells(lib, rows[i]), i % 2 == 0)]
  {
  }

  /** `typeSummaries.forEach`: the same overflow rule, without a header on the new page. */
  method DrawSummaryRows(doc: PdfDoc, summaries: seq<CategorySummary>, y0: int)
    returns (y: int, ghost added: seq<Placed>)
    requires Drawing(doc)
    requires Margin <= y0
    modifies doc
    ensures Drawing(doc)
    ensures Flatten(doc.pages) == Flatten(old(doc.pages)) + added
    ensures Select(added, IsSummaryRow) == ExpectedSummaryRows(summaries) && SummaryOps(added)
    ensures y == CursorAfter(y0, |summaries|, Margin, SummaryRowHeight)
    ensures |summaries| == 0 ==> y == y0
    ensures |doc.pages| == |old(doc.pages)| + BreaksIn(y0, |summaries|, Margin, SummaryRowHeight)
    ensures |summaries| > 0 ==> Margin + SummaryRowHeight <= y <= OverflowY + SummaryRowHeight
  {
    ghost var start := Flatten(doc.pages);
    added := [];
    y := y0;
    var i := 0;
    while i < |summaries|
      invariant 0 <= i <= |summaries|
      invariant Drawing(doc)
      invariant Flatten(doc.pages) == start + added
      invariant Select(added, IsSummaryRow) == ExpectedSummaryRows(summaries[..i])
      invariant SummaryOps(added)
      invariant y == CursorAfter(y0, i, Margin, SummaryRowHeight)
      invariant |doc.pages| == |old(doc.pages)| + BreaksIn(y0, i, Margin, SummaryRowHeight)
      invariant i > 0 ==> Margin + SummaryRowHeight <= y <= OverflowY + SummaryRowHeight
    {
      var s := summaries[i];
      var item := SummaryRow(s.category + ":", s.displayTotal, i % 2 == 0);
      ghost var row;
      y, row := DrawSummaryRow(doc, item, y);
      SelectSnoc(added, row, IsSummaryRow);
      ExpectedSummaryRowsSnoc(summaries, i);
      added := added + [row];
      i := i + 1;
    }
    assert summaries[..i] == summaries;
  }

  /** One iteration of the summary loop: past the overflow line, a new page
      whose first item is the row at the margin; otherwise the row at the cursor. */
  method DrawSummaryRow(doc: PdfDoc, item: Item, y: int) returns (next: int, ghost row: Placed)
    requires Drawing(doc) && item.SummaryRow? && Margin <= y
    modifies doc
    ensures Drawing(doc)
    ensures Flatten(doc.pages) == Flatten(old(doc.pages)) + [row]
    ensures row == Placed(RowTop(y, Margin), item) && InBody(row)
    ensures y > OverflowY ==> doc.pages == old(doc.pages) + [[row]]
    ensures y <= OverflowY ==>
      && |doc.pages| == |old(doc.pages)|
      && doc.pages[..|doc.pages| - 1] == old(doc.pages)[..|doc.pages| - 1]
    ensures next == row.y + SummaryRowHeight && Margin + SummaryRowHeight <= next <= OverflowY + SummaryRowHeight
  {
    var at := y;
    if y > OverflowY {
      NextPage(doc);
      at := Margin;
    }
    ghost var before := doc.pages;
    Put(doc, at, item);
    row := Placed(at, item);
    next := at + SummaryRowHeight;
    if y > OverflowY {
      assert doc.pages[..|doc.pages| - 1] == before[..|before| - 1] == old(doc.pages);
      assert doc.pages[|doc.pages| - 1] == [row] by {
        assert before[|before| - 1] == [];
        assert [] + [row] == [row];
      }
      assert doc.pages == doc.pages[..|doc.pages| - 1] + [doc.pages[|doc.pages| - 1]];
    }
  }

  lemma ExpectedSummaryRowsSnoc(summaries: seq<CategorySummary>, i: int)
    requires 0 <= i < |summaries|
    ensures ExpectedSummaryRows(summaries[..i + 1]) == ExpectedSummaryRows(summaries[..i])
      + [SummaryRow(summaries[i].category + ":", summaries[i].displayTotal, i % 2 == 0)]
  {
  }

  lemma AppendAssoc(a: seq<Placed>, b: seq<Placed>, c: seq<Placed>)
    ensures a + b + c == a + (b + c)
  {
  }

  lemma SelectOne(op: Placed, p: Item -> bool)
    ensures Select([op], p) == if p(op.item) then [op.item] else []
  {
    SelectSnoc([], op, p);
    assert [] + [op] == [op];
  }

  /** Selection over a document assembled from six consecutive parts. */
  lemma SelectSix(a: seq<Placed>, b: seq<Placed>, c: seq<Placed>, d: seq<Placed>, e: seq<Placed>, f: seq<Placed>, p: Item -> bool)
    ensures Select(a + b + c + d + e + f, p)
      == Select(a, p) + Select(b, p) + Select(c, p) + Select(d, p) + Select(e, p) + Select(f, p)
  {
    SelectConcat(a, b, p);
    SelectConcat(a + b, c, p);
    SelectConcat(a + b + c, d, p);
    SelectConcat(a + b + c + d, e, p);
    SelectConcat(a + b + c + d + e, f, p);
  }
}
