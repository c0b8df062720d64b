/** The drawing surface both generators write on: a jsPDF document seen as
    a list of pages, each the list of items placed on it, plus the page that
    drawing calls currently go to. Horizontal positions, fonts and colours
    are not modelled; every item keeps its vertical position in mm. */
module Pdf {
  import opened Seqs

  /** jsPDF's default page is A4 portrait: 297 mm high. */
  const PageHeight := 297
  const Margin := 10
  const RowHeight := 10
  /** Summary rows are `rowHeight + 5` high. */
  const SummaryRowHeight := 15
  /** A row whose top would lie below this line starts a new page. */
  const OverflowY := PageHeight - 50
  const FooterY := PageHeight - 20
  const PageNumberY := PageHeight - 10

  datatype Item =
    | Logo
    | Caption(text: string)
    | TableHeader(labels: seq<string>)
    | DetailRow(cells: seq<string>, shaded: bool)
    | SummaryHeader(title: string)
    | SummaryRow(name: string, total: string, shaded: bool)
    | FooterLine(text: string)
    | PageNumber(page: nat, count: nat)

  datatype Placed = Placed(y: int, item: Item)

  /** The document being built. */
  class PdfDoc {
    var pages: seq<seq<Placed>>
    var current: nat

    ghost predicate Valid()
      reads this
    {
      current < |pages|
    }

    /** `new jsPDF()`: one empty page, which is current. */
    constructor ()
      ensures Valid() && pages == [[]] && current == 0
    {
      pages := [[]];
      current := 0;
    }

    /** Any drawing call (`text`, `rect`, `addImage`, `line`) adds to the current page. */
    method Draw(y: int, item: Item)
      requires Valid()
      modifies this
      ensures Valid() && current == old(current)
      ensures pages == old(pages)[current := old(pages)[current] + [Placed(y, item)]]
    {
      pages := pages[current := pages[current] + [Placed(y, item)]];
    }

    /** `addPage()`: a new empty page at the end becomes current. */
    method AddPage()
      requires Valid()
      modifies this
      ensures Valid() && pages == old(pages) + [[]] && current == |old(pages)|
    {
      pages := pages + [[]];
      current := |pages| - 1;
    }

    /** `setPage(n)`, 1-based. */
    method SetPage(n: int)
      requires 1 <= n <= |pages|
      modifies this
      ensures Valid() && pages == old(pages) && current == n - 1
    {
      current := n - 1;
    }
  }

  /** The items of `ops` that satisfy `p`, in drawing order. */
  function Select(ops: seq<Placed>, p: Item -> bool): (r: seq<Item>)
    ensures |r| <= |ops|
  {
    if |ops| == 0 then []
    else
      var init := Select(ops[..|ops| - 1], p);
      if p(ops[|ops| - 1].item) then init + [ops[|ops| - 1].item] else init
  }

  lemma SelectSnoc(ops: seq<Placed>, op: Placed, p: Item -> bool)
    ensures Select(ops + [op], p) == Select(ops, p) + (if p(op.item) then [op.item] else [])
  {
    assert (ops + [op])[..|ops|] == ops;
  }

  /** Selection distributes over concatenation. */
  lemma {:induction false} SelectConcat(a: seq<Placed>, b: seq<Placed>, p: Item -> bool)
    ensures Select(a + b, p) == Select(a, p) + Select(b, p)
    decreases |b|
  {
    if |b| == 0 {
      assert a + b == a;
    } else {
      var b' := b[..|b| - 1];
      assert a + b == (a + b') + [b[|b| - 1]];
      assert b == b' + [b[|b| - 1]];
      SelectConcat(a, b', p);
      SelectSnoc(a + b', b[|b| - 1], p);
      SelectSnoc(b', b[|b| - 1], p);
    }
  }

  /** Nothing is selected from a stream none of whose items qualifies. */
  lemma {:induction false} SelectNone(ops: seq<Placed>, p: Item -> bool)
    requires forall k :: 0 <= k < |ops| ==> !p(ops[k].item)
    ensures Select(ops, p) == []
    decreases |ops|
  {
    if |ops| > 0 {
      SelectNone(ops[..|ops| - 1], p);
    }
  }

  predicate IsDetailRow(i: Item) { i.DetailRow? }
  predicate IsSummaryRow(i: Item) { i.SummaryRow? }
  predicate IsFooter(i: Item) { i.FooterLine? }
  /** The part of the document an item belongs to. */
  datatype Section = Heading | DetailTable | SummaryBlock | Closing | Numbering

  function SectionOf(i: Item): Section {
    match i
    case Logo => Heading
    case Caption(_) => Heading
    case TableHeader(_) => DetailTable
    case DetailRow(_, _) => DetailTable
    case SummaryHeader(_) => SummaryBlock
    case SummaryRow(_, _, _) => SummaryBlock
    case FooterLine(_) => Closing
    case PageNumber(_, _) => Numbering
  }

  predicate IsTableItem(i: Item) { SectionOf(i) == DetailTable }
  predicate IsSummaryItem(i: Item) { SectionOf(i) == SummaryBlock }

  /** Some table header was drawn on `page`. */
  ghost predicate HeaderIn(page: seq<Placed>) {
    exists h :: 0 <= h < |page| && page[h].item.TableHeader?
  }

  /** Every detail row on the page has a table header drawn before it on the same page. */
  ghost predicate RowsUnderHeader(page: seq<Placed>) {
    forall k :: 0 <= k < |page| && page[k].item.DetailRow? ==> HeaderIn(page[..k])
  }

  /** Table rows and the summary header lie between the top margin and the footer line. */
  predicate InBody(op: Placed) {
    match op.item
    case DetailRow(_, _) => Margin + RowHeight <= op.y && op.y + RowHeight <= FooterY
    case SummaryRow(_, _, _) => Margin <= op.y && op.y + SummaryRowHeight <= FooterY
    case SummaryHeader(_) => Margin <= op.y && op.y + RowHeight <= FooterY
    case _ => true
  }

  /** The page-level facts kept by appending `op` to a page. */
  lemma PageSnoc(page: seq<Placed>, op: Placed)
    requires RowsUnderHeader(page)
    requires op.item.DetailRow? ==> HeaderIn(page)
    ensures RowsUnderHeader(page + [op])
    ensures HeaderIn(page) || op.item.TableHeader? ==> HeaderIn(page + [op])
  {
    var q := page + [op];
    assert q[..|page|] == page;
    forall k | 0 <= k < |q| && q[k].item.DetailRow? ensures HeaderIn(q[..k]) {
      if k < |page| {
        assert q[..k] == page[..k];
      }
    }
    if HeaderIn(page) {
      var h :| 0 <= h < |page| && page[h].item.TableHeader?;
      assert q[h] == page[h];
    }
    if op.item.TableHeader? {
      assert q[|page|] == op;
    }
  }

  /** Drawing on the last page extends the flattened document by that item. */
  lemma FlattenDrawLast(pages: seq<seq<Placed>>, op: Placed)
    requires |pages| > 0
    ensures Flatten(pages[|pages| - 1 := pages[|pages| - 1] + [op]]) == Flatten(pages) + [op]
  {
    var q := pages[|pages| - 1 := pages[|pages| - 1] + [op]];
    assert q[..|q| - 1] == pages[..|pages| - 1];
  }

  /** A new empty page adds nothing to the flattened document. */
  lemma FlattenNewPage(pages: seq<seq<Placed>>)
    ensures Flatten(pages + [[]]) == Flatten(pages)
  {
    assert (pages + [[]])[..|pages|] == pages;
  }

  /** The footer both generators draw once, on the page current at the end. */
  const CompanyFooter := "Africell Angola | Rua dos Municipios dos Portugueses, Luanda, Angola | apoio.cliente@africell.ao | +244 950 180 123"

  /** What `doc.save(name)` writes: the file name and the pages. */
  datatype Document = Document(fileName: string, pages: seq<seq<Placed>>)

  const NoDataError := "No data available to generate PDF"
  const NoRowsError := "Could not extract data from the Excel file or all amounts are zero"

  /** The form fields of the page: customer name, document number, chosen sheet. */
  datatype Form = Form(userName: string, documentNumber: string, sheetName: string)

  /** `s || d` on a string. */
  function OrDefault(s: string, d: string): (r: string)
    ensures r != ""  || d == ""
    ensures s != "" ==> r == s
    ensures s == "" ==> r == d
  {
    if s == "" then d else s
  }

  /** `usage-statement-${documentNumber || "report"}.pdf`. */
  function FileName(documentNumber: string): string {
    "usage-statement-" + OrDefault(documentNumber, "report") + ".pdf"
  }

  /** The state the generators keep while laying out: drawing goes to the last
      page, and every page already has its detail rows under a table header. */
  ghost predicate Drawing(doc: PdfDoc)
    reads doc
  {
    && doc.Valid()
    && doc.current == |doc.pages| - 1
    && (forall p :: 0 <= p < |doc.pages| ==> RowsUnderHeader(doc.pages[p]))
  }

  /** Draws one item on the last page. A detail row may only be drawn once
      the page has a table header. */
  method Put(doc: PdfDoc, y: int, item: Item)
    requires Drawing(doc)
    requires item.DetailRow? ==> HeaderIn(doc.pages[|doc.pages| - 1])
    modifies doc
    ensures Drawing(doc) && |doc.pages| == |old(doc.pages)|
    ensures Flatten(doc.pages) == Flatten(old(doc.pages)) + [Placed(y, item)]
    ensures doc.pages[|doc.pages| - 1] == old(doc.pages)[|doc.pages| - 1] + [Placed(y, item)]
    ensures doc.pages[..|doc.pages| - 1] == old(doc.pages)[..|doc.pages| - 1]
    ensures HeaderIn(old(doc.pages)[|doc.pages| - 1]) || item.TableHeader? ==>
      HeaderIn(doc.pages[|doc.pages| - 1])
  {
    ghost var before := doc.pages;
    PageSnoc(before[|before| - 1], Placed(y, item));
    FlattenDrawLast(before, Placed(y, item));
    doc.Draw(y, item);
  }

  /** `addPage()` during layout. */
  method NextPage(doc: PdfDoc)
    requires Drawing(doc)
    modifies doc
    ensures Drawing(doc) && doc.pages == old(doc.pages) + [[]]
    ensures Flatten(doc.pages) == Flatten(old(doc.pages))
  {
    FlattenNewPage(doc.pages);
    doc.AddPage();
  }

  /** Draws a fixed list of items, none a detail row, on the last page. */
  method PutAll(doc: PdfDoc, ops: seq<Placed>)
    requires Drawing(doc)
    requires forall k :: 0 <= k < |ops| ==> !ops[k].item.DetailRow?
    modifies doc
    ensures Drawing(doc) && |doc.pages| == |old(doc.pages)|
    ensures Flatten(doc.pages) == Flatten(old(doc.pages)) + ops
  {
    var i := 0;
    while i < |ops|
      invariant 0 <= i <= |ops|
      invariant Drawing(doc) && |doc.pages| == |old(doc.pages)|
      invariant Flatten(doc.pages) == Flatten(old(doc.pages)) + ops[..i]
    {
      assert ops[..i + 1] == ops[..i] + [ops[i]];
      Put(doc, ops[i].y, ops[i].item);
      i := i + 1;
    }
    assert ops[..i] == ops;
  }

  /** The closing loop `for (i = 1; i <= totalPages; i++)`: every page gets
      "Page i of n" at its foot, drawn after everything else on it. */
  method StampPageNumbers(doc: PdfDoc)
    requires doc.Valid()
    modifies doc
    ensures doc.Valid() && |doc.pages| == |old(doc.pages)|
    ensures forall p :: 0 <= p < |doc.pages| ==>
      doc.pages[p] == old(doc.pages)[p] + [Placed(PageNumberY, PageNumber(p + 1, |doc.pages|))]
  {
    var total := |doc.pages|;
    var i := 1;
    while i <= total
      invariant 1 <= i <= total + 1
      invariant doc.Valid() && |doc.pages| == total
      invariant forall p :: 0 <= p < i - 1 ==>
        doc.pages[p] == old(doc.pages)[p] + [Placed(PageNumberY, PageNumber(p + 1, total))]
      invariant forall p :: i - 1 <= p < total ==> doc.pages[p] == old(doc.pages)[p]
    {
      doc.SetPage(i);
      doc.Draw(PageNumberY, PageNumber(i, total));
      i := i + 1;
    }
  }

  /** Each page ends with its own page number, out of the total. */
  ghost predicate Stamped(pages: seq<seq<Placed>>) {
    forall p :: 0 <= p < |pages| ==>
      |pages[p]| > 0 && pages[p][|pages[p]| - 1] == Placed(PageNumberY, PageNumber(p + 1, |pages|))
  }

  /** The pages without their page numbers. */
  function Body(pages: seq<seq<Placed>>): (body: seq<seq<Placed>>)
    requires forall p :: 0 <= p < |pages| ==> |pages[p]| > 0
    ensures |body| == |pages|
    ensures forall p :: 0 <= p < |pages| ==> pages[p] == body[p] + [pages[p][|pages[p]| - 1]]
  {
    seq(|pages|, p requires 0 <= p < |pages| => pages[p][..|pages[p]| - 1])
  }

  /** After stamping, the pages are the stamped body and still keep rows under headers. */
  lemma StampedPages(body: seq<seq<Placed>>, pages: seq<seq<Placed>>)
    requires |pages| == |body|
    requires forall p :: 0 <= p < |pages| ==>
      pages[p] == body[p] + [Placed(PageNumberY, PageNumber(p + 1, |pages|))]
    requires forall p :: 0 <= p < |body| ==> RowsUnderHeader(body[p])
    ensures Stamped(pages)
    ensures Body(pages) == body
    ensures forall p :: 0 <= p < |pages| ==> RowsUnderHeader(pages[p])
  {
    forall p | 0 <= p < |pages| ensures RowsUnderHeader(pages[p]) {
      PageSnoc(body[p], Placed(PageNumberY, PageNumber(p + 1, |pages|)));
    }
    assert forall p :: 0 <= p < |pages| ==> Body(pages)[p] == body[p];
  }

  /** Stamps the page numbers on a finished drawing and hands back its pages. */
  method Finish(doc: PdfDoc) returns (pages: seq<seq<Placed>>)
    requires Drawing(doc)
    modifies doc
    ensures |pages| == |old(doc.pages)| && Stamped(pages) && Body(pages) == old(doc.pages)
    ensures forall p :: 0 <= p < |pages| ==> RowsUnderHeader(pages[p])
  {
    ghost var body := doc.pages;
    StampPageNumbers(doc);
    pages := doc.pages;
    StampedPages(body, pages);
  }
}
