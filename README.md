# Usage statement pipeline — a verified Dafny model

The repository turns a telecom operator's usage spreadsheet into a PDF. There
are two near-identical generators of a customer *usage statement*:

- `src/App.jsx` produces an English layout: detail table first, then the
  per-type summary.
- `src/app/ExcelPDF.tsx` produces a Portuguese *relatório de consumo*: summary
  first, then the detail table.

Both run the same pipeline:

1. event paths in the sheet are relabelled as service names;
2. the start-time, end-time, usage-type and amount columns are found by their
   headers;
3. each data row becomes a record whose amount is converted to a display unit
   (KB/MB/GB, `hh:mm:ss`, SMS), and rows with no positive amount are dropped;
4. the records are totalled per usage type;
5. the earliest start and latest end give the statement period;
6. a jsPDF document is drawn page by page, with a banner, the two tables, the
   company footer and `Page i of N` stamps.

A second, generic tool sits next to it:

- `src/ExcelToPdfApp.jsx` loads a sheet, keeps its visible rows, whitelisted
  columns and non-blank rows, and shows a prefix of them.
- `src/ExcelPDFDocument.jsx` cuts those rows into pages of 35 and renders
  each page with the same header, table header, footer and page number.

Modules, in dependency order:

| module | file | models |
|---|---|---|
| `Wrappers`, `Seqs`, `Text`, `Cells` | `wrappers.dfy`, `seqs.dfy`, `text.dfy`, `cells.dfy` | `Option`/`Result`; order-keeping filter and flatten; `toLowerCase`, `includes`, `padStart`, `parseInt`; cells, truthiness and the library calls as a `Library` value |
| `Units` | `units.dfy` | `convertUnits` |
| `Columns`, `Relabel` | `columns.dfy`, `relabel.dfy` | the `findIndex` column search; `processSheet`'s event relabelling |
| `Extract`, `Summary` | `extract.dfy`, `summary.dfy` | `formatDateTime`, the record `map`/`filter`, the per-type `reduce` |
| `Truncate`, `DateRange` | `truncate.dfy`, `daterange.dfy` | `truncateText`; `calculateDateRange` |
| `Pdf`, `Tables` | `pdf.dfy`, `tables.dfy` | the jsPDF document as a class of pages; the two table-drawing loops |
| `StatementPdf`, `ConsumptionPdf` | `statement_pdf.dfy`, `consumption_pdf.dfy` | the two `generatePDF`s |
| `SheetImport`, `ReportDocument` | `sheet_import.dfy`, `report_document.dfy` | the generic viewer's upload handler and page state; `paginate` and the rendered document |

The PDF is modelled as a sequence of pages. Each page is a sequence of placed
items (`Placed(y, item)`), and `Flatten` of the pages is the drawing order.
Rectangles, lines, colours, fonts and x positions are not modelled.

The properties are stated on the drawn items:

- the selection of detail rows equals the records in order, with stripes on
  even indices;
- the selection of summary rows equals the per-type totals in first-seen order;
- the footer is drawn exactly once;
- every detail row sits on a page that already holds a table header;
- every row lies between the margin and the footer line;
- one table precedes the other;
- page `p` ends with `Page p+1 of N`, where `N` is the final page count.

Library calls that depend on the engine or locale are fields of
`Cells.Library`, passed in as parameters:

- `String(number)`;
- `toFixed(2)`;
- `parseFloat`;
- `new Date(v).getTime()`;
- `toLocaleString`;
- the local calendar date.

Clock readings ("generated on", the report date) are parameters too.

Two details of the drawing code shape the model:

- The footer is drawn once, after both tables, so it sits on the last page
  only.
- The consumption report uses `pages.length - 1` as its page count. That is
  jsPDF's page count, because its page list has a leading unused slot.

Both table loops follow one page-break rule. Before each row, a cursor past
the overflow line (page height minus 50 mm) starts a new page and resets the
cursor to the margin; the detail table also redraws its header there. The
row is then drawn at the cursor, which moves down by the row height.
`Tables.CursorAfter` and `Tables.BreaksIn` fold that rule over a run of
rows, and the page count of each generator is stated through them.

## Model

| member | source | states |
|---|---|---|
| Text.LowerCase | src/App.jsx:202 | the result has the input's length; each ASCII capital A–Z becomes its small letter and every other character is kept |
| Text.IncludesIff | src/App.jsx:202-203 | `includes` holds exactly when the needle occurs at some position of the text |
| Text.PadStart2Small | src/App.jsx:63 | a number below 100 padded to two characters is its tens digit followed by its units digit |
| Text.ParseIntRoundTrip | src/ExcelToPdfApp.jsx:218 | `parseInt` reads back every integer that `toString` writes |
| Cells.NumberOrZero | src/App.jsx:245 | `parseFloat(x) \|\| 0`: a number is itself; `undefined` and an unparseable string give 0 |
| Units.ConvertUnits | src/App.jsx:149-190 | per service: data is scaled to KB, MB or GB with `value × factor = amount` and the unit's suffix; voice keeps the value and shows `hh:mm:ss`; SMS shows `<n> SMS`; anything else shows `toFixed(2)` |
| Units.DataScaleBounds | src/App.jsx:157-168 | a non-negative data amount shown in KB or MB has a scaled value in [0, 1024), and one shown in MB or GB has a value of at least 1 |
| Units.DataBoundaries | src/App.jsx:157-167 | 1023 stays in KB, 1024 becomes 1.00 MB and 1048576 becomes 1.00 GB |
| Units.FloorSplit | src/App.jsx:173-175 | for `v = d·q + r` with `0 ≤ r < d` and d of 60 or 3600, `Math.floor(v / d)` is q and `v % d` is r |
| Units.ClockParts | src/App.jsx:173-175 | for `3600 h + 60 m + sec` seconds with m, sec < 60, the three floored numbers are h, m and sec |
| Units.VoiceClock | src/App.jsx:171-179 | h hours, m minutes and sec seconds are displayed as the three numbers, each padded to two digits, joined by colons |
| Units.VoiceOfClock | src/App.jsx:171-179 | `convertUnits` on a voice amount shows that clock text |
| Units.TwoDigitsSmall | src/App.jsx:176-178 | a single digit is padded with one leading zero |
| Units.VoiceExampleHour | src/App.jsx:171-179 | 3661 seconds are shown as `01:01:01` |
| Units.VoiceExampleMinutes | src/App.jsx:171-179 | 125 seconds are shown as `00:02:05` |
| Columns.FindFrom | src/App.jsx:199-219 | the search from a position returns -1 or the first matching header at or after it, and no header before the result matches |
| Columns.FindColumn | src/App.jsx:199-204 | `findIndex` returns the leftmost header that is truthy and whose lower-cased text contains the field's words, or -1 when none does |
| Columns.ResolveColumns | src/App.jsx:198-219 | all four column indices are leftmost matches: start and time; end and time; usage or type; amount |
| Relabel.RelabelCell | src/App.jsx:130 | one of the four event paths becomes its Portuguese service name; every other cell is kept |
| Relabel.ProcessSheet | src/App.jsx:119-139 | the grid keeps its shape and every cell is relabelled in place |
| Relabel.ProcessSheetIdempotent | src/App.jsx:15-20 | relabelling twice is relabelling once, because no label is itself an event path |
| Extract.FormatDateTime | src/App.jsx:283-304 | a falsy value gives the variant's placeholder (`N/A`, or `DD/MM/AAAA` in src/app/ExcelPDF.tsx:299-321); a parseable date gives its locale rendering; anything else gives `String(value)` |
| Extract.Records | src/App.jsx:224-248 | one record per data row, each the `map` callback applied to that row |
| Extract.ExtractRows | src/App.jsx:222-249 | a grid of at most one row gives no records; there are fewer records than grid rows; every record has a positive raw amount |
| Extract.ExtractRowsAppend | src/App.jsx:222-249 | appending a data row appends its record exactly when its amount is positive, so the order of rows is kept |
| Extract.ExtractRowsKeeps | src/App.jsx:249 | every data row with a positive amount has its record in the result |
| Extract.MissingCellDefaults | src/App.jsx:225-243 | an absent category reads `N/A`; absent times read the placeholder; an absent amount reads 0 |
| Extract.NoAmountColumnNoRows | src/App.jsx:217-226 | without an amount column, no row survives the filter |
| Summary.GroupByCategory | src/App.jsx:252-274 | the `reduce` over a map of totals yields one summary per usage type, in first-seen order, each with the type's total and its converted display |
| Summary.ExtractRequiredData | src/App.jsx:193-280 | returns the extracted records and their per-type summaries; a grid of at most one row gives neither |
| Summary.FirstSeenCovers | src/App.jsx:253-258 | a type is listed exactly when some record has it |
| Summary.FirstSeenDistinct | src/App.jsx:267 | no type is listed twice |
| Summary.FirstSeenPrefix | src/App.jsx:267 | the types listed for a prefix of the records are a prefix of the full list |
| Summary.TotalAbsent | src/App.jsx:260 | a type that no record has totals 0 |
| Summary.TotalPositive | src/App.jsx:260 | a listed type of positive records has a positive total |
| Summary.NonNegative | src/App.jsx:260 | totals of positive records are never negative |
| Summary.SumTotalsStep | src/App.jsx:260 | adding a record raises the sum of the per-type totals by its amount |
| Summary.TotalsPartition | src/App.jsx:252-264 | the per-type totals add up to the sum of all raw amounts |
| Summary.SummaryFacts | src/App.jsx:193-280 | for the extracted data: types are distinct, every total is positive and equals its type's total, and the totals add up to all amounts |
| Truncate.TruncateText | src/App.jsx:307-313 | short text is kept and empty text gives empty text; longer text is cut to exactly `maxLength` characters ending in `...`, or is `...` when `maxLength` < 3 (lengths in characters) |
| Truncate.TruncateCell | src/App.jsx:308-310 | a falsy cell gives the empty string; any other is `String(cell)` truncated |
| Truncate.TruncateFits | src/App.jsx:311-312 | for `maxLength` ≥ 3 the result is no longer than `maxLength` nor than the text |
| Truncate.TruncateIdempotent | src/App.jsx:307-313 | truncating twice is truncating once |
| DateRange.FormatDate | src/App.jsx:61-64 | no date gives `N/A` |
| DateRange.CalculateDateRange | src/App.jsx:22-70 | no rows give `N/A – N/A`; otherwise the earliest usable start and the latest usable end, formatted |
| DateRange.EarliestIsMinimum | src/App.jsx:28-41 | there is no minimum exactly when no start time parses; otherwise it is at most every parsed start and equals one of them |
| DateRange.LatestIsMaximum | src/App.jsx:43-57 | there is no maximum exactly when no end time parses; otherwise it is at least every parsed end and equals one of them |
| DateRange.FormatDateShape | src/App.jsx:61-64 | for a valid day and month the text starts with `DD/MM/` and the rest parses back to the year |
| Pdf.PdfDoc.constructor | src/App.jsx:337 | a new document has one empty page, which is current |
| Pdf.PdfDoc.Draw | src/App.jsx:412 | drawing appends the item to the current page only |
| Pdf.PdfDoc.AddPage | src/App.jsx:434 | `addPage` appends an empty page and makes it current |
| Pdf.PdfDoc.SetPage | src/App.jsx:559 | `setPage(n)` makes page n (1-based) current and changes no page |
| Pdf.OrDefault | src/App.jsx:361 | `s \|\| d` is `s` when `s` is non-empty and `d` when `s` is empty, so it is never empty unless `d` is |
| Pdf.PageSnoc | src/App.jsx:431-459 | appending to a page keeps "every detail row has a table header before it on its page", when a detail row is only appended after a header |
| Pdf.Put | src/App.jsx:412-494 | a drawing call extends the drawing order by one item, on the last page, leaves the other pages and the page count as they were, and keeps the header-before-rows invariant |
| Pdf.NextPage | src/App.jsx:434-435 | a page break appends one empty page, leaves every other page as it was, and draws nothing |
| Pdf.PutAll | src/App.jsx:346-389 | drawing a run of non-row items extends the drawing order by exactly those items |
| Pdf.StampPageNumbers | src/App.jsx:557-563 | each page p gets `Page p+1 of N` appended, with N the final page count, and nothing else changes |
| Pdf.Body | src/App.jsx:557-563 | the pages without their stamps: each page is its body followed by one last item |
| Pdf.StampedPages | src/App.jsx:557-563 | stamping leaves the bodies intact, and every page ends with its own number |
| Pdf.Finish | src/App.jsx:556-563 | stamping a finished drawing: same page count, every page numbered, and the page bodies are the drawing |
| Tables.DrawDetailRows | src/App.jsx:431-497 | the drawn detail rows are the truncated records in order, with stripes on even indices; every item stays within the body; the final cursor is `CursorAfter(y0, n)` and the pages added are `BreaksIn(y0, n)`, the page-break rule folded over the n rows |
| Tables.DrawDetailRow | src/App.jsx:431-496 | one iteration: with the cursor past the overflow line, exactly one new page holding the header at the margin and the row under it, and the cursor at 30 mm; otherwise the row at the cursor on the same page, the earlier pages untouched, and the cursor one row lower |
| Tables.RowOnNewPage | src/App.jsx:433-462 | the overflow branch: the pages become the old pages plus one new page that holds exactly the header at the margin and the row below it |
| Tables.HeaderOnNewPage | src/App.jsx:433-459 | the page break of the detail table: the pages become the old pages plus one new page holding only the header at the margin |
| Tables.ExpectedDetailsSnoc | src/App.jsx:462 | the expected rows of a longer prefix add the next record with stripe `index % 2 == 0` |
| Tables.DrawSummaryRows | src/App.jsx:514-538 | the drawn summary rows are `type:` and the display total of each summary in order, striped on even indices, each within the body; the final cursor and the pages added are the page-break rule folded over the rows |
| Tables.DrawSummaryRow | src/App.jsx:514-537 | one iteration: with the cursor past the overflow line, exactly one new page whose only item is the row at the margin; otherwise the row at the cursor on the same page; the cursor moves one summary row down from where the row sits |
| Tables.RunSplit | src/App.jsx:431-537 | drawing a rows and then b rows ends at the same cursor, with the same number of new pages, as drawing a + b rows |
| Tables.DetailRunFits | src/App.jsx:433-496 | detail rows that all start above the overflow line add no page and move the cursor 10 mm each |
| Tables.DetailRunOverflows | src/App.jsx:433-435 | a detail row that would start below the overflow line forces at least one new page |
| Tables.DetailPagesFromBreak | src/App.jsx:433-496 | once the table spills over, every new page holds 23 rows: `23q + r` rows (1 ≤ r ≤ 23) add q + 1 pages and leave r rows on the last |
| Tables.SummaryRunFits | src/App.jsx:516-537 | summary rows that all start above the overflow line add no page and move the cursor 15 mm each |
| Tables.SummaryRunOverflows | src/App.jsx:516-518 | a summary row that would start below the overflow line forces at least one new page |
| Tables.SummaryPagesFromBreak | src/App.jsx:516-537 | once the summary spills over, every new page holds 16 rows: `16q + r` rows (1 ≤ r ≤ 16) add q + 1 pages |
| StatementPdf.Layout | src/App.jsx:336-563 | `StatementDrawn` holds of the pages without their stamps: the page count is `StatementPages(n, m)`, the page-break rule folded over the table and then the summary; the drawing begins with the banner; the detail rows, summary rows and footer are exactly the expected ones; every row is in the body; the whole table comes before the summary; the footer ends the last page. Page p is stamped `Page p+1 of` that count, and every detail row has a header above it on its page |
| StatementPdf.StatementTablePages | src/App.jsx:392-496 | the first page holds 19 detail rows and every later page 23: up to 19 rows add no page, and `19 + 23q + r` rows (1 ≤ r ≤ 23) add q + 1 |
| StatementPdf.OnePageStatement | src/App.jsx:392-537 | the statement is one page exactly when it has at most 19 records and, if there are summaries, `10n + 15m ≤ 177` |
| StatementPdf.DrawReport | src/App.jsx:345-554 | on a blank one-page document, the drawing satisfies `StatementDrawn`: `StatementPages(n, m)` pages, the banner first, exactly the expected detail rows, summary rows and one footer, all rows in the body, table before summary, footer last |
| StatementPdf.DrawSections | src/App.jsx:391-554 | table header, detail rows, summary header, summary rows and footer are drawn in that order, adding the pages the folded break rule gives |
| StatementPdf.StatementSections | src/App.jsx:391-554 | the assembled section sequence has the selections, placement and table-before-summary order of `Layout` |
| StatementPdf.DetailsOfStatement | src/App.jsx:431-497 | only the table contributes detail rows |
| StatementPdf.SummaryRowsOfStatement | src/App.jsx:514-538 | only the summary block contributes summary rows |
| StatementPdf.FootersOfStatement | src/App.jsx:540-554 | exactly one footer line is drawn |
| StatementPdf.PlacementOfStatement | src/App.jsx:429-538 | every item lies in the body, and no table item follows a summary item |
| StatementPdf.GeneratePdf | src/App.jsx:316-566 | no data, or an empty grid, gives the first error and nothing else does; no extracted rows give the second error; the result is a success exactly when the grid is non-empty and some row is extracted, and the file is then `usage-statement-<document or report>.pdf` with `StatementPages` pages, the banner, all records and all summaries |
| ConsumptionPdf.Period | src/app/ExcelPDF.tsx:589-590 | the period shown on the page is the placeholder pair when there are no rows, otherwise the computed range |
| ConsumptionPdf.Layout | src/app/ExcelPDF.tsx:348-579 | `ReportDrawn` holds of the pages without their stamps: as for the statement, with the page count `ReportPages(n, m)` (summary first, then the table) and the whole summary block before the table; every page is stamped with its number out of that count |
| ConsumptionPdf.ReportSummaryPages | src/app/ExcelPDF.tsx:405-442 | the first page holds 13 summary rows and every later page 16: up to 13 rows add no page, and `13 + 16q + r` rows (1 ≤ r ≤ 16) add q + 1 |
| ConsumptionPdf.OnePageReport | src/app/ExcelPDF.tsx:405-550 | the report is one page exactly when it has at most 13 summaries and, if there are records, `15m + 10n ≤ 172` |
| ConsumptionPdf.DrawReport | src/app/ExcelPDF.tsx:356-569 | on a blank one-page document, the drawing satisfies `ReportDrawn`: `ReportPages(n, m)` pages, the summary before the table, footer last |
| ConsumptionPdf.DrawSections | src/app/ExcelPDF.tsx:404-569 | summary header, summary rows, table header (without an overflow check), detail rows and footer are drawn in that order, adding the pages the folded break rule gives |
| ConsumptionPdf.ReportSections | src/app/ExcelPDF.tsx:404-569 | the assembled section sequence has the selections, placement and summary-before-table order of `Layout` |
| ConsumptionPdf.DetailsOfReport | src/app/ExcelPDF.tsx:485-551 | only the table contributes detail rows |
| ConsumptionPdf.SummaryRowsOfReport | src/app/ExcelPDF.tsx:419-443 | only the summary block contributes summary rows |
| ConsumptionPdf.FootersOfReport | src/app/ExcelPDF.tsx:555-569 | exactly one footer line is drawn |
| ConsumptionPdf.PlacementOfReport | src/app/ExcelPDF.tsx:404-551 | every item lies in the body, and no summary item follows a table item |
| ConsumptionPdf.GeneratePdf | src/app/ExcelPDF.tsx:333-582 | the same error cases, success condition (a non-empty grid with some extracted row) and file name as the statement; on success `ReportPages` pages, the Portuguese banner, all records and all summaries |
| SheetImport.ChooseSheet | src/ExcelToPdfApp.jsx:239-245 | "Export Worksheet" when present, else the first sheet name; no sheet or an empty first name is the error "No sheets found in the Excel file." |
| SheetImport.CollectVisibleRowsAsWritten | src/ExcelToPdfApp.jsx:250-266 | the loops build exactly the as-written visible set: the visited row entries that are not hidden, or the whole range when no row properties exist |
| SheetImport.CollectVisibleRows | src/ExcelToPdfApp.jsx:250-266 | the corrected loop builds exactly the rows of the range not marked hidden |
| SheetImport.KeepVisibleRows | src/ExcelToPdfApp.jsx:269-274 | the `forEach`/`push` loop yields the visible rows of the grid in order |
| SheetImport.KeepRowsPicks | src/ExcelToPdfApp.jsx:269-274 | the kept rows are the grid's rows at the increasing list of visible indices |
| SheetImport.KeepRowsAll | src/ExcelToPdfApp.jsx:260-274 | when every row is visible, the grid is kept whole |
| SheetImport.AllowedIndexes | src/ExcelToPdfApp.jsx:281-283 | exactly the positions whose header is a whitelisted string, strictly increasing |
| SheetImport.Pick | src/ExcelToPdfApp.jsx:289 | `filteredHeaders[k] = originalHeaders[allowedIndexes[k]]` |
| SheetImport.CellOrBlank | src/ExcelToPdfApp.jsx:292 | `row[i] ?? ''`: a present cell is kept; an absent one becomes `''` |
| SheetImport.Project | src/ExcelToPdfApp.jsx:292 | a projected row has one cell per allowed index |
| SheetImport.FilteredData | src/ExcelToPdfApp.jsx:290-292 | every output row has one cell per kept column, and there are no more rows than data rows |
| SheetImport.FilteredDataAppend | src/ExcelToPdfApp.jsx:291-292 | a further data row adds its projection exactly when it has a filled cell, so row order is kept |
| SheetImport.FilteredDataFrom | src/ExcelToPdfApp.jsx:291-292 | every output row is the projection of a data row that has a filled cell |
| SheetImport.UploadFrom | src/ExcelToPdfApp.jsx:276-292 | at most one visible row gives "no visible data rows"; no whitelisted header gives "No matching columns found"; it succeeds exactly when neither holds, and the headers are the whitelisted ones in order and every data row matches them in length |
| SheetImport.ReadUpload | src/ExcelToPdfApp.jsx:235-292 | the upload outcome for a workbook, with the corrected visible set: the sheet-choice error when no sheet is chosen, otherwise `UploadFrom` on the chosen sheet and its visible rows; a failure is one of the three non-empty messages, and a success has rows as wide as its headers |
| SheetImport.ParseWorkbook | src/ExcelToPdfApp.jsx:235-296 | the handler's result is the chosen sheet's upload under the corrected visible set, and every failure is one of its three messages |
| SheetImport.ReadUploadAsWritten | src/ExcelToPdfApp.jsx:235-292 | the upload outcome with the visible set the code builds: a failure is one of the three non-empty messages, and a success has rows as wide as its headers |
| SheetImport.UploadAsWrittenAgrees | src/ExcelToPdfApp.jsx:250-292 | when the chosen sheet's row properties cover its range from row 0 without holes, the outcome as written equals the corrected one |
| SheetImport.SparseUploadFails | src/ExcelToPdfApp.jsx:254-277 | for a workbook holding only a sheet whose one row entry is the header's, the handler as written fails with "no visible data rows", while the corrected handler succeeds |
| SheetImport.AsWrittenAgrees | src/ExcelToPdfApp.jsx:254-266 | when there are row properties for every row of a range that starts at row 0, with no holes, the as-written and corrected sets are equal |
| SheetImport.RowsWithoutPropertiesDropped | src/ExcelToPdfApp.jsx:254-259 | a sheet whose only row entry is the header's loses both data rows: the upload fails, though the corrected set keeps all three rows and succeeds |
| SheetImport.BeforeDot | src/ExcelToPdfApp.jsx:451 | `split('.')[0]` is the longest dot-free prefix |
| SheetImport.DownloadName | src/ExcelToPdfApp.jsx:451 | the download name ends in `.pdf`; its stem is the file name up to its first dot, or `excel-report` when that is empty |
| SheetImport.ExcelToPdfPage.constructor | src/ExcelToPdfApp.jsx:179-187 | an empty table, no file, no error, 100 rows to display |
| SheetImport.ExcelToPdfPage.HandleRowCountChange | src/ExcelToPdfApp.jsx:217-222 | only a positive `parseInt` result changes the display count; nothing else changes |
| SheetImport.ExcelToPdfPage.QuickSelect | src/ExcelToPdfApp.jsx:425 | the count becomes `min(count, totalRowCount)` |
| SheetImport.ExcelToPdfPage.SelectAll | src/ExcelToPdfApp.jsx:436 | the count becomes the row total |
| SheetImport.ExcelToPdfPage.DisplayData | src/ExcelToPdfApp.jsx:333 | the first `min(displayRowCount, n)` rows of the table |
| SheetImport.ExcelToPdfPage.ResetData | src/ExcelToPdfApp.jsx:311-317 | the table, file name and error are cleared and the display count is kept |
| SheetImport.ExcelToPdfPage.HandleFileUpload | src/ExcelToPdfApp.jsx:224-309 | no file changes nothing; otherwise the file name is set, and, following the corrected `ReadUpload`, either the upload's headers and rows with no error, or the error message over an empty table; the row total always equals the table length, and every row has one cell per header |
| ReportDocument.Paginate | src/ExcelPDFDocument.jsx:198-204 | the loop returns `Chunks(data, r)`; it needs a positive page size unless there is no data |
| ReportDocument.PaginateRoundTrip | src/ExcelPDFDocument.jsx:198-204 | concatenating the pages gives back the data |
| ReportDocument.PageSizes | src/ExcelPDFDocument.jsx:200-202 | every page is non-empty with at most r rows, and every page but the last has exactly r |
| ReportDocument.PageCount | src/ExcelPDFDocument.jsx:200 | no data gives no page; otherwise `(N-1)·r < n ≤ N·r`, that is N = ⌈n / r⌉ |
| ReportDocument.PageAt | src/ExcelPDFDocument.jsx:201 | page p is `data.slice(p·r, p·r + r)` |
| ReportDocument.HeaderRow | src/ExcelPDFDocument.jsx:249-253 | one header cell per header, `undefined` rendering as nothing |
| ReportDocument.RowText | src/ExcelPDFDocument.jsx:265-269 | one `String(cell)` per cell |
| ReportDocument.DetailsBlock | src/ExcelPDFDocument.jsx:230-243 | one `label:` line per entry, then `Report Generated:` with the date |
| ReportDocument.RenderDocument | src/ExcelPDFDocument.jsx:215-287 | one page per chunk; every page repeats the company name, title, table header, footer and disclaimer, and is stamped `Page i+1 of N`; the details block appears on page 0 only, and there exactly when details exist; row j is striped exactly when j is odd |
| ReportDocument.RowRendered | src/ExcelPDFDocument.jsx:257-271 | row j of page p shows data row `p·r + j`, cell for cell |
| ReportDocument.DocumentPages | src/ExcelPDFDocument.jsx:198-215 | the document has ⌈n / r⌉ pages, each showing between 1 and r rows |
| ReportDocument.ExportDocument | src/ExcelToPdfApp.jsx:450 | the viewer's export has ⌈n / 35⌉ pages, the default title, no details block, and data row k as row `k % 35` of page `k / 35` |

## Left out

- File reading and workbook decoding (`FileReader`, `XLSX.read`, `sheet_to_json`, `decode_range`) are not modelled. The decoded grid, row properties and range are inputs.
- In the viewer, grid index k is taken to be sheet row k. When a range starts below row 0, `sheet_to_json` numbers its rows from the range start, but the visible set is numbered from row 0. That offset is not modelled.
- jsPDF glyph and vector output is not modelled: rectangles, lines, colours, fonts, x positions, alignment. Only the drawn items and their y positions are modelled. `@react-pdf/renderer` layout and styles are left out as well.
- The App generator's logo is a filled rectangle with the text "Africell"; the consumption generator's is `addImage`. Both are one `Logo` item.
- Engine and locale behaviour is modelled only through `Cells.Library`:
  - `Date` parsing;
  - `toLocaleString`/`toLocaleDateString`;
  - `toFixed(2)`;
  - `String(number)`;
  - `parseFloat`.

  Floating-point amounts are real numbers, so rounding in sums and divisions is not modelled.
- Summary.GroupByCategory: uses first-seen order. `Object.keys` lists integer-like keys first in ascending order, so the order differs for numeric usage-type names.
- JavaScript prototype keys are not modelled in the lookup tables. A usage type named `toString`, or a cell equal to `constructor` in `eventMappings[cell]`, reads an inherited property instead of a missing one.
- `calculateDateRange` tests `row.amount != 0`. The records carry no `amount` field, so the test is always true, and the model omits it.
- React plumbing is not modelled: loading flags, theme toggling, `localStorage` persistence of the theme and row count, the sheet selector and `handleSheetChange`, `setError` state, and the `Tooltip` component. Errors are `Result` values.
- The App upload handler and sheet processing wrappers are modelled only through `Relabel.ProcessSheet`, which is the grid they store.
- SheetImport.ReadUpload: uses the corrected visible set of the finding below, not the set lines 254-259 build. On a sheet whose row properties stop short of its range, or have holes, the source may fail where the model succeeds; `SheetImport.ReadUploadAsWritten` is the outcome as written, and `SheetImport.UploadAsWrittenAgrees` gives when the two agree.
- SheetImport.ParseWorkbook: computes the corrected `ReadUpload`, for the same reason. It also requires every listed sheet name to have a sheet, as the workbook reader guarantees; a missing sheet would raise an engine-worded `TypeError`.
- SheetImport.ExcelToPdfPage.HandleFileUpload: shows the corrected `ReadUpload`'s outcome, so on a sparse or short `!rows` array it loads rows where the source shows "Excel file contains no visible data rows.", or loads more rows than the source, which keeps only the rows the array covers
- Text.LowerCase: lowers only the ASCII capitals A–Z. JavaScript's `toLowerCase` maps all of Unicode (`Á` to `á`, and `İ` to two characters, which changes the length). For the ASCII column headers the model's matches are the source's; a header whose match depends on a non-ASCII capital is not modelled.
- Truncate.TruncateText: counts lengths in Unicode scalar values. JavaScript's `.length` and `substring` count UTF-16 code units, so a character outside the Basic Multilingual Plane counts twice in the source, and `substring` may split it.
- Cells.Cell: holds no boolean cells. `sheet_to_json` yields `true`/`false` for boolean cells, which `String` renders as `true`/`false` and `parseFloat(...) || 0` reads as 0.
- SheetImport.ExcelToPdfPage.HandleRowCountChange: `parseInt` on very long digit strings loses precision in JavaScript. The model's integers are exact.
- ReportDocument.Paginate: requires a positive page size unless there is no data. With data and a page size ≤ 0, the source loop never ends.
- ReportDocument.RenderDocument: `reportDetails` is taken as its list of entries. A `null` value and `Object.entries`' integer-key order are not modelled.
- The detail-table header of the consumption report is drawn right after the summary without an overflow check. `Pdf.InBody` therefore places no bound on table headers, and the model claims nothing about where that header sits.
- The commented-out first versions of `src/ExcelToPdfApp.jsx` (lines 1-159) and `src/ExcelPDFDocument.jsx` (lines 1-71) are dead code and are not modelled.

## Findings

| source | as written | input that shows it | evidently intended | confidence | as-written member | corrected member |
|---|---|---|---|---|---|---|
| src/ExcelToPdfApp.jsx:254-259 | with a `!rows` array, only the indices that `forEach` visits can become visible, so rows beyond the array's end, and holes in it, count as hidden | row properties `[{hidden: false}]` (say a custom height on the header row) over a 3-row sheet: the visible set is {0}, and the upload fails with "Excel file contains no visible data rows." | every row of the range that is not marked hidden is visible | medium, not executed | SheetImport.RowsWithoutPropertiesDropped (on SheetImport.CollectVisibleRowsAsWritten), SheetImport.SparseUploadFails | SheetImport.CollectVisibleRows (with SheetImport.AsWrittenAgrees, SheetImport.UploadAsWrittenAgrees) |
