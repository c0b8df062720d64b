/** `truncateText`: the cell-text shortener used for every table cell of the PDF. */
module Truncate {
  import opened Cells

  const Ellipsis := "..."

  /** `text.substring(0, maxLength - 3) + "..."` for a text longer than
      `maxLength`; `substring` clamps a negative end to 0. */
  function TruncateText(text: string, maxLength: int): (r: string)
    ensures |text| <= maxLength ==> r == text
    ensures text == "" ==> r == ""
    ensures text != "" && |text| > maxLength >= 3 ==>
      |r| == maxLength && r == text[..maxLength - 3] + Ellipsis
    ensures text != "" && |text| > maxLength && maxLength < 3 ==> r == Ellipsis
  {
    if text == "" then ""
    else if |text| <= maxLength then text
    else text[..if maxLength - 3 < 0 then 0 else maxLength - 3] + Ellipsis
  }

  /** The cell variant: a falsy value (`undefined`, `""`, `0`) gives the
      empty string, anything else is shortened as text. */
  function TruncateCell(lib: Library, c: Cell, maxLength: int): (r: string)
    ensures !Truthy(c) ==> r == ""
    ensures Truthy(c) ==> r == TruncateText(Display(lib, c), maxLength)
  {
    if !Truthy(c) then "" else TruncateText(Display(lib, c), maxLength)
  }

  /** A shortened text is never longer than the limit once the limit leaves room for the ellipsis. */
  lemma TruncateFits(text: string, maxLength: int)
    requires maxLength >= 3
    ensures |TruncateText(text, maxLength)| <= maxLength
    ensures |TruncateText(text, maxLength)| <= |text|
  {
  }

  /** Shortening twice is shortening once, for every limit. */
  lemma TruncateIdempotent(text: string, maxLength: int)
    ensures TruncateText(TruncateText(text, maxLength), maxLength) == TruncateText(text, maxLength)
  {
  }
}
