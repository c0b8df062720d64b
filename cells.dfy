/** Spreadsheet cell values as the sheet reader hands them over, JavaScript
    truthiness, and the library functions the pipeline calls but does not
    define (number parsing and rendering, date parsing and formatting). */
module Cells {
  import opened Wrappers

  /** One cell of the decoded grid: `undefined`/`null`, a string or a number. */
  datatype Cell = Missing | Text(s: string) | Number(x: real)

  /** JavaScript truthiness of a cell: `undefined`, `""` and `0` are falsy. */
  predicate Truthy(c: Cell) {
    match c
    case Missing => false
    case Text(s) => s != ""
    case Number(x) => x != 0.0
  }

  /** Local calendar fields of a timestamp: `getDate()`, `getMonth() + 1`, `getFullYear()`. */
  datatype CalendarDate = CalendarDate(day: int, month: int, year: int)

  /** The engine- and locale-dependent library calls, as total functions.
      Timestamps are milliseconds since the epoch. */
  datatype Library = Library(
    numberText: real -> string,           // String(x) for a number x
    fixed2: real -> string,               // x.toFixed(2)
    parseFloat: string -> Option<real>,   // parseFloat(s); None stands for NaN
    dateOf: Cell -> Option<int>,          // new Date(v).getTime(); None for an invalid date
    localeDateTime: int -> string,        // toLocaleString("en-US", 2-digit day/month/hour/minute)
    localDate: int -> CalendarDate)       // the local calendar date of a timestamp

  /** `String(c)`. */
  function Display(lib: Library, c: Cell): string {
    match c
    case Missing => "undefined"
    case Text(s) => s
    case Number(x) => lib.numberText(x)
  }

  /** `parseFloat(c) || 0`: a number is itself, a string is parsed, and `NaN`
      (an unparseable string or `undefined`) becomes 0. */
  function NumberOrZero(lib: Library, c: Cell): (v: real)
    ensures c.Missing? ==> v == 0.0
    ensures c.Number? ==> v == c.x
    ensures c.Text? && lib.parseFloat(c.s).None? ==> v == 0.0
  {
    match c
    case Missing => 0.0
    case Text(s) => lib.parseFloat(s).GetOr(0.0)
    case Number(x) => x
  }
}
