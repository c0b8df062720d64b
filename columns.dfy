/** The column resolver: four `findIndex` searches over the header row, each
    for the leftmost header whose lower-cased text contains given words. */
module Columns {
  import opened Cells
  import opened Text

  /** The four semantic columns the extractor looks for. */
  datatype Field = StartTime | EndTime | Category | Amount

  /** The words a lower-cased header must contain to stand for a field. */
  predicate Wants(f: Field, t: string) {
    match f
    case StartTime => Includes(t, "start") && Includes(t, "time")
    case EndTime => Includes(t, "end") && Includes(t, "time")
    case Category => Includes(t, "usage") || Includes(t, "type")
    case Amount => Includes(t, "amount")
  }

  /** The `findIndex` callback: a truthy header whose `toString().toLowerCase()`
      contains the field's words. */
  predicate HeaderMatches(lib: Library, f: Field, h: Cell) {
    Truthy(h) && Wants(f, LowerCase(Display(lib, h)))
  }

  /** `idx` is what `findIndex` must return: the leftmost matching position,
      or -1 when no header matches. */
  predicate IsLeftmostMatch(lib: Library, headers: seq<Cell>, f: Field, idx: int) {
    && -1 <= idx < |headers|
    && (idx >= 0 ==> HeaderMatches(lib, f, headers[idx]))
    && (forall i :: 0 <= i < |headers| && (idx == -1 || i < idx) ==> !HeaderMatches(lib, f, headers[i]))
  }

  /** `headers.findIndex(...)` started at position `from`. */
  function FindFrom(lib: Library, headers: seq<Cell>, f: Field, from: nat): (r: int)
    requires from <= |headers|
    ensures r == -1 || from <= r < |headers|
    ensures r >= 0 ==> HeaderMatches(lib, f, headers[r])
    ensures forall i :: from <= i < |headers| && (r == -1 || i < r) ==> !HeaderMatches(lib, f, headers[i])
    decreases |headers| - from
  {
    if from == |headers| then -1
    else if HeaderMatches(lib, f, headers[from]) then from
    else FindFrom(lib, headers, f, from + 1)
  }

  function FindColumn(lib: Library, headers: seq<Cell>, f: Field): (r: int)
    ensures IsLeftmostMatch(lib, headers, f, r)
  {
    FindFrom(lib, headers, f, 0)
  }

  /** The resolved column of each field; -1 marks an absent column. */
  datatype ColumnIndexSet = ColumnIndexSet(startTime: int, endTime: int, category: int, amount: int)

  function IndexOf(cols: ColumnIndexSet, f: Field): int {
    match f
    case StartTime => cols.startTime
    case EndTime => cols.endTime
    case Category => cols.category
    case Amount => cols.amount
  }

  function ResolveColumns(lib: Library, headers: seq<Cell>): (cols: ColumnIndexSet)
    ensures forall f: Field :: IsLeftmostMatch(lib, headers, f, IndexOf(cols, f))
  {
    ColumnIndexSet(
      FindColumn(lib, headers, StartTime),
      FindColumn(lib, headers, EndTime),
      FindColumn(lib, headers, Category),
      FindColumn(lib, headers, Amount))
  }
}
