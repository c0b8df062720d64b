/** The event-path relabelling applied to every cell of a freshly decoded
    sheet (`eventMappings` and `processSheet`). */
module Relabel {
  import opened Wrappers
  import opened Cells

  /** The Portuguese label of one of the four telecom event paths. */
  function EventLabel(path: string): Option<string> {
    if path == "/event/billing/product/fee/purchase" then Some("Ativação de plano")
    else if path == "/event/delayed/session/telco/gprs" then Some("Serviço de Dados e internet")
    else if path == "/event/delayed/session/telco/gsm" then Some("Serviço de Voz")
    else if path == "/event/delayed/session/telco/gsm/sms" then Some("Serviço de SMS")
    else None
  }

  /** The cell is a string equal to one of the four event paths. */
  predicate IsEventPath(c: Cell) {
    c.Text? && EventLabel(c.s).Some?
  }

  /** `eventMappings[cell] || cell`: every label is a non-empty string, so a
      mapped path is always replaced. */
  function RelabelCell(c: Cell): (r: Cell)
    ensures IsEventPath(c) ==> r == Text(EventLabel(c.s).value)
    ensures !IsEventPath(c) ==> r == c
  {
    if IsEventPath(c) then Text(EventLabel(c.s).value) else c
  }

  /** `data.map(row => row.map(cell => eventMappings[cell] || cell))`. */
  function ProcessSheet(grid: seq<seq<Cell>>): (r: seq<seq<Cell>>)
    ensures |r| == |grid|
    ensures forall i :: 0 <= i < |grid| ==> |r[i]| == |grid[i]|
    ensures forall i, j :: 0 <= i < |grid| && 0 <= j < |grid[i]| ==>
      (IsEventPath(grid[i][j]) ==> r[i][j] == Text(EventLabel(grid[i][j].s).value))
      && (!IsEventPath(grid[i][j]) ==> r[i][j] == grid[i][j])
  {
    seq(|grid|, i requires 0 <= i < |grid| =>
      seq(|grid[i]|, j requires 0 <= j < |grid[i]| => RelabelCell(grid[i][j])))
  }

  /** No label is itself an event path, so relabelling a relabelled sheet
      changes nothing. */
  lemma ProcessSheetIdempotent(grid: seq<seq<Cell>>)
    ensures ProcessSheet(ProcessSheet(grid)) == ProcessSheet(grid)
  {
    var once := ProcessSheet(grid);
    var twice := ProcessSheet(once);
    forall i | 0 <= i < |once| ensures twice[i] == once[i] {
      forall j | 0 <= j < |once[i]| ensures twice[i][j] == once[i][j] {
        if IsEventPath(grid[i][j]) {
          var name := EventLabel(grid[i][j].s).value;
          assert EventLabel(name).None?;
        }
      }
    }
  }
}
