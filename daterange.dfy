/** `calculateDateRange`: the earliest start time and the latest end time of
    the extracted records, printed as DD/MM/YYYY. */
module DateRange {
  import opened Wrappers
  import opened Cells
  import opened Text
  import opened Units
  import opened Extract

  datatype Range = Range(min: string, max: string)

  const NoDate := "N/A"

  /** The timestamp a time field contributes: none for `""`, for `"N/A"` and
      for a string the date parser rejects. (The source's further condition
      `row.amount != 0` reads a field records do not have, so it always holds.) */
  function Stamp(lib: Library, s: string): Option<int> {
    if s != "" && s != NoDate then lib.dateOf(Text(s)) else None
  }

  /** The smallest start timestamp, scanning in order and replacing only on a strictly smaller one. */
  function Earliest(lib: Library, rows: seq<UsageRecord>): Option<int> {
    if |rows| == 0 then None
    else
      var m := Earliest(lib, rows[..|rows| - 1]);
      match Stamp(lib, rows[|rows| - 1].startTime)
      case None => m
      case Some(t) => if m.None? || t < m.value then Some(t) else m
  }

  /** The largest end timestamp. */
  function Latest(lib: Library, rows: seq<UsageRecord>): Option<int> {
    if |rows| == 0 then None
    else
      var m := Latest(lib, rows[..|rows| - 1]);
      match Stamp(lib, rows[|rows| - 1].endTime)
      case None => m
      case Some(t) => if m.None? || t > m.value then Some(t) else m
  }

  /** `formatDate`: `N/A` without a date, otherwise day and month padded to two digits. */
  function FormatDate(lib: Library, d: Option<int>): (r: string)
    ensures d.None? ==> r == NoDate
  {
    match d
    case None => NoDate
    case Some(t) =>
      var c := lib.localDate(t);
      TwoDigits(c.day) + "/" + TwoDigits(c.month) + "/" + IntToString(c.year)
  }

  /** The `forEach` scan, which keeps the running minimum and maximum. */
  method CalculateDateRange(lib: Library, rows: seq<UsageRecord>) returns (range: Range)
    ensures |rows| == 0 ==> range == Range(NoDate, NoDate)
    ensures |rows| > 0 ==> range == Range(FormatDate(lib, Earliest(lib, rows)), FormatDate(lib, Latest(lib, rows)))
  {
    if |rows| == 0 {
      return Range(NoDate, NoDate);
    }
    var minDate: Option<int> := None;
    var maxDate: Option<int> := None;
    var i := 0;
    while i < |rows|
      invariant 0 <= i <= |rows|
      invariant minDate == Earliest(lib, rows[..i])
      invariant maxDate == Latest(lib, rows[..i])
    {
      assert rows[..i + 1][..i] == rows[..i];
      var start := Stamp(lib, rows[i].startTime);
      if start.Some? && (minDate.None? || start.value < minDate.value) {
        minDate := start;
      }
      var end := Stamp(lib, rows[i].endTime);
      if end.Some? && (maxDate.None? || end.value > maxDate.value) {
        maxDate := end;
      }
      i := i + 1;
    }
    assert rows[..i] == rows;
    range := Range(FormatDate(lib, minDate), FormatDate(lib, maxDate));
  }

  /** The earliest start is a lower bound of every usable start time and is
      one of them; there is none exactly when no start time is usable. */
  lemma {:induction false} EarliestIsMinimum(lib: Library, rows: seq<UsageRecord>)
    ensures Earliest(lib, rows).None? <==> forall i :: 0 <= i < |rows| ==> Stamp(lib, rows[i].startTime).None?
    ensures Earliest(lib, rows).Some? ==>
      && (forall i :: 0 <= i < |rows| && Stamp(lib, rows[i].startTime).Some? ==>
            Earliest(lib, rows).value <= Stamp(lib, rows[i].startTime).value)
      && (exists i :: 0 <= i < |rows| && Stamp(lib, rows[i].startTime) == Earliest(lib, rows))
    decreases |rows|
  {
    if |rows| > 0 {
      var init := rows[..|rows| - 1];
      EarliestIsMinimum(lib, init);
      assert forall i :: 0 <= i < |init| ==> init[i] == rows[i];
      if Earliest(lib, rows).Some? && Earliest(lib, rows) == Earliest(lib, init) {
        var j :| 0 <= j < |init| && Stamp(lib, init[j].startTime) == Earliest(lib, init);
        assert Stamp(lib, rows[j].startTime) == Earliest(lib, rows);
      }
    }
  }

  /** The latest end is an upper bound of every usable end time and is one of them. */
  lemma {:induction false} LatestIsMaximum(lib: Library, rows: seq<UsageRecord>)
    ensures Latest(lib, rows).None? <==> forall i :: 0 <= i < |rows| ==> Stamp(lib, rows[i].endTime).None?
    ensures Latest(lib, rows).Some? ==>
      && (forall i :: 0 <= i < |rows| && Stamp(lib, rows[i].endTime).Some? ==>
            Stamp(lib, rows[i].endTime).value <= Latest(lib, rows).value)
      && (exists i :: 0 <= i < |rows| && Stamp(lib, rows[i].endTime) == Latest(lib, rows))
    decreases |rows|
  {
    if |rows| > 0 {
      var init := rows[..|rows| - 1];
      LatestIsMaximum(lib, init);
      assert forall i :: 0 <= i < |init| ==> init[i] == rows[i];
      if Latest(lib, rows).Some? && Latest(lib, rows) == Latest(lib, init) {
        var j :| 0 <= j < |init| && Stamp(lib, init[j].endTime) == Latest(lib, init);
        assert Stamp(lib, rows[j].endTime) == Latest(lib, rows);
      }
    }
  }

  /** A calendar date prints as `DD/MM/` followed by the year, and the year reads back. */
  lemma FormatDateShape(lib: Library, t: int)
    requires 1 <= lib.localDate(t).day <= 31 && 1 <= lib.localDate(t).month <= 12
    ensures var c := lib.localDate(t);
      var r := FormatDate(lib, Some(t));
      && |r| >= 7
      && r[..6] == [DigitChar(c.day / 10), DigitChar(c.day % 10), '/', DigitChar(c.month / 10), DigitChar(c.month % 10), '/']
      && ParseInt(r[6..]) == Some(c.year)
  {
    var c := lib.localDate(t);
    PadStart2Small(c.day);
    PadStart2Small(c.month);
    ParseIntRoundTrip(c.year);
    var r := FormatDate(lib, Some(t));
    var year := IntToString(c.year);
    assert r == [DigitChar(c.day / 10), DigitChar(c.day % 10)] + "/" + [DigitChar(c.month / 10), DigitChar(c.month % 10)] + "/" + year;
    assert r[6..] == year;
  }
}
