/** The unit converter (`convertUnits`): a case split on the service label
    that scales data volumes, renders call durations as a clock and suffixes
    SMS counts. */
module Units {
  import opened Cells
  import opened Text

  const DataService := "Serviço de Dados e internet"
  const VoiceService := "Serviço de Voz"
  const SmsService := "Serviço de SMS"

  /** The branch of the `switch`; anything else falls to the default branch. */
  datatype Service = DataVolume | Voice | Sms | Other

  /** `switch` compares with `===`, so only a string cell can pick a named branch. */
  function ServiceOf(c: Cell): Service {
    if c == Text(DataService) then DataVolume
    else if c == Text(VoiceService) then Voice
    else if c == Text(SmsService) then Sms
    else Other
  }

  /** Data volumes are counted in KB and shown in KB, MB or GB. */
  datatype DataUnit = KB | MB | GB

  /** The unit a data volume is shown in: KB below 1024, MB below 1048576, GB above. */
  function UnitFor(v: real): DataUnit {
    if v < 1024.0 then KB else if v < 1048576.0 then MB else GB
  }

  /** How many KB one unit holds. */
  function Factor(u: DataUnit): real {
    match u
    case KB => 1.0
    case MB => 1024.0
    case GB => 1048576.0
  }

  function Suffix(u: DataUnit): string {
    match u
    case KB => " KB"
    case MB => " MB"
    case GB => " GB"
  }

  /** JavaScript `%` on numbers: the remainder of truncating division, which
      takes the sign of the dividend. */
  function JsRem(a: real, b: real): real
    requires b != 0.0
  {
    var q := a / b;
    var t := if q >= 0.0 then q.Floor else -((-q).Floor);
    a - b * (t as real)
  }

  /** `n.toString().padStart(2, "0")`. */
  function TwoDigits(n: int): string {
    PadStart2(IntToString(n))
  }

  /** The voice branch: `Math.floor` of hours, of minutes within the hour and
      of seconds within the minute, joined by colons. */
  function VoiceDisplay(v: real): string {
    TwoDigits((v / 3600.0).Floor) + ":" + TwoDigits((JsRem(v, 3600.0) / 60.0).Floor)
      + ":" + TwoDigits(JsRem(v, 60.0).Floor)
  }

  /** `{ value, display }` as `convertUnits` returns it. */
  datatype Converted = Converted(value: real, display: string)

  function ConvertUnits(lib: Library, amount: Cell, serviceType: Cell): (r: Converted)
    ensures var v := NumberOrZero(lib, amount);
      match ServiceOf(serviceType)
      case DataVolume =>
        r.value * Factor(UnitFor(v)) == v && r.display == lib.fixed2(r.value) + Suffix(UnitFor(v))
      case Voice => r.value == v && r.display == VoiceDisplay(v)
      case Sms => r.value == v && r.display == lib.numberText(v) + " SMS"
      case Other => r.value == v && r.display == lib.fixed2(v)
  {
    var value := NumberOrZero(lib, amount);
    match ServiceOf(serviceType)
    case DataVolume =>
      if value < 1024.0 then Converted(value, lib.fixed2(value) + " KB")
      else if value < 1048576.0 then Converted(value / 1024.0, lib.fixed2(value / 1024.0) + " MB")
      else Converted(value / 1048576.0, lib.fixed2(value / 1048576.0) + " GB")
    case Voice => Converted(value, VoiceDisplay(value))
    case Sms => Converted(value, lib.numberText(value) + " SMS")
    case Other => Converted(value, lib.fixed2(value))
  }

  /** A non-negative data volume is shown with a number below 1024 unless it
      reaches the GB range, and MB and GB figures are at least 1. */
  lemma DataScaleBounds(lib: Library, amount: Cell)
    requires NumberOrZero(lib, amount) >= 0.0
    ensures var v := NumberOrZero(lib, amount);
      var r := ConvertUnits(lib, amount, Text(DataService));
      && (UnitFor(v) != GB ==> 0.0 <= r.value < 1024.0)
      && (UnitFor(v) != KB ==> r.value >= 1.0)
  {
    var v := NumberOrZero(lib, amount);
    var r := ConvertUnits(lib, amount, Text(DataService));
    if UnitFor(v) == MB {
      assert r.value * 1024.0 == v;
    } else if UnitFor(v) == GB {
      assert r.value * 1048576.0 == v;
    }
  }

  /** `Math.floor(v / d)` and `v % d` for `v = d q + r`, with the two divisors the clock uses. */
  lemma FloorSplit(v: real, d: real, q: nat, r: real)
    requires d == 60.0 || d == 3600.0
    requires v == d * (q as real) + r && 0.0 <= r < d
    ensures (v / d).Floor == q
    ensures JsRem(v, d) == r
  {
    if d == 60.0 {
      assert v == 60.0 * (q as real) + r;
      assert (q as real) <= v / 60.0 < (q as real) + 1.0;
    } else {
      assert v == 3600.0 * (q as real) + r;
      assert (q as real) <= v / 3600.0 < (q as real) + 1.0;
    }
  }

  /** The three numbers the voice branch floors are the hours, the minutes within
      the hour and the seconds within the minute. */
  lemma ClockParts(v: real, h: nat, m: nat, sec: nat)
    requires m < 60 && sec < 60
    requires v == 3600.0 * (h as real) + 60.0 * (m as real) + (sec as real)
    ensures (v / 3600.0).Floor == h
    ensures (JsRem(v, 3600.0) / 60.0).Floor == m
    ensures JsRem(v, 60.0).Floor == sec
  {
    var rest := 60.0 * (m as real) + (sec as real);
    FloorSplit(v, 3600.0, h, rest);
    FloorSplit(rest, 60.0, m, sec as real);
    var total: nat := 60 * h + m;
    assert (total as real) == 60.0 * (h as real) + (m as real);
    FloorSplit(v, 60.0, total, sec as real);
    assert (sec as real).Floor == sec;
  }

  /** `h` hours, `m` minutes and `sec` seconds are shown as `hh:mm:ss`. */
  lemma VoiceClock(v: real, h: nat, m: nat, sec: nat)
    requires m < 60 && sec < 60
    requires v == 3600.0 * (h as real) + 60.0 * (m as real) + (sec as real)
    ensures VoiceDisplay(v) == TwoDigits(h) + ":" + TwoDigits(m) + ":" + TwoDigits(sec)
  {
    ClockParts(v, h, m, sec);
  }

  lemma TwoDigitsSmall(n: int)
    requires 0 <= n < 10
    ensures TwoDigits(n) == ['0', DigitChar(n)]
  {
    PadStart2Small(n);
  }

  /** The voice branch of `convertUnits` on `h` hours, `m` minutes and `sec` seconds. */
  lemma VoiceOfClock(lib: Library, v: real, h: nat, m: nat, sec: nat)
    requires m < 60 && sec < 60
    requires v == 3600.0 * (h as real) + 60.0 * (m as real) + (sec as real)
    ensures ConvertUnits(lib, Number(v), Text(VoiceService)).display
      == TwoDigits(h) + ":" + TwoDigits(m) + ":" + TwoDigits(sec)
  {
    assert ServiceOf(Text(VoiceService)) == Voice;
    assert NumberOrZero(lib, Number(v)) == v;
    VoiceClock(v, h, m, sec);
  }

  /** 3661 seconds are shown as "01:01:01". */
  lemma VoiceExampleHour(lib: Library)
    ensures ConvertUnits(lib, Number(3661.0), Text(VoiceService)).display == "01:01:01"
  {
    VoiceOfClock(lib, 3661.0, 1, 1, 1);
    PaddedDigit(1);
    assert "01" + ":" + "01" + ":" + "01" == "01:01:01";
  }

  /** 125 seconds are shown as "00:02:05". */
  lemma VoiceExampleMinutes(lib: Library)
    ensures ConvertUnits(lib, Number(125.0), Text(VoiceService)).display == "00:02:05"
  {
    VoiceOfClock(lib, 125.0, 0, 2, 5);
    PaddedDigit(0);
    PaddedDigit(2);
    PaddedDigit(5);
    assert "00" + ":" + "02" + ":" + "05" == "00:02:05";
  }

  lemma PaddedDigit(n: int)
    requires 0 <= n < 10
    ensures TwoDigits(n) == "0" + [DigitChar(n)]
    ensures n == 0 ==> TwoDigits(n) == "00"
    ensures n == 1 ==> TwoDigits(n) == "01"
    ensures n == 2 ==> TwoDigits(n) == "02"
    ensures n == 5 ==> TwoDigits(n) == "05"
  {
    TwoDigitsSmall(n);
  }

  /** 1023 KB stays in KB; 1024 KB is the first volume shown in MB (as 1 MB). */
  lemma DataBoundaries(lib: Library)
    ensures ConvertUnits(lib, Number(1023.0), Text(DataService)).display == lib.fixed2(1023.0) + " KB"
    ensures ConvertUnits(lib, Number(1024.0), Text(DataService)).display == lib.fixed2(1.0) + " MB"
    ensures ConvertUnits(lib, Number(1048576.0), Text(DataService)).display == lib.fixed2(1.0) + " GB"
  {
  }
}
