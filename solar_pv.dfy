/** Performance series of a solar PV installation: measurements are read from CSV lines
    into parallel series, then DC power and conversion efficiency are derived from them
    sample by sample. */
module SolarPv {
  import opened Wrappers
  import opened JavaText

  /** A timestamp as read from the first column (`yyyy-MM-dd HH:mm:ss`). */
  datatype DateTime = DateTime(year: int, month: int, day: int, hour: int, minute: int, second: int)

  /** One data row: timestamp, irradiance (W/m^2), panel temperature, voltage, current and
      load power. */
  datatype Reading = Reading(
    time: DateTime, irradiance: real, panelTemperature: real,
    voltage: real, current: real, loadPower: real)

  /** A line holds a data row exactly when splitting it at commas gives six values. */
  predicate IsRow(line: string) {
    |Split(line)| == 6
  }

  /** The timestamp parsed from the trimmed value, with the parser given as parseTime. */
  function ParseTime(value: string, parseTime: string -> Option<DateTime>): Option<DateTime> {
    parseTime(Trim(value))
  }

  /** A double parsed from the trimmed value, with the parser given as parseNumber. */
  function ParseNumber(value: string, parseNumber: string -> Option<real>): Option<real> {
    parseNumber(Trim(value))
  }

  /** The column each measured quantity is read from. */
  function Column(q: Quantity): (col: nat)
    ensures 1 <= col < 6
  {
    match q
    case Irradiance => 1
    case PanelTemperature => 2
    case Voltage => 3
    case Current => 4
    case LoadPower => 5
  }

  /** The six trimmed values parsed: the timestamp by parseTime and the five numbers by
      parseNumber; None when any of them fails to parse. A parsed row takes its timestamp
      from column 0 and each measured quantity from its own column. */
  function ParseRow(values: seq<string>, parseTime: string -> Option<DateTime>,
                    parseNumber: string -> Option<real>): (row: Option<Reading>)
    requires |values| == 6
    ensures row.Some? <==>
              ParseTime(values[0], parseTime).Some? &&
              forall q: Quantity :: ParseNumber(values[Column(q)], parseNumber).Some?
    ensures row.Some? ==>
              && Some(row.value.time) == ParseTime(values[0], parseTime)
              && forall q: Quantity :: Some(Measure(row.value, q)) == ParseNumber(values[Column(q)], parseNumber)
  {
    EveryColumnParses(values, parseNumber);
    var time := ParseTime(values[0], parseTime);
    var irradiance := ParseNumber(values[1], parseNumber);
    var temperature := ParseNumber(values[2], parseNumber);
    var voltage := ParseNumber(values[3], parseNumber);
    var current := ParseNumber(values[4], parseNumber);
    var load := ParseNumber(values[5], parseNumber);
    if time.Some? && irradiance.Some? && temperature.Some? && voltage.Some? && current.Some? && load.Some?
    then Some(Reading(time.value, irradiance.value, temperature.value, voltage.value, current.value, load.value))
    else None
  }

  /** Every quantity's column parses exactly when columns 1 to 5 all parse. */
  lemma EveryColumnParses(values: seq<string>, parseNumber: string -> Option<real>)
    requires |values| == 6
    ensures (forall q: Quantity :: ParseNumber(values[Column(q)], parseNumber).Some?) <==>
              forall j :: 1 <= j < 6 ==> ParseNumber(values[j], parseNumber).Some?
  {
    if forall q: Quantity :: ParseNumber(values[Column(q)], parseNumber).Some? {
      forall j | 1 <= j < 6
        ensures ParseNumber(values[j], parseNumber).Some?
      {
        var q := if j == 1 then Irradiance else if j == 2 then PanelTemperature
                 else if j == 3 then Voltage else if j == 4 then Current else LoadPower;
        assert Column(q) == j;
      }
    }
  }

  /** The lines after the header line. */
  function DataLines(lines: seq<string>): seq<string> {
    if |lines| == 0 then [] else lines[1..]
  }

  /** Every line split at commas, as `line.split(",")` does. */
  function SplitLines(lines: seq<string>): seq<seq<string>> {
    seq(|lines|, i requires 0 <= i < |lines| => Split(lines[i]))
  }

  /** The split lines that hold a data row (six values), in order. */
  function Accepted(rows: seq<seq<string>>): (accepted: seq<seq<string>>)
    ensures |accepted| <= |rows|
    ensures forall i :: 0 <= i < |accepted| ==> |accepted[i]| == 6
  {
    if |rows| == 0 then []
    else
      var last := rows[|rows| - 1];
      Accepted(rows[..|rows| - 1]) + (if |last| == 6 then [last] else [])
  }

  /** Reading split data lines in order: lines without six values are passed over, and
      reading stops with None at the first row that does not parse. A successful read
      gives at most one reading per line, and lines none of which has six values read as
      no readings. */
  function ReadRows(rows: seq<seq<string>>, parseTime: string -> Option<DateTime>,
                    parseNumber: string -> Option<real>): (read: Option<seq<Reading>>)
    ensures read.Some? ==> |read.value| <= |rows|
    ensures (forall i :: 0 <= i < |rows| ==> |rows[i]| != 6) ==> read == Some([])
  {
    if |rows| == 0 then Some([])
    else
      match ReadRows(rows[..|rows| - 1], parseTime, parseNumber)
      case None => None
      case Some(readings) =>
        var values := rows[|rows| - 1];
        if |values| != 6 then Some(readings)
        else
          match ParseRow(values, parseTime, parseNumber)
          case None => None
          case Some(r) => Some(readings + [r])
  }

  /** Reading a whole CSV file: the first line is the header, every later line is split at
      commas and read as a row. An empty file or a header alone reads as no readings, and
      a successful read has fewer readings than the file has lines. */
  function ReadCsv(lines: seq<string>, parseTime: string -> Option<DateTime>,
                   parseNumber: string -> Option<real>): (read: Option<seq<Reading>>)
    ensures |lines| <= 1 ==> read == Some([])
    ensures read.Some? && |lines| > 0 ==> |read.value| < |lines|
  {
    ReadRows(SplitLines(DataLines(lines)), parseTime, parseNumber)
  }

  /** Accepted row i parses. */
  predicate RowParses(rows: seq<seq<string>>, i: nat, parseTime: string -> Option<DateTime>,
                      parseNumber: string -> Option<real>)
    requires i < |Accepted(rows)|
  {
    ParseRow(Accepted(rows)[i], parseTime, parseNumber).Some?
  }

  /** Reading succeeds exactly when every accepted row parses. */
  lemma {:induction false} ReadRowsSucceeds(rows: seq<seq<string>>, parseTime: string -> Option<DateTime>,
                                            parseNumber: string -> Option<real>)
    ensures ReadRows(rows, parseTime, parseNumber).Some? <==>
      forall i :: 0 <= i < |Accepted(rows)| ==> RowParses(rows, i, parseTime, parseNumber)
  {
    if |rows| > 0 {
      var init := rows[..|rows| - 1];
      var last := rows[|rows| - 1];
      ReadRowsSucceeds(init, parseTime, parseNumber);
      AcceptedSnoc(rows);
      forall i | 0 <= i < |Accepted(init)|
        ensures RowParses(rows, i, parseTime, parseNumber) == RowParses(init, i, parseTime, parseNumber)
      {
      }
      if |last| == 6 {
        assert Accepted(rows)[|Accepted(init)|] == last;
        assert RowParses(rows, |Accepted(init)|, parseTime, parseNumber)
            == ParseRow(last, parseTime, parseNumber).Some?;
      }
    }
  }

  /** A successful read gives one reading per accepted row, in order, each the parse of
      its row. */
  lemma {:induction false} ReadRowsValues(rows: seq<seq<string>>, parseTime: string -> Option<DateTime>,
                                          parseNumber: string -> Option<real>)
    requires ReadRows(rows, parseTime, parseNumber).Some?
    ensures |ReadRows(rows, parseTime, parseNumber).value| == |Accepted(rows)|
    ensures forall i :: 0 <= i < |Accepted(rows)| ==>
      Some(ReadRows(rows, parseTime, parseNumber).value[i]) == ParseRow(Accepted(rows)[i], parseTime, parseNumber)
  {
    if |rows| > 0 {
      var init := rows[..|rows| - 1];
      ReadRowsValues(init, parseTime, parseNumber);
      AcceptedSnoc(rows);
    }
  }

  /** The accepted rows: those of all but the last line, then the last if it has six
      values. */
  lemma AcceptedSnoc(rows: seq<seq<string>>)
    requires |rows| > 0
    ensures var init := Accepted(rows[..|rows| - 1]);
      && |init| <= |Accepted(rows)| <= |init| + 1
      && (forall i :: 0 <= i < |init| ==> Accepted(rows)[i] == init[i])
      && (|Accepted(rows)| == |init| + 1 <==> |rows[|rows| - 1]| == 6)
      && (|rows[|rows| - 1]| == 6 ==> Accepted(rows)[|init|] == rows[|rows| - 1])
  {
  }

  /** Once a row fails to parse, reading more lines cannot recover. */
  lemma {:induction false} ReadRowsFailurePersists(rows: seq<seq<string>>, k: nat,
                                                   parseTime: string -> Option<DateTime>,
                                                   parseNumber: string -> Option<real>)
    requires k <= |rows| && ReadRows(rows[..k], parseTime, parseNumber).None?
    ensures ReadRows(rows, parseTime, parseNumber).None?
    decreases |rows|
  {
    if k < |rows| {
      var init := rows[..|rows| - 1];
      assert init[..k] == rows[..k];
      ReadRowsFailurePersists(init, k, parseTime, parseNumber);
    } else {
      assert rows[..k] == rows;
    }
  }

  /** Reading one more split line: one without six values adds nothing, a parsed row adds
      its reading, and a row that does not parse ends the read. */
  lemma ReadRowsSnoc(rows: seq<seq<string>>, values: seq<string>, parseTime: string -> Option<DateTime>,
                     parseNumber: string -> Option<real>)
    requires ReadRows(rows, parseTime, parseNumber).Some?
    ensures |values| != 6 ==> ReadRows(rows + [values], parseTime, parseNumber) == ReadRows(rows, parseTime, parseNumber)
    ensures |values| == 6 && ParseRow(values, parseTime, parseNumber).None? ==>
      ReadRows(rows + [values], parseTime, parseNumber).None?
    ensures |values| == 6 && ParseRow(values, parseTime, parseNumber).Some? ==>
      ReadRows(rows + [values], parseTime, parseNumber) ==
        Some(ReadRows(rows, parseTime, parseNumber).value + [ParseRow(values, parseTime, parseNumber).value])
  {
    assert (rows + [values])[..|rows|] == rows;
  }

  /** Whatever the first line holds, even a well-formed row, it is never read as data. */
  lemma HeaderNeverRead(header: string, lines: seq<string>, parseTime: string -> Option<DateTime>,
                        parseNumber: string -> Option<real>)
    ensures ReadCsv([header] + lines, parseTime, parseNumber) == ReadRows(SplitLines(lines), parseTime, parseNumber)
  {
    assert ([header] + lines)[1..] == lines;
  }

  /** Entry k of split is line k + 1 (the k-th data line) split at commas. */
  ghost predicate SplitAt(lines: seq<string>, split: seq<seq<string>>, k: nat) {
    k < |split| && k + 1 < |lines| && split[k] == Split(lines[k + 1])
  }

  /** split holds the data lines among the first i lines, split at commas. */
  ghost predicate SplitUpTo(lines: seq<string>, i: nat, split: seq<seq<string>>) {
    && i <= |lines|
    && |split| == (if i == 0 then 0 else i - 1)
    && forall k :: 0 <= k < |split| ==> SplitAt(lines, split, k)
  }

  /** The first i lines read as their split data lines. */
  lemma ReadSplitPrefix(lines: seq<string>, i: nat, split: seq<seq<string>>, parseTime: string -> Option<DateTime>,
                        parseNumber: string -> Option<real>)
    requires SplitUpTo(lines, i, split)
    ensures ReadCsv(lines[..i], parseTime, parseNumber) == ReadRows(split, parseTime, parseNumber)
  {
    var data := SplitLines(DataLines(lines[..i]));
    assert |data| == |split|;
    forall k | 0 <= k < |split|
      ensures data[k] == split[k]
    {
      assert SplitAt(lines, split, k);
    }
    assert data == split;
  }

  /** One more line split: the header adds nothing, a data line adds its split. */
  lemma SplitUpToStep(lines: seq<string>, i: nat, split: seq<seq<string>>)
    requires SplitUpTo(lines, i, split) && 0 < i < |lines|
    ensures SplitUpTo(lines, i + 1, split + [Split(lines[i])])
  {
    var longer := split + [Split(lines[i])];
    forall k | 0 <= k < |longer|
      ensures SplitAt(lines, longer, k)
    {
      if k < |split| {
        assert SplitAt(lines, split, k);
      }
    }
  }

  /** A row that fails to parse at line i makes the whole file unreadable. */
  lemma LoadFailure(lines: seq<string>, i: nat, split: seq<seq<string>>, parseTime: string -> Option<DateTime>,
                    parseNumber: string -> Option<real>)
    requires SplitUpTo(lines, i, split) && 0 < i < |lines|
    requires ReadRows(split, parseTime, parseNumber).Some?
    requires |Split(lines[i])| == 6 && ParseRow(Split(lines[i]), parseTime, parseNumber).None?
    ensures ReadCsv(lines, parseTime, parseNumber).None?
  {
    var longer := split + [Split(lines[i])];
    SplitUpToStep(lines, i, split);
    ReadRowsSnoc(split, Split(lines[i]), parseTime, parseNumber);
    ReadSplitPrefix(lines, i + 1, longer, parseTime, parseNumber);
    var data := SplitLines(DataLines(lines));
    assert data[..|longer|] == SplitLines(DataLines(lines[..i + 1]));
    ReadRowsFailurePersists(data, |longer|, parseTime, parseNumber);
  }

  /** What a row that fails to parse at line i leaves behind: the file does not read, line
      i holds a row, and the lines before it read as the readings so far. */
  lemma FailureAt(lines: seq<string>, i: nat, split: seq<seq<string>>, readings: seq<Reading>,
                  parseTime: string -> Option<DateTime>, parseNumber: string -> Option<real>)
    requires SplitUpTo(lines, i, split) && 0 < i < |lines|
    requires ReadRows(split, parseTime, parseNumber) == Some(readings)
    requires |Split(lines[i])| == 6 && ParseRow(Split(lines[i]), parseTime, parseNumber).None?
    ensures ReadCsv(lines, parseTime, parseNumber).None?
    ensures IsRow(lines[i]) && ReadCsv(lines[..i], parseTime, parseNumber) == Some(readings)
  {
    LoadFailure(lines, i, split, parseTime, parseNumber);
    ReadSplitPrefix(lines, i, split, parseTime, parseNumber);
  }

  /** A line written as comma-free values joined by commas is a row exactly when there
      are at least six values, the sixth is non-empty and every later one is empty: trailing
      empty values are dropped by `split`, and an empty sixth value leaves fewer than six.
      Six such values with a non-empty last one split back into exactly those values. */
  lemma JoinedRow(values: seq<string>)
    requires |values| >= 1
    requires forall j :: 0 <= j < |values| ==> ',' !in values[j]
    ensures IsRow(Join(values)) <==>
      |values| >= 6 && values[5] != "" && forall j :: 6 <= j < |values| ==> values[j] == ""
    ensures |values| == 6 && values[5] != "" ==> Split(Join(values)) == values
  {
    FieldsJoin(values);
    if |values| >= 2 {
      JoinHasComma(values);
      SplitCount(Join(values), 6);
      DropTrailingEmptyPrefix(Fields(Join(values)));
    }
  }

  /** Two or more values joined by commas hold a comma. */
  lemma JoinHasComma(values: seq<string>)
    requires |values| >= 2
    ensures ',' in Join(values)
  {
    var line := Join(values);
    assert line == values[0] + "," + Join(values[1..]);
    assert line[|values[0]|] == ',';
  }

  /** DC power sample by sample: voltage times current. There is one sample per voltage
      sample, and the power is positive exactly when voltage and current have the same
      strict sign. */
  function DcPower(voltage: seq<real>, current: seq<real>): (power: seq<real>)
    requires |voltage| <= |current|
    ensures |power| == |voltage|
    ensures forall i :: 0 <= i < |power| ==>
              (power[i] > 0.0 <==> (voltage[i] > 0.0 && current[i] > 0.0) || (voltage[i] < 0.0 && current[i] < 0.0))
  {
    seq(|voltage|, i requires 0 <= i < |voltage| => voltage[i] * current[i])
  }

  /** Efficiency in percent of a power p on a panel of the given area under irradiance g:
      the power per square metre over the irradiance, and 0 without irradiance. Under
      irradiance it gives the power back: efficiency / 100 times the irradiance times the
      area. */
  function EfficiencyOf(p: real, g: real, area: real): (e: real)
    requires area != 0.0
    ensures g > 0.0 ==> e / 100.0 * (g * area) == p
    ensures g <= 0.0 ==> e == 0.0
  {
    PowerRecovered(p, g, area);
    var powerPerArea := p / area;
    if g > 0.0 then (powerPerArea / g) * 100.0 else 0.0
  }

  /** Efficiency sample by sample: wherever there is irradiance, the efficiency gives the
      DC power back; everywhere else the efficiency is 0. */
  function Efficiency(power: seq<real>, irradiance: seq<real>, area: real): (eff: seq<real>)
    requires |power| <= |irradiance| && area != 0.0
    ensures |eff| == |power|
    ensures forall i :: 0 <= i < |power| && irradiance[i] > 0.0 ==>
              eff[i] / 100.0 * (irradiance[i] * area) == power[i]
    ensures forall i :: 0 <= i < |power| && irradiance[i] <= 0.0 ==> eff[i] == 0.0
  {
    seq(|power|, i requires 0 <= i < |power| => EfficiencyOf(power[i], irradiance[i], area))
  }

  /** The power per area over the irradiance, in percent, scaled back up gives the power. */
  lemma PowerRecovered(p: real, g: real, area: real)
    requires area != 0.0
    ensures g > 0.0 ==> ((p / area) / g) * 100.0 / 100.0 * (g * area) == p
  {
    if g > 0.0 {
      var q := p / area;
      assert (q / g) * 100.0 / 100.0 == q / g;
      assert q / g * (g * area) == q * area;
      assert q * area == p;
    }
  }

  /** On a panel of positive area under irradiance, the efficiency is between 0 and 100
      exactly when the power is between 0 and what the irradiance delivers on the area. */
  lemma EfficiencyPercent(p: real, g: real, area: real)
    requires area > 0.0 && g > 0.0
    ensures EfficiencyOf(p, g, area) >= 0.0 <==> p >= 0.0
    ensures EfficiencyOf(p, g, area) <= 100.0 <==> p <= g * area
  {
    var e := EfficiencyOf(p, g, area);
    PositiveScale(e / 100.0, g * area);
    assert p == e / 100.0 * (g * area);
    assert e / 100.0 <= 1.0 <==> e <= 100.0;
  }

  /** Multiplying by a positive factor keeps the sign and the order against 1. */
  lemma PositiveScale(x: real, k: real)
    requires k > 0.0
    ensures x * k >= 0.0 <==> x >= 0.0
    ensures x * k <= k <==> x <= 1.0
  {
    if x < 0.0 {
      assert x * k < 0.0;
    }
    if x > 1.0 {
      assert (x - 1.0) * k > 0.0;
    }
    if x <= 1.0 {
      assert (1.0 - x) * k >= 0.0;
    }
  }

  /** The measured quantities of a reading that are kept as numeric series. */
  datatype Quantity = Irradiance | PanelTemperature | Voltage | Current | LoadPower

  function Measure(r: Reading, q: Quantity): real {
    match q
    case Irradiance => r.irradiance
    case PanelTemperature => r.panelTemperature
    case Voltage => r.voltage
    case Current => r.current
    case LoadPower => r.loadPower
  }

  /** Value i of the series is quantity q of reading i. */
  ghost predicate SeriesHoldsAt(series: seq<real>, readings: seq<Reading>, q: Quantity, i: nat)
    requires i < |series| && i < |readings|
  {
    series[i] == Measure(readings[i], q)
  }

  /** The first n values of the series are quantity q of the first n readings. */
  ghost predicate SeriesHolds(series: seq<real>, readings: seq<Reading>, q: Quantity, n: nat) {
    n <= |series| && n <= |readings| && forall i :: 0 <= i < n ==> SeriesHoldsAt(series, readings, q, i)
  }

  /** Timestamp i of the series is that of reading i. */
  ghost predicate TimesHoldAt(series: seq<DateTime>, readings: seq<Reading>, i: nat)
    requires i < |series| && i < |readings|
  {
    series[i] == readings[i].time
  }

  /** The first n timestamps are those of the first n readings. */
  ghost predicate TimesHold(series: seq<DateTime>, readings: seq<Reading>, n: nat) {
    n <= |series| && n <= |readings| && forall i :: 0 <= i < n ==> TimesHoldAt(series, readings, i)
  }

  /** Appending to a series keeps what it held. */
  lemma SeriesGrow(series: seq<real>, readings: seq<Reading>, q: Quantity, x: real)
    requires SeriesHolds(series, readings, q, |readings|)
    ensures SeriesHolds(series + [x], readings, q, |readings|)
  {
    forall i | 0 <= i < |readings|
      ensures SeriesHoldsAt(series + [x], readings, q, i)
    {
      assert SeriesHoldsAt(series, readings, q, i);
    }
  }

  /** A series holding one value past the readings, quantity q of reading r, holds the
      readings followed by r. */
  lemma SeriesExtend(series: seq<real>, readings: seq<Reading>, q: Quantity, r: Reading)
    requires SeriesHolds(series, readings, q, |readings|)
    requires |series| == |readings| + 1 && series[|readings|] == Measure(r, q)
    ensures SeriesHolds(series, readings + [r], q, |readings| + 1)
  {
    forall i | 0 <= i < |readings| + 1
      ensures SeriesHoldsAt(series, readings + [r], q, i)
    {
      if i < |readings| {
        assert SeriesHoldsAt(series, readings, q, i);
      }
    }
  }

  lemma TimesGrow(series: seq<DateTime>, readings: seq<Reading>, x: DateTime)
    requires TimesHold(series, readings, |readings|)
    ensures TimesHold(series + [x], readings, |readings|)
  {
    forall i | 0 <= i < |readings|
      ensures TimesHoldAt(series + [x], readings, i)
    {
      assert TimesHoldAt(series, readings, i);
    }
  }

  lemma TimesExtend(series: seq<DateTime>, readings: seq<Reading>, r: Reading)
    requires TimesHold(series, readings, |readings|)
    requires |series| == |readings| + 1 && series[|readings|] == r.time
    ensures TimesHold(series, readings + [r], |readings| + 1)
  {
    forall i | 0 <= i < |readings| + 1
      ensures TimesHoldAt(series, readings + [r], i)
    {
      if i < |readings| {
        assert TimesHoldAt(series, readings, i);
      }
    }
  }

  /** The first n readings are in all six measurement series. */
  ghost predicate SeriesHold(readings: seq<Reading>, n: nat, timestamps: seq<DateTime>, irradiance: seq<real>,
                             panelTemperature: seq<real>, voltage: seq<real>, current: seq<real>, loadPower: seq<real>)
  {
    && TimesHold(timestamps, readings, n)
    && SeriesHolds(irradiance, readings, Irradiance, n)
    && SeriesHolds(panelTemperature, readings, PanelTemperature, n)
    && SeriesHolds(voltage, readings, Voltage, n)
    && SeriesHolds(current, readings, Current, n)
    && SeriesHolds(loadPower, readings, LoadPower, n)
  }

  /** The six measurement series hold exactly the readings. */
  ghost predicate SeriesLoaded(readings: seq<Reading>, timestamps: seq<DateTime>, irradiance: seq<real>,
                               panelTemperature: seq<real>, voltage: seq<real>, current: seq<real>, loadPower: seq<real>)
  {
    && |timestamps| == |readings| && |irradiance| == |readings| && |panelTemperature| == |readings|
    && |voltage| == |readings| && |current| == |readings| && |loadPower| == |readings|
    && SeriesHold(readings, |readings|, timestamps, irradiance, panelTemperature, voltage, current, loadPower)
  }

  /** Series s, holding n readings, holds at most one value more: the parse of the row's
      value for it. */
  ghost predicate ValueAppended(s: seq<real>, n: nat, parsed: Option<real>) {
    |s| > n ==> Some(s[n]) == parsed
  }

  /** The series after the six-value row `values` failed to parse part-way: they hold the
      readings before it, the series filled before the failing value hold one value more,
      the parse of their own column, and the first column not appended does not parse. */
  ghost predicate SeriesPartlyLoaded(readings: seq<Reading>, values: seq<string>, parseTime: string -> Option<DateTime>,
                                     parseNumber: string -> Option<real>, timestamps: seq<DateTime>, irradiance: seq<real>,
                                     panelTemperature: seq<real>, voltage: seq<real>, current: seq<real>, loadPower: seq<real>)
  {
    var n := |readings|;
    && |values| == 6
    && |loadPower| == n <= |current| <= |voltage| <= |panelTemperature|
    && |panelTemperature| <= |irradiance| <= |timestamps| <= n + 1
    && SeriesHold(readings, n, timestamps, irradiance, panelTemperature, voltage, current, loadPower)
    && (|timestamps| > n ==> Some(timestamps[n]) == ParseTime(values[0], parseTime))
    && ValueAppended(irradiance, n, ParseNumber(values[1], parseNumber))
    && ValueAppended(panelTemperature, n, ParseNumber(values[2], parseNumber))
    && ValueAppended(voltage, n, ParseNumber(values[3], parseNumber))
    && ValueAppended(current, n, ParseNumber(values[4], parseNumber))
    && (|timestamps| == n ==> ParseTime(values[0], parseTime).None?)
    && (|timestamps| > n && |irradiance| == n ==> ParseNumber(values[1], parseNumber).None?)
    && (|irradiance| > n && |panelTemperature| == n ==> ParseNumber(values[2], parseNumber).None?)
    && (|panelTemperature| > n && |voltage| == n ==> ParseNumber(values[3], parseNumber).None?)
    && (|voltage| > n && |current| == n ==> ParseNumber(values[4], parseNumber).None?)
    && (|current| > n ==> ParseNumber(values[5], parseNumber).None?)
  }

  /** One data row appended to the series: its six values are parsed and appended one
      series after the other; false as soon as a value does not parse, with the series
      filled so far. */
  method AppendRow(values: seq<string>, parseTime: string -> Option<DateTime>, parseNumber: string -> Option<real>,
                   ghost readings: seq<Reading>, timestamps: seq<DateTime>, irradiance: seq<real>,
                   panelTemperature: seq<real>, voltage: seq<real>, current: seq<real>, loadPower: seq<real>)
    returns (ok: bool, timestamps': seq<DateTime>, irradiance': seq<real>, panelTemperature': seq<real>,
             voltage': seq<real>, current': seq<real>, loadPower': seq<real>)
    requires |values| == 6
    requires SeriesLoaded(readings, timestamps, irradiance, panelTemperature, voltage, current, loadPower)
    ensures ok <==> ParseRow(values, parseTime, parseNumber).Some?
    ensures ok ==> SeriesLoaded(readings + [ParseRow(values, parseTime, parseNumber).value],
                                timestamps', irradiance', panelTemperature', voltage', current', loadPower')
    ensures !ok ==> SeriesPartlyLoaded(readings, values, parseTime, parseNumber, timestamps', irradiance', panelTemperature', voltage', current', loadPower')
  {
    timestamps', irradiance', panelTemperature' := timestamps, irradiance, panelTemperature;
    voltage', current', loadPower' := voltage, current, loadPower;
    var time := ParseTime(values[0], parseTime);
    if time.None? {
      return false, timestamps', irradiance', panelTemperature', voltage', current', loadPower';
    }
    TimesGrow(timestamps', readings, time.value);
    timestamps' := timestamps' + [time.value];
    var g := ParseNumber(values[1], parseNumber);
    if g.None? {
      return false, timestamps', irradiance', panelTemperature', voltage', current', loadPower';
    }
    SeriesGrow(irradiance', readings, Irradiance, g.value);
    irradiance' := irradiance' + [g.value];
    var temperature := ParseNumber(values[2], parseNumber);
    if temperature.None? {
      return false, timestamps', irradiance', panelTemperature', voltage', current', loadPower';
    }
    SeriesGrow(panelTemperature', readings, PanelTemperature, temperature.value);
    panelTemperature' := panelTemperature' + [temperature.value];
    var v := ParseNumber(values[3], parseNumber);
    if v.None? {
      return false, timestamps', irradiance', panelTemperature', voltage', current', loadPower';
    }
    SeriesGrow(voltage', readings, Voltage, v.value);
    voltage' := voltage' + [v.value];
    var c := ParseNumber(values[4], parseNumber);
    if c.None? {
      return false, timestamps', irradiance', panelTemperature', voltage', current', loadPower';
    }
    SeriesGrow(current', readings, Current, c.value);
    current' := current' + [c.value];
    var load := ParseNumber(values[5], parseNumber);
    if load.None? {
      return false, timestamps', irradiance', panelTemperature', voltage', current', loadPower';
    }
    SeriesGrow(loadPower', readings, LoadPower, load.value);
    loadPower' := loadPower' + [load.value];
    ghost var r := Reading(time.value, g.value, temperature.value, v.value, c.value, load.value);
    TimesExtend(timestamps', readings, r);
    SeriesExtend(irradiance', readings, Irradiance, r);
    SeriesExtend(panelTemperature', readings, PanelTemperature, r);
    SeriesExtend(voltage', readings, Voltage, r);
    SeriesExtend(current', readings, Current, r);
    SeriesExtend(loadPower', readings, LoadPower, r);
    ok := true;
  }

  /** The readings after one more split line that reads: a row adds its parsed values,
      any other line adds nothing. */
  ghost function NextReadings(readings: seq<Reading>, values: seq<string>, parseTime: string -> Option<DateTime>,
                              parseNumber: string -> Option<real>): seq<Reading>
  {
    if |values| == 6 && ParseRow(values, parseTime, parseNumber).Some?
    then readings + [ParseRow(values, parseTime, parseNumber).value]
    else readings
  }

  /** One pass of `loadDataFromCSV`'s loop over data line i: the line is split at commas
      and, when it has six values, they are appended to the series. It reports false when
      a value does not parse, with the series filled so far. */
  method ReadDataLine(lines: seq<string>, i: nat, parseTime: string -> Option<DateTime>,
                      parseNumber: string -> Option<real>, ghost split: seq<seq<string>>, ghost readings: seq<Reading>,
                      timestamps: seq<DateTime>, irradiance: seq<real>, panelTemperature: seq<real>,
                      voltage: seq<real>, current: seq<real>, loadPower: seq<real>)
    returns (ok: bool, timestamps': seq<DateTime>, irradiance': seq<real>, panelTemperature': seq<real>,
             voltage': seq<real>, current': seq<real>, loadPower': seq<real>)
    requires 0 < i < |lines| && SplitUpTo(lines, i, split)
    requires ReadRows(split, parseTime, parseNumber) == Some(readings)
    requires SeriesLoaded(readings, timestamps, irradiance, panelTemperature, voltage, current, loadPower)
    ensures ok ==>
      var readings' := NextReadings(readings, Split(lines[i]), parseTime, parseNumber);
      && SplitUpTo(lines, i + 1, split + [Split(lines[i])])
      && ReadRows(split + [Split(lines[i])], parseTime, parseNumber) == Some(readings')
      && SeriesLoaded(readings', timestamps', irradiance', panelTemperature', voltage', current', loadPower')
    ensures !ok ==>
      && IsRow(lines[i]) && ParseRow(Split(lines[i]), parseTime, parseNumber).None?
      && ReadCsv(lines, parseTime, parseNumber).None?
      && ReadCsv(lines[..i], parseTime, parseNumber) == Some(readings)
      && SeriesPartlyLoaded(readings, Split(lines[i]), parseTime, parseNumber, timestamps', irradiance', panelTemperature', voltage', current', loadPower')
  {
    var values := Split(lines[i]);
    SplitUpToStep(lines, i, split);
    ReadRowsSnoc(split, values, parseTime, parseNumber);
    if |values| == 6 {
      ok, timestamps', irradiance', panelTemperature', voltage', current', loadPower' :=
        AppendRow(values, parseTime, parseNumber, readings,
                  timestamps, irradiance, panelTemperature, voltage, current, loadPower);
      if !ok {
        FailureAt(lines, i, split, readings, parseTime, parseNumber);
      }
    } else {
      ok := true;
      timestamps', irradiance', panelTemperature' := timestamps, irradiance, panelTemperature;
      voltage', current', loadPower' := voltage, current, loadPower;
    }
  }

  /** `loadDataFromCSV`'s loop: reads the lines after the header; each line that splits
      into six values appends its parsed values to the six series. Parsing stops at the
      first value that does not parse, and the index of its line is returned with the
      series filled so far. */
  method ReadSeries(lines: seq<string>, parseTime: string -> Option<DateTime>, parseNumber: string -> Option<real>,
                    timestamps: seq<DateTime>, irradiance: seq<real>, panelTemperature: seq<real>,
                    voltage: seq<real>, current: seq<real>, loadPower: seq<real>)
    returns (failedLine: Option<nat>, timestamps': seq<DateTime>, irradiance': seq<real>, panelTemperature': seq<real>,
             voltage': seq<real>, current': seq<real>, loadPower': seq<real>)
    requires timestamps == [] && irradiance == [] && panelTemperature == []
    requires voltage == [] && current == [] && loadPower == []
    ensures failedLine.None? <==> ReadCsv(lines, parseTime, parseNumber).Some?
    ensures failedLine.None? ==>
      SeriesLoaded(ReadCsv(lines, parseTime, parseNumber).value,
                   timestamps', irradiance', panelTemperature', voltage', current', loadPower')
    ensures failedLine.Some? ==>
      var f := failedLine.value;
      && 0 < f < |lines| && IsRow(lines[f])
      && ParseRow(Split(lines[f]), parseTime, parseNumber).None?
      && ReadCsv(lines[..f], parseTime, parseNumber).Some?
      && SeriesPartlyLoaded(ReadCsv(lines[..f], parseTime, parseNumber).value, Split(lines[f]), parseTime, parseNumber,
                            timestamps', irradiance', panelTemperature', voltage', current', loadPower')
  {
    timestamps', irradiance', panelTemperature' := timestamps, irradiance, panelTemperature;
    voltage', current', loadPower' := voltage, current, loadPower;
    var headerSkipped := false;
    var i := 0;
    ghost var split: seq<seq<string>> := [];
    ghost var readings: seq<Reading> := [];
    while i < |lines|
      invariant 0 <= i <= |lines|
      invariant headerSkipped <==> i > 0
      invariant SplitUpTo(lines, i, split)
      invariant ReadRows(split, parseTime, parseNumber) == Some(readings)
      invariant SeriesLoaded(readings, timestamps', irradiance', panelTemperature', voltage', current', loadPower')
    {
      var line := lines[i];
      if !headerSkipped {
        headerSkipped := true;
        i := i + 1;
        continue;
      }
      var ok;
      ok, timestamps', irradiance', panelTemperature', voltage', current', loadPower' :=
        ReadDataLine(lines, i, parseTime, parseNumber, split, readings,
                     timestamps', irradiance', panelTemperature', voltage', current', loadPower');
      if !ok {
        failedLine := Some(i);
        return;
      }
      readings := NextReadings(readings, Split(line), parseTime, parseNumber);
      split := split + [Split(line)];
      i := i + 1;
    }
    ReadSplitPrefix(lines, i, split, parseTime, parseNumber);
    assert lines[..|lines|] == lines;
    failedLine := None;
  }

  class SolarPvAnalysis {
    var timestamps: seq<DateTime>
    var irradiance: seq<real>
    var panelTemperature: seq<real>
    var voltage: seq<real>
    var current: seq<real>
    var loadPower: seq<real>
    var dcPower: seq<real>
    var efficiency: seq<real>
    /** Panel area in square metres. */
    const panelAreaM2: real := 1.6

    /** The six measurement series hold exactly the readings. */
    ghost predicate Loaded(readings: seq<Reading>)
      reads this
    {
      SeriesLoaded(readings, timestamps, irradiance, panelTemperature, voltage, current, loadPower)
    }

    /** The series after the row `values` failed to parse part-way (see SeriesPartlyLoaded). */
    ghost predicate PartlyLoaded(readings: seq<Reading>, values: seq<string>, parseTime: string -> Option<DateTime>,
                                 parseNumber: string -> Option<real>)
      reads this
    {
      SeriesPartlyLoaded(readings, values, parseTime, parseNumber, timestamps, irradiance, panelTemperature, voltage, current, loadPower)
    }

    /** The analysis of a CSV file: load the series, then derive DC power and efficiency.
        It completes when every row parses; otherwise the parse error escapes it. */
    constructor (lines: seq<string>, parseTime: string -> Option<DateTime>, parseNumber: string -> Option<real>)
      requires ReadCsv(lines, parseTime, parseNumber).Some?
      ensures Loaded(ReadCsv(lines, parseTime, parseNumber).value)
      ensures dcPower == DcPower(voltage, current)
      ensures efficiency == Efficiency(dcPower, irradiance, panelAreaM2)
    {
      timestamps := [];
      irradiance := [];
      panelTemperature := [];
      voltage := [];
      current := [];
      loadPower := [];
      dcPower := [];
      efficiency := [];
      new;
      var failedLine := LoadDataFromCsv(lines, parseTime, parseNumber);
      ghost var readings := ReadCsv(lines, parseTime, parseNumber).value;
      assert Loaded(readings);
      assert |voltage| == |current| == |irradiance| == |readings|;
      CalculateDcPower();
      CalculateEfficiency();
    }

    /** Reads the lines after the header into the six series (see ReadSeries). Parsing
        stops at the first value that does not parse, and the index of its line is
        returned. */
    method LoadDataFromCsv(lines: seq<string>, parseTime: string -> Option<DateTime>,
                           parseNumber: string -> Option<real>) returns (failedLine: Option<nat>)
      requires timestamps == [] && irradiance == [] && panelTemperature == []
      requires voltage == [] && current == [] && loadPower == []
      modifies this
      ensures dcPower == old(dcPower) && efficiency == old(efficiency)
      ensures failedLine.None? <==> ReadCsv(lines, parseTime, parseNumber).Some?
      ensures failedLine.None? ==> Loaded(ReadCsv(lines, parseTime, parseNumber).value)
      ensures failedLine.Some? ==>
        var f := failedLine.value;
        && 0 < f < |lines| && IsRow(lines[f])
        && ParseRow(Split(lines[f]), parseTime, parseNumber).None?
        && ReadCsv(lines[..f], parseTime, parseNumber).Some?
        && PartlyLoaded(ReadCsv(lines[..f], parseTime, parseNumber).value, Split(lines[f]), parseTime, parseNumber)
    {
      failedLine, timestamps, irradiance, panelTemperature, voltage, current, loadPower :=
        ReadSeries(lines, parseTime, parseNumber, timestamps, irradiance, panelTemperature, voltage, current, loadPower);
    }

    /** `dcPower` gains voltage times current for every voltage sample. */
    method CalculateDcPower()
      requires |voltage| <= |current|
      modifies this
      ensures timestamps == old(timestamps) && irradiance == old(irradiance)
      ensures panelTemperature == old(panelTemperature) && voltage == old(voltage)
      ensures current == old(current) && loadPower == old(loadPower) && efficiency == old(efficiency)
      ensures dcPower == old(dcPower) + DcPower(voltage, current)
    {
      var i := 0;
      while i < |voltage|
        invariant timestamps == old(timestamps) && irradiance == old(irradiance)
        invariant panelTemperature == old(panelTemperature) && voltage == old(voltage)
        invariant current == old(current) && loadPower == old(loadPower) && efficiency == old(efficiency)
        invariant 0 <= i <= |voltage|
        invariant dcPower == old(dcPower) + DcPower(voltage[..i], current)
      {
        var v, c := voltage, current;
        DcPowerSnoc(v, c, i);
        dcPower := dcPower + [v[i] * c[i]];
        i := i + 1;
      }
      assert voltage[..|voltage|] == voltage;
    }

    /** `efficiency` gains, for every DC power sample, its efficiency under the irradiance
        of the same sample, or 0 when there is none. */
    method CalculateEfficiency()
      requires |dcPower| <= |irradiance|
      modifies this
      ensures timestamps == old(timestamps) && irradiance == old(irradiance)
      ensures panelTemperature == old(panelTemperature) && voltage == old(voltage)
      ensures current == old(current) && loadPower == old(loadPower) && dcPower == old(dcPower)
      ensures efficiency == old(efficiency) + Efficiency(dcPower, irradiance, panelAreaM2)
    {
      var i := 0;
      while i < |dcPower|
        invariant timestamps == old(timestamps) && irradiance == old(irradiance)
        invariant panelTemperature == old(panelTemperature) && voltage == old(voltage)
        invariant current == old(current) && loadPower == old(loadPower) && dcPower == old(dcPower)
        invariant 0 <= i <= |dcPower|
        invariant efficiency == old(efficiency) + Efficiency(dcPower[..i], irradiance, panelAreaM2)
      {
        var powerPerArea := dcPower[i] / panelAreaM2;
        var value: real;
        if irradiance[i] > 0.0 {
          value := (powerPerArea / irradiance[i]) * 100.0;
        } else {
          value := 0.0;
        }
        assert value == EfficiencyOf(dcPower[i], irradiance[i], panelAreaM2);
        EfficiencySnoc(dcPower, irradiance, panelAreaM2, i);
        efficiency := efficiency + [value];
        i := i + 1;
      }
      assert dcPower[..|dcPower|] == dcPower;
    }
  }

  lemma DcPowerSnoc(voltage: seq<real>, current: seq<real>, i: nat)
    requires i < |voltage| <= |current|
    ensures DcPower(voltage[..i + 1], current) == DcPower(voltage[..i], current) + [voltage[i] * current[i]]
  {
    var longer := DcPower(voltage[..i + 1], current);
    var extended := DcPower(voltage[..i], current) + [voltage[i] * current[i]];
    forall j | 0 <= j <= i
      ensures longer[j] == extended[j]
    {
      assert voltage[..i + 1][j] == voltage[j];
      if j < i {
        assert voltage[..i][j] == voltage[j];
      }
    }
  }

  lemma EfficiencySnoc(power: seq<real>, irradiance: seq<real>, area: real, i: nat)
    requires i < |power| <= |irradiance| && area != 0.0
    ensures Efficiency(power[..i + 1], irradiance, area)
      == Efficiency(power[..i], irradiance, area) + [EfficiencyOf(power[i], irradiance[i], area)]
  {
  }
}
