/**
 * The CSV export of renderer.js: the row `addPoint` records while saving is on,
 * and the text `stopCsvSaving` builds from the recorded rows (a fixed header line,
 * then one comma-separated line per row, each line ended by a newline).
 */
module Csv {
  import opened Values
  import opened Text

  /** `x.toFixed(1)` of a finite number is passed into the model as a function of this type. */
  type Fixed1 = real -> string

  /**
   * The fan speed recorded with a row: `parseInt` of the fan slider's value, or 0 when the
   * slider is absent. `None` stands for the `NaN` that `parseInt` gives for a non-numeric value.
   */
  type FanSpeed = Option<int>

  /** One recorded data point (renderer.js `dataRow`). */
  datatype CsvRow = CsvRow(
    time: Number,
    temps: seq<Sample>,
    heaterL: Sample,
    heaterR: Sample,
    power: Sample,
    target: Sample,
    fanSpeed: FanSpeed)

  /** The row `addPoint` records for a point: the temperatures are `values[0..8]`, then heaters, power and target. */
  function RowOf(time: Number, values: seq<Sample>, fanSpeed: FanSpeed): (r: CsvRow)
    requires |values| == 12
    ensures |r.temps| == 8
  {
    CsvRow(time, values[..8], values[8], values[9], values[10], values[11], fanSpeed)
  }

  /** The 14 column names of the header line. */
  const HeaderFields: seq<string> :=
    ["Time(s)", "T1", "T2", "T3", "T4", "T5", "T6", "T7", "T8", "HeaterL", "HeaterR", "Power", "Target", "FanSpeed"]

  /** The header line: `Time(s),T1,...,T8,HeaterL,HeaterR,Power,Target,FanSpeed`. */
  const Header: string := Join(HeaderFields, ',')

  /** `time.toFixed(1)`: the time is printed even when it is not finite. */
  function TimeText(t: Number, fixed1: Fixed1): string {
    if t.Num? then fixed1(t.x)
    else if t.NaN? then "NaN"
    else if t.negative then "-Infinity"
    else "Infinity"
  }

  /** A value cell: `toFixed(1)` of a finite number, and empty for anything else. */
  function Cell(v: Sample, fixed1: Fixed1): string {
    if IsFinite(v) then fixed1(v.x) else ""
  }

  /** `String(fanSpeed)` */
  function FanText(f: FanSpeed): string {
    if f.None? then "NaN" else IntToString(f.value)
  }

  /** The cells of a list of values, one per value. */
  function Cells(vs: seq<Sample>, fixed1: Fixed1): (cs: seq<string>)
    ensures |cs| == |vs|
    ensures forall j :: 0 <= j < |vs| ==> cs[j] == Cell(vs[j], fixed1)
    decreases |vs|
  {
    if vs == [] then [] else Cells(vs[..|vs| - 1], fixed1) + [Cell(vs[|vs| - 1], fixed1)]
  }

  /** The 14 fields of a row's line, in header order. */
  function Fields(r: CsvRow, fixed1: Fixed1): (fs: seq<string>)
    requires |r.temps| == 8
    ensures |fs| == |HeaderFields|
  {
    [TimeText(r.time, fixed1)] + Cells(r.temps, fixed1)
      + [Cell(r.heaterL, fixed1), Cell(r.heaterR, fixed1), Cell(r.power, fixed1), Cell(r.target, fixed1), FanText(r.fanSpeed)]
  }

  /** One exported line, without its newline: the fields joined by commas. */
  function RowText(r: CsvRow, fixed1: Fixed1): string
    requires |r.temps| == 8
  {
    Join(Fields(r, fixed1), ',')
  }

  /** A header line, then one line per row in collection order, each ended by a newline. */
  function Document(head: string, rows: seq<CsvRow>, fixed1: Fixed1): string
    requires forall k :: 0 <= k < |rows| ==> |rows[k].temps| == 8
    decreases |rows|
  {
    if rows == [] then head + "\n"
    else Document(head, rows[..|rows| - 1], fixed1) + RowText(rows[|rows| - 1], fixed1) + "\n"
  }

  /** The whole exported text. */
  function CsvText(rows: seq<CsvRow>, fixed1: Fixed1): string
    requires forall k :: 0 <= k < |rows| ==> |rows[k].temps| == 8
  {
    Document(Header, rows, fixed1)
  }

  /** The lines of the rows, without newlines. */
  function Lines(rows: seq<CsvRow>, fixed1: Fixed1): (ls: seq<string>)
    requires forall k :: 0 <= k < |rows| ==> |rows[k].temps| == 8
    ensures |ls| == |rows|
    ensures forall k :: 0 <= k < |rows| ==> ls[k] == RowText(rows[k], fixed1)
    decreases |rows|
  {
    if rows == [] then [] else Lines(rows[..|rows| - 1], fixed1) + [RowText(rows[|rows| - 1], fixed1)]
  }

  predicate NoSeparators(s: string) {
    ',' !in s && '\n' !in s
  }

  lemma {:induction false} JoinSnoc(xs: seq<string>, y: string, sep: char)
    requires |xs| >= 1
    ensures Join(xs + [y], sep) == Join(xs, sep) + [sep] + y
    decreases |xs|
  {
    if |xs| == 1 {
      assert xs + [y] == [xs[0], y];
      assert [y][1..] == [];
    } else {
      assert (xs + [y])[1..] == xs[1..] + [y];
      JoinSnoc(xs[1..], y, sep);
    }
  }

  /** The text is the header and the row lines joined by newlines, ended by one more newline. */
  lemma {:induction false} DocumentIsJoin(head: string, rows: seq<CsvRow>, fixed1: Fixed1)
    requires forall k :: 0 <= k < |rows| ==> |rows[k].temps| == 8
    ensures Document(head, rows, fixed1) == Join([head] + Lines(rows, fixed1), '\n') + "\n"
    decreases |rows|
  {
    if rows == [] {
      assert [head] + Lines(rows, fixed1) == [head];
    } else {
      var n := |rows|;
      var init := rows[..n - 1];
      var last := RowText(rows[n - 1], fixed1);
      DocumentIsJoin(head, init, fixed1);
      var front := [head] + Lines(init, fixed1);
      assert [head] + Lines(rows, fixed1) == front + [last];
      JoinSnoc(front, last, '\n');
    }
  }

  lemma IntToStringPlain(i: int)
    ensures NoSeparators(IntToString(i))
  {
    var d := NatToString(if i < 0 then -i else i, 10);
    assert forall k :: 0 <= k < |d| ==> d[k] != ',' && d[k] != '\n';
    if i < 0 {
      assert forall k :: 0 <= k < |IntToString(i)| ==> IntToString(i)[k] != ',' && IntToString(i)[k] != '\n' by {
        forall k | 0 <= k < |IntToString(i)|
          ensures IntToString(i)[k] != ',' && IntToString(i)[k] != '\n'
        {
          if k > 0 {
            assert IntToString(i)[k] == d[k - 1];
          }
        }
      }
    }
  }

  lemma FieldsPlain(r: CsvRow, fixed1: Fixed1)
    requires |r.temps| == 8
    requires forall x :: NoSeparators(fixed1(x))
    ensures forall j :: 0 <= j < |Fields(r, fixed1)| ==> NoSeparators(Fields(r, fixed1)[j])
  {
    if r.fanSpeed.Some? {
      IntToStringPlain(r.fanSpeed.value);
    }
  }

  lemma JoinPlain(fields: seq<string>)
    requires forall j :: 0 <= j < |fields| ==> NoSeparators(fields[j])
    ensures '\n' !in Join(fields, ',')
    decreases |fields|
  {
    if |fields| > 1 {
      JoinPlain(fields[1..]);
    }
  }

  /** The header splits into its 14 column names and holds no newline. */
  lemma HeaderColumns()
    ensures Split(Header, ',') == HeaderFields
    ensures '\n' !in Header
  {
    forall j | 0 <= j < |HeaderFields|
      ensures NoSeparators(HeaderFields[j])
    {
    }
    SplitJoin(HeaderFields, ',');
    JoinPlain(HeaderFields);
  }

  /** A row's line splits back into its 14 fields and holds no newline. */
  lemma RowReadsBack(r: CsvRow, fixed1: Fixed1)
    requires |r.temps| == 8
    requires forall x :: NoSeparators(fixed1(x))
    ensures Split(RowText(r, fixed1), ',') == Fields(r, fixed1)
    ensures '\n' !in RowText(r, fixed1)
  {
    FieldsPlain(r, fixed1);
    JoinPlain(Fields(r, fixed1));
    SplitJoin(Fields(r, fixed1), ',');
  }

  /**
   * Splitting the text at newlines gives the header, one line per row in collection order,
   * and an empty piece after the final newline; splitting a row's line at commas gives its
   * fields, as long as the number formatter never emits a comma or a newline.
   */
  lemma DocumentReadsBack(head: string, rows: seq<CsvRow>, fixed1: Fixed1)
    requires '\n' !in head
    requires forall k :: 0 <= k < |rows| ==> |rows[k].temps| == 8
    requires forall x :: NoSeparators(fixed1(x))
    ensures var lines := Split(Document(head, rows, fixed1), '\n');
      && |lines| == |rows| + 2
      && lines[0] == head
      && lines[|rows| + 1] == ""
      && forall k :: 0 <= k < |rows| ==>
           lines[k + 1] == RowText(rows[k], fixed1) && Split(lines[k + 1], ',') == Fields(rows[k], fixed1)
  {
    var ls := Lines(rows, fixed1);
    var all := [head] + ls + [""];
    forall i | 0 <= i < |all|
      ensures '\n' !in all[i]
    {
      if 1 <= i <= |rows| {
        RowReadsBack(rows[i - 1], fixed1);
      }
    }
    forall k | 0 <= k < |rows|
      ensures Split(ls[k], ',') == Fields(rows[k], fixed1)
    {
      RowReadsBack(rows[k], fixed1);
    }
    DocumentIsJoin(head, rows, fixed1);
    JoinSnoc([head] + ls, "", '\n');
    assert Document(head, rows, fixed1) == Join(all, '\n');
    SplitJoin(all, '\n');
  }

  /**
   * Reading the export back: the first line splits into the 14 column names, and every
   * recorded row comes back, in collection order, as one line of 14 fields.
   */
  lemma CsvReadsBack(rows: seq<CsvRow>, fixed1: Fixed1)
    requires forall k :: 0 <= k < |rows| ==> |rows[k].temps| == 8
    requires forall x :: NoSeparators(fixed1(x))
    ensures var lines := Split(CsvText(rows, fixed1), '\n');
      && |lines| == |rows| + 2
      && Split(lines[0], ',') == HeaderFields
      && lines[|rows| + 1] == ""
      && forall k :: 0 <= k < |rows| ==>
           lines[k + 1] == RowText(rows[k], fixed1) && Split(lines[k + 1], ',') == Fields(rows[k], fixed1)
  {
    HeaderColumns();
    DocumentReadsBack(Header, rows, fixed1);
  }

  /** Appending one more cell and its comma to a partly built line. */
  lemma ExtendRow(fields: seq<string>, row: string, cell: string)
    requires |fields| >= 1 && row == Join(fields, ',') + ","
    ensures row + cell + "," == Join(fields + [cell], ',') + ","
    ensures row + cell == Join(fields + [cell], ',')
  {
    JoinSnoc(fields, cell, ',');
  }

  /** The line `stopCsvSaving` builds for one recorded row, without its newline. */
  method BuildRow(data: CsvRow, fixed1: Fixed1) returns (row: string)
    requires |data.temps| == 8
    ensures row == RowText(data, fixed1)
  {
    row := TimeText(data.time, fixed1) + ",";
    ghost var fields := [TimeText(data.time, fixed1)];
    var j := 0;
    while j < 8
      invariant 0 <= j <= 8
      invariant fields == [TimeText(data.time, fixed1)] + Cells(data.temps[..j], fixed1)
      invariant row == Join(fields, ',') + ","
    {
      var cell := Cell(data.temps[j], fixed1);
      assert data.temps[..j + 1][..j] == data.temps[..j];
      ExtendRow(fields, row, cell);
      row := row + cell + ",";
      fields := fields + [cell];
      j := j + 1;
    }
    assert data.temps[..8] == data.temps;
    FieldsInOrder(data, fixed1, fields);
    var cell := Cell(data.heaterL, fixed1);
    ExtendRow(fields, row, cell);
    row, fields := row + cell + ",", fields + [cell];
    cell := Cell(data.heaterR, fixed1);
    ExtendRow(fields, row, cell);
    row, fields := row + cell + ",", fields + [cell];
    cell := Cell(data.power, fixed1);
    ExtendRow(fields, row, cell);
    row, fields := row + cell + ",", fields + [cell];
    cell := Cell(data.target, fixed1);
    ExtendRow(fields, row, cell);
    row, fields := row + cell + ",", fields + [cell];
    cell := FanText(data.fanSpeed);
    ExtendRow(fields, row, cell);
    row, fields := row + cell, fields + [cell];
  }

  /** The row's fields are the time and temperature cells followed by the five other cells, one by one. */
  lemma FieldsInOrder(r: CsvRow, fixed1: Fixed1, head: seq<string>)
    requires |r.temps| == 8 && head == [TimeText(r.time, fixed1)] + Cells(r.temps, fixed1)
    ensures head + [Cell(r.heaterL, fixed1)] + [Cell(r.heaterR, fixed1)] + [Cell(r.power, fixed1)]
      + [Cell(r.target, fixed1)] + [FanText(r.fanSpeed)] == Fields(r, fixed1)
  {
  }

  lemma DocumentStep(head: string, rows: seq<CsvRow>, i: nat, fixed1: Fixed1)
    requires i < |rows| && forall k :: 0 <= k < |rows| ==> |rows[k].temps| == 8
    ensures Document(head, rows[..i + 1], fixed1) == Document(head, rows[..i], fixed1) + RowText(rows[i], fixed1) + "\n"
  {
    assert rows[..i + 1][..i] == rows[..i];
  }

  /** The export loop of `stopCsvSaving`: the header line, then each recorded row's line. */
  method BuildCsv(rows: seq<CsvRow>, fixed1: Fixed1) returns (content: string)
    requires forall k :: 0 <= k < |rows| ==> |rows[k].temps| == 8
    ensures content == CsvText(rows, fixed1)
  {
    content := Header + "\n";
    var i := 0;
    while i < |rows|
      invariant 0 <= i <= |rows|
      invariant content == Document(Header, rows[..i], fixed1)
    {
      var row := BuildRow(rows[i], fixed1);
      DocumentStep(Header, rows, i, fixed1);
      content := content + row + "\n";
      i := i + 1;
    }
    assert rows[..|rows|] == rows;
  }
}
