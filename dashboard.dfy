/**
 * The state renderer.js keeps in module-level variables and changes from its event
 * handlers: the 50-point chart history (`chartData`), the CSV recording (`isSavingCsv`,
 * `csvData`), the packet counter, the connection flags and the heater mode buttons.
 */
module Renderer {
  import opened Values
  import opened Frame
  import opened History
  import opened Csv

  /** `maxPoints`: the number of points the chart history keeps. */
  const MaxPoints: nat := 50

  /** The chart series: eight temperatures, heater left, heater right, power, target. */
  const SeriesCount: nat := 12

  /** Index of the target-temperature series. */
  const TargetSeries: nat := 11

  /** The heater mode buttons of the control panel. */
  datatype HeaterButton = OffButton | LeftButton | RightButton

  /** The button `updateHeaterButtons` marks active for a mode, if any. */
  function ActiveButton(mode: int): (b: Option<HeaterButton>)
    ensures b == Some(OffButton) <==> mode == 0
    ensures b == Some(LeftButton) <==> mode == 1
    ensures b == Some(RightButton) <==> mode == 2
    ensures b.None? <==> mode !in {0, 1, 2}
  {
    if mode == 0 then Some(OffButton)
    else if mode == 1 then Some(LeftButton)
    else if mode == 2 then Some(RightButton)
    else None
  }

  /**
   * The target value pushed for the slider's text: `parseInt` gives an integer or
   * `None` for `NaN`; an absent slider also gives `NaN`.
   */
  function TargetSample(target: Option<int>): (v: Sample)
    ensures v.Num? <==> target.Some?
    ensures target.Some? ==> v.x == target.value as real
    ensures target.None? ==> v.NaN?
  {
    if target.Some? then Num(target.value as real) else NaN
  }

  class Dashboard {
    /** `chartData.time` */
    var time: seq<Number>
    /** `chartData.series`: one array per chart series, aligned with `time`. */
    var series: seq<seq<Sample>>
    /** `chartData.enabled` */
    var enabled: seq<bool>
    /** `isSavingCsv` */
    var savingCsv: bool
    /** `csvData` */
    var csvRows: seq<CsvRow>
    /** `packetCount` */
    var packetCount: nat
    /** `isConnected` */
    var connected: bool
    /** `connectBtn.disabled` */
    var connectDisabled: bool
    /** `heaterMode` */
    var heaterMode: int
    /** The `active` class of the Off, Left and Right heater buttons. */
    var offActive: bool
    var leftActive: bool
    var rightActive: bool

    /**
     * The history holds at most 50 points, every series is exactly as long as the time
     * array, and every recorded CSV row has eight temperatures.
     */
    predicate Valid()
      reads this
    {
      && |time| <= MaxPoints
      && |series| == SeriesCount
      && (forall i :: 0 <= i < |series| ==> |series[i]| == |time|)
      && |enabled| == SeriesCount
      && (forall k :: 0 <= k < |csvRows| ==> |csvRows[k].temps| == 8)
    }

    /**
     * The state when the page loads. The connect button's `disabled` flag and the heater
     * buttons' `active` classes keep what the page's markup gives them, passed in here.
     */
    constructor (connectDisabled0: bool, offActive0: bool, leftActive0: bool, rightActive0: bool)
      ensures Valid()
      ensures time == [] && series == seq(SeriesCount, _ => []) && enabled == seq(SeriesCount, _ => true)
      ensures !savingCsv && csvRows == [] && packetCount == 0 && !connected && heaterMode == 0
      ensures connectDisabled == connectDisabled0
      ensures offActive == offActive0 && leftActive == leftActive0 && rightActive == rightActive0
    {
      time := [];
      series := seq(SeriesCount, _ => []);
      enabled := seq(SeriesCount, _ => true);
      savingCsv := false;
      csvRows := [];
      packetCount := 0;
      connected := false;
      connectDisabled := connectDisabled0;
      heaterMode := 0;
      offActive, leftActive, rightActive := offActive0, leftActive0, rightActive0;
    }

    /**
     * `addPoint(timeSec, values)`: every array receives its new value last and, once the
     * window is over 50 points, loses its oldest one; while saving, one CSV row is recorded.
     */
    method AddPoint(timeSec: Number, values: seq<Sample>, fanSpeed: FanSpeed)
      requires Valid() && |values| == SeriesCount
      modifies this
      ensures Valid()
      ensures time == Slide(old(time), timeSec, MaxPoints)
      ensures |series| == SeriesCount
      ensures forall i :: 0 <= i < SeriesCount ==> series[i] == Slide(old(series[i]), values[i], MaxPoints)
      ensures csvRows == if savingCsv then old(csvRows) + [RowOf(timeSec, values, fanSpeed)] else old(csvRows)
      ensures unchanged(this`enabled, this`savingCsv, this`packetCount, this`connected, this`connectDisabled)
      ensures unchanged(this`heaterMode, this`offActive, this`leftActive, this`rightActive)
    {
      time := time + [timeSec];
      PushValues(values);
      if |time| > MaxPoints {
        time := time[1..];
        DropOldest();
      }
      forall i | 0 <= i < SeriesCount
        ensures series[i] == Slide(old(series[i]), values[i], MaxPoints)
      {
        assert |old(series[i]) + [values[i]]| == |time| + (if |old(time)| + 1 > MaxPoints then 1 else 0);
      }
      if savingCsv {
        csvRows := csvRows + [RowOf(timeSec, values, fanSpeed)];
      }
    }

    /** The push loop of `addPoint`: every series receives its new value last. */
    method PushValues(values: seq<Sample>)
      requires |series| == SeriesCount && |values| == SeriesCount
      modifies this`series
      ensures |series| == SeriesCount
      ensures forall k :: 0 <= k < SeriesCount ==> series[k] == old(series[k]) + [values[k]]
    {
      var i := 0;
      while i < SeriesCount
        invariant 0 <= i <= SeriesCount && |series| == SeriesCount
        invariant forall k :: 0 <= k < i ==> series[k] == old(series[k]) + [values[k]]
        invariant forall k :: i <= k < SeriesCount ==> series[k] == old(series[k])
      {
        series := series[i := series[i] + [values[i]]];
        i := i + 1;
      }
    }

    /** The shift loop of `addPoint`: every series loses its oldest value. */
    method DropOldest()
      requires |series| == SeriesCount && forall k :: 0 <= k < SeriesCount ==> |series[k]| > 0
      modifies this`series
      ensures |series| == SeriesCount
      ensures forall k :: 0 <= k < SeriesCount ==> series[k] == old(series[k])[1..]
    {
      var j := 0;
      while j < SeriesCount
        invariant 0 <= j <= SeriesCount && |series| == SeriesCount
        invariant forall k :: 0 <= k < j ==> series[k] == old(series[k])[1..]
        invariant forall k :: j <= k < SeriesCount ==> series[k] == old(series[k])
      {
        series := series[j := series[j][1..]];
        j := j + 1;
      }
    }

    /** The clear-data button: the time array and every series become empty. */
    method ClearData()
      requires Valid()
      modifies this`time, this`series
      ensures Valid()
      ensures time == [] && series == seq(SeriesCount, _ => [])
    {
      time := [];
      var i := 0;
      while i < SeriesCount
        invariant 0 <= i <= SeriesCount && |series| == SeriesCount
        invariant forall k :: 0 <= k < i ==> series[k] == []
        modifies this`series
      {
        series := series[i := []];
        i := i + 1;
      }
      assert series == seq(SeriesCount, _ => []);
    }

    /**
     * The heater-temperature slider's change handler: the target series becomes a flat
     * line at the new target, one point per time in the window; the other series stay.
     */
    method RebuildTarget(target: Option<int>)
      requires Valid()
      modifies this`series
      ensures Valid()
      ensures series == old(series)[TargetSeries := seq(|time|, _ => TargetSample(target))]
    {
      var t := TargetSample(target);
      var xCount := |time|;
      series := series[TargetSeries := []];
      assert seq(0, _ => t) == [];
      var i := 0;
      while i < xCount
        invariant 0 <= i <= xCount && |series| == SeriesCount
        invariant series == old(series)[TargetSeries := seq(i, _ => t)]
      {
        assert seq(i, _ => t) + [t] == seq(i + 1, _ => t);
        series := series[TargetSeries := series[TargetSeries] + [t]];
        i := i + 1;
      }
    }

    /**
     * `updateConnectionStatus(c)`: records the state; the connect button is disabled in both
     * cases. The page has no disconnect button (`disconnectBtn` is `null`), so its writes do nothing.
     */
    method UpdateConnectionStatus(c: bool)
      modifies this`connected, this`connectDisabled
      ensures connected == c && connectDisabled
    {
      connected := c;
      if c {
        connectDisabled := true;
      } else {
        connectDisabled := true;
      }
    }

    /**
     * `handleIncomingData(chunk)` followed by `parseAndDisplayData`: a valid chunk marks the
     * link connected, counts one packet and adds its twelve chart values at its time;
     * a rejected chunk changes nothing. `target` is the slider's parsed value and
     * `fanSpeed` the fan slider's, both read when the point is added.
     */
    method HandleIncomingData(chunk: seq<Byte>, float32: Float32Reader, target: Option<int>, fanSpeed: FanSpeed)
      returns (v: Verdict)
      requires Valid()
      modifies this
      ensures Valid()
      ensures v == Classify(chunk)
      ensures !v.Valid? ==> unchanged(this)
      ensures v.Valid? ==>
        var w := Decode(Payload(chunk));
        var values := ChartValues(w, float32, TargetSample(target));
        && connected && connectDisabled
        && packetCount == old(packetCount) + 1
        && time == Slide(old(time), float32(w.time), MaxPoints)
        && |series| == SeriesCount
        && (forall i :: 0 <= i < SeriesCount ==> series[i] == Slide(old(series[i]), values[i], MaxPoints))
        && csvRows == (if old(savingCsv) then old(csvRows) + [RowOf(float32(w.time), values, fanSpeed)] else old(csvRows))
        && unchanged(this`enabled, this`savingCsv, this`heaterMode, this`offActive, this`leftActive, this`rightActive)
    {
      v := Classify(chunk);
      if v.Valid? {
        UpdateConnectionStatus(true);
        packetCount := packetCount + 1;
        var w := Decode(Payload(chunk));
        var values := ChartValues(w, float32, TargetSample(target));
        AddPoint(float32(w.time), values, fanSpeed);
      }
    }

    /** `clearLog()`: the packet counter starts again from zero. */
    method ClearLog()
      modifies this`packetCount
      ensures packetCount == 0
    {
      packetCount := 0;
    }

    /**
     * `setHeaterMode(mode)` with `updateHeaterButtons()`: exactly the button of the new
     * mode is marked active, or none for a mode without a button.
     */
    method SetHeaterMode(mode: int)
      modifies this`heaterMode, this`offActive, this`leftActive, this`rightActive
      ensures heaterMode == mode
      ensures offActive == (ActiveButton(mode) == Some(OffButton))
      ensures leftActive == (ActiveButton(mode) == Some(LeftButton))
      ensures rightActive == (ActiveButton(mode) == Some(RightButton))
    {
      heaterMode := mode;
      offActive, leftActive, rightActive := false, false, false;
      if heaterMode == 0 {
        offActive := true;
      } else if heaterMode == 1 {
        leftActive := true;
      } else if heaterMode == 2 {
        rightActive := true;
      }
    }

    /**
     * `startCsvSaving()`: once a save location is chosen (always, in the browser), recording
     * starts over with no rows; a cancelled dialog changes nothing.
     */
    method StartCsvSaving(confirmed: bool)
      requires Valid()
      modifies this`savingCsv, this`csvRows
      ensures Valid()
      ensures confirmed ==> savingCsv && csvRows == []
      ensures !confirmed ==> savingCsv == old(savingCsv) && csvRows == old(csvRows)
    {
      if confirmed {
        savingCsv := true;
        csvRows := [];
      }
    }

    /**
     * `stopCsvSaving()`: recording stops; with no recorded rows nothing is exported,
     * otherwise the export text of the recorded rows is produced. The rows are kept.
     */
    method StopCsvSaving(fixed1: Fixed1) returns (content: Option<string>)
      requires Valid()
      modifies this`savingCsv
      ensures !savingCsv
      ensures content.None? <==> csvRows == []
      ensures content.Some? ==> content.value == CsvText(csvRows, fixed1)
    {
      savingCsv := false;
      if |csvRows| == 0 {
        return None;
      }
      var text := BuildCsv(csvRows, fixed1);
      content := Some(text);
    }
  }
}
