/**
 * The pop-out live chart of chart-page.js: twelve Chart.js datasets copied from the
 * dashboard's series (newest 100 points), the automatic scaling of the temperature
 * axis `y` and the power axis `y1` over the visible datasets, and the legend click
 * that hides or shows a dataset.
 */
module ChartPage {
  import opened Values
  import opened JsMath
  import opened History

  /** `maxPoints` of the chart page. */
  const PagePoints: nat := 100

  const DatasetCount: nat := 12

  /** The only dataset on the power axis (`yAxisID: 'y1'`). */
  const PowerDataset: nat := 11

  /**
   * The dashboard series a dataset is copied from: datasets 0-9 from series 0-9, the
   * target dataset 10 from series 11, and the power dataset 11 from series 10.
   */
  function SourceSeries(d: nat): (s: nat)
    requires d < DatasetCount
    ensures s < DatasetCount
  {
    if d < 10 then d else if d == 10 then 11 else 10
  }

  /** The remapping is its own inverse, so every series feeds exactly one dataset. */
  lemma SourceSeriesInvolution(d: nat)
    requires d < DatasetCount
    ensures SourceSeries(SourceSeries(d)) == d
    ensures forall e :: 0 <= e < DatasetCount && SourceSeries(e) == SourceSeries(d) ==> e == d
  {
  }

  /**
   * A dataset after `updateChartWithData`: the newest 100 entries of its source series when
   * that series is present, and unchanged otherwise.
   */
  function Refreshed(current: seq<Sample>, series: seq<seq<Sample>>, d: nat): (r: seq<Sample>)
    requires d < DatasetCount
    ensures SourceSeries(d) >= |series| ==> r == current
    ensures SourceSeries(d) < |series| ==>
      var src := series[SourceSeries(d)];
      && |r| <= PagePoints && |r| <= |src|
      && r == src[|src| - |r|..]
      && (|r| == PagePoints || r == src)
  {
    var s := SourceSeries(d);
    if s < |series| then LastN(series[s], PagePoints) else current
  }

  // ---------------------------------------------------------------------------
  // Which points count for an axis

  /** A dataset counts for scaling unless `meta.hidden` is `true` or `dataset.hidden` is set. */
  predicate Visible(metaHidden: Option<bool>, datasetHidden: bool) {
    metaHidden != Some(true) && !datasetHidden
  }

  /** The points of a dataset that are neither `null` nor `NaN`, in order. */
  function Contributing(s: seq<Sample>): (pts: seq<Number>)
    ensures NoNaN(pts)
    decreases |s|
  {
    if s == [] then []
    else
      var v := s[|s| - 1];
      Contributing(s[..|s| - 1]) + (if v.Null? || v.NaN? then [] else [v])
  }

  /** The contributing points are exactly the points of the dataset that are neither `null` nor `NaN`. */
  lemma {:induction false} ContributingMembers(s: seq<Sample>)
    ensures forall v :: v in Contributing(s) <==> v in s && !v.NaN?
    decreases |s|
  {
    if s != [] {
      var init := s[..|s| - 1];
      ContributingMembers(init);
      assert s == init + [s[|s| - 1]];
    }
  }

  /** The points collected for one axis from the first `n` datasets, in dataset order. */
  function AxisPoints(data: seq<seq<Sample>>, metaHidden: seq<Option<bool>>, datasetHidden: seq<bool>, n: nat, power: bool): (pts: seq<Number>)
    requires n <= |data| && n <= |metaHidden| && n <= |datasetHidden|
    ensures NoNaN(pts)
    decreases n
  {
    if n == 0 then []
    else
      var d := n - 1;
      AxisPoints(data, metaHidden, datasetHidden, d, power)
        + (if Visible(metaHidden[d], datasetHidden[d]) && (d == PowerDataset) == power then Contributing(data[d]) else [])
  }

  /** A collected point comes from a visible dataset of that axis. */
  lemma {:induction false} AxisPointsFromVisible(data: seq<seq<Sample>>, metaHidden: seq<Option<bool>>, datasetHidden: seq<bool>, n: nat, power: bool, v: Number)
    requires n <= |data| && n <= |metaHidden| && n <= |datasetHidden|
    requires v in AxisPoints(data, metaHidden, datasetHidden, n, power)
    ensures exists d :: 0 <= d < n && Visible(metaHidden[d], datasetHidden[d]) && (d == PowerDataset) == power && v in data[d]
    decreases n
  {
    var d := n - 1;
    if v !in AxisPoints(data, metaHidden, datasetHidden, d, power) {
      ContributingMembers(data[d]);
      assert v in data[d];
    } else {
      AxisPointsFromVisible(data, metaHidden, datasetHidden, d, power, v);
    }
  }

  /** Conversely, every number of a visible dataset on the axis, other than `NaN`, is collected. */
  lemma VisibleValuesCollected(data: seq<seq<Sample>>, metaHidden: seq<Option<bool>>, datasetHidden: seq<bool>, n: nat, power: bool, d: nat, v: Number)
    requires n <= |data| && n <= |metaHidden| && n <= |datasetHidden|
    requires d < n && Visible(metaHidden[d], datasetHidden[d]) && (d == PowerDataset) == power
    requires v in data[d] && !v.NaN?
    ensures v in AxisPoints(data, metaHidden, datasetHidden, n, power)
  {
    ContributingHas(data[d], v);
    AxisPointsStep(data, metaHidden, datasetHidden, d, power);
    InAppend(AxisPoints(data, metaHidden, datasetHidden, d, power), Contributing(data[d]), v);
    AxisPointsGrow(data, metaHidden, datasetHidden, n, d + 1, power, v);
  }

  /** A point collected from the first `m` datasets stays collected as more datasets are read. */
  lemma AxisPointsGrow(data: seq<seq<Sample>>, metaHidden: seq<Option<bool>>, datasetHidden: seq<bool>, n: nat, m: nat, power: bool, v: Number)
    requires m <= n <= |data| && n <= |metaHidden| && n <= |datasetHidden|
    requires v in AxisPoints(data, metaHidden, datasetHidden, m, power)
    ensures v in AxisPoints(data, metaHidden, datasetHidden, n, power)
  {
    var a, b := AxisPoints(data, metaHidden, datasetHidden, m, power), AxisPoints(data, metaHidden, datasetHidden, n, power);
    AxisPointsPrefix(data, metaHidden, datasetHidden, n, m, power);
    var j :| 0 <= j < |a| && a[j] == v;
    assert b[j] == v;
  }

  /** Reading more datasets only appends to the collected points. */
  lemma {:induction false} AxisPointsPrefix(data: seq<seq<Sample>>, metaHidden: seq<Option<bool>>, datasetHidden: seq<bool>, n: nat, m: nat, power: bool)
    requires m <= n <= |data| && n <= |metaHidden| && n <= |datasetHidden|
    ensures var a, b := AxisPoints(data, metaHidden, datasetHidden, m, power), AxisPoints(data, metaHidden, datasetHidden, n, power);
      |a| <= |b| && forall j :: 0 <= j < |a| ==> b[j] == a[j]
    decreases n
  {
    if m < n {
      var k := n - 1;
      AxisPointsPrefix(data, metaHidden, datasetHidden, k, m, power);
      AxisPointsStep(data, metaHidden, datasetHidden, k, power);
      assert k + 1 == n;
    }
  }

  lemma ContributingHas(s: seq<Sample>, v: Number)
    requires v in s && !v.NaN?
    ensures v in Contributing(s)
  {
    ContributingMembers(s);
  }

  lemma InAppend<T>(a: seq<T>, b: seq<T>, v: T)
    ensures v in a ==> v in a + b
    ensures v in b ==> v in a + b
  {
    if v in b {
      var j :| 0 <= j < |b| && b[j] == v;
      assert (a + b)[|a| + j] == v;
    }
  }

  // ---------------------------------------------------------------------------
  // Axis bounds

  datatype Bounds = Bounds(min: Number, max: Number)

  /** `Math.max(range * 0.15, 5)` */
  function Padding(lo: Number, hi: Number): Number {
    Max(Scale(Sub(hi, lo), 0.15), Num(5.0))
  }

  /** `newMax - newMin < 10` */
  predicate TooNarrow(b: Bounds) {
    Lt(Sub(b.max, b.min), Num(10.0))
  }

  /** `(newMin + newMax) / 2` */
  function Center(b: Bounds): Number {
    Scale(Add(b.min, b.max), 0.5)
  }

  /** The temperature bounds before the re-centring check. */
  function TempPadded(lo: Number, hi: Number): Bounds {
    var p := Padding(lo, hi);
    Bounds(Sub(lo, p), Add(hi, p))
  }

  /** The temperature axis bounds `autoScaleYAxis` sets for the smallest and largest value. */
  function TempScale(lo: Number, hi: Number): Bounds {
    var b := TempPadded(lo, hi);
    if TooNarrow(b) then Bounds(Sub(Center(b), Num(5.0)), Add(Center(b), Num(5.0))) else b
  }

  /** The power bounds before the re-centring check: the minimum is clamped at 0. */
  function PowerPadded(lo: Number, hi: Number): Bounds {
    var p := Padding(lo, hi);
    Bounds(Max(Sub(lo, p), Num(0.0)), Add(hi, p))
  }

  /** The power axis bounds `autoScaleYAxis` sets for the smallest and largest value. */
  function PowerScale(lo: Number, hi: Number): Bounds {
    var b := PowerPadded(lo, hi);
    if TooNarrow(b) then Bounds(Max(Sub(Center(b), Num(5.0)), Num(0.0)), Add(Center(b), Num(5.0))) else b
  }

  /** `max(0.15 * (hi - lo), 5)` over reals. */
  function PadOf(lo: real, hi: real): real {
    if (hi - lo) * 0.15 > 5.0 then (hi - lo) * 0.15 else 5.0
  }

  /**
   * For finite temperatures the axis is widened by `max(15% of the range, 5)` on each side,
   * so it is at least 10 wide and the re-centring branch does not fire.
   */
  lemma TempScaleFinite(lo: real, hi: real)
    requires lo <= hi
    ensures !TooNarrow(TempPadded(Num(lo), Num(hi)))
    ensures TempScale(Num(lo), Num(hi)) == Bounds(Num(lo - PadOf(lo, hi)), Num(hi + PadOf(lo, hi)))
    ensures (hi + PadOf(lo, hi)) - (lo - PadOf(lo, hi)) >= 10.0
  {
    assert Padding(Num(lo), Num(hi)) == Num(PadOf(lo, hi));
  }

  /**
   * With an infinite extreme the padding is infinite too: the axis spans everything, or is
   * `NaN` at both ends when every value is the same infinity. Re-centring does not fire.
   */
  lemma TempScaleInfinite(lo: Number, hi: Number)
    requires !lo.NaN? && !hi.NaN? && Le(lo, hi) && (lo.Inf? || hi.Inf?)
    ensures !TooNarrow(TempPadded(lo, hi))
    ensures TempScale(lo, hi) == if lo == hi then Bounds(NaN, NaN) else Bounds(Inf(true), Inf(false))
  {
  }

  /** Whatever the temperatures, the re-centring branch never fires. */
  lemma TempNeverRecentres(lo: Number, hi: Number)
    requires !lo.NaN? && !hi.NaN? && Le(lo, hi)
    ensures TempScale(lo, hi) == TempPadded(lo, hi)
  {
    if lo.Num? && hi.Num? {
      TempScaleFinite(lo.x, hi.x);
    } else {
      TempScaleInfinite(lo, hi);
    }
  }

  /**
   * For finite power values the minimum is `max(lo - pad, 0)`; re-centring fires exactly when
   * that clamp is hit and the padded maximum is below 10, and it then moves the maximum up
   * to `(hi + pad) / 2 + 5`, which is above the padded maximum.
   */
  lemma PowerScaleFinite(lo: real, hi: real)
    requires lo <= hi
    ensures var p := PadOf(lo, hi);
      var b := PowerScale(Num(lo), Num(hi));
      && (TooNarrow(PowerPadded(Num(lo), Num(hi))) <==> lo - p < 0.0 && hi + p < 10.0)
      && b.min == Num(if lo - p > 0.0 then lo - p else 0.0)
      && b.max == Num(if lo - p < 0.0 && hi + p < 10.0 then (hi + p) / 2.0 + 5.0 else hi + p)
      && b.max.x >= hi + p
  {
    var p := PadOf(lo, hi);
    PowerPaddedFinite(lo, hi);
    var b := PowerPadded(Num(lo), Num(hi));
    if lo - p < 0.0 && hi + p < 10.0 {
      RecentredPower(hi + p);
      assert PowerScale(Num(lo), Num(hi)) == Bounds(Num(0.0), Num((hi + p) / 2.0 + 5.0));
    } else {
      assert PowerScale(Num(lo), Num(hi)) == b;
    }
  }

  /** The padded power bounds for finite values. */
  lemma PowerPaddedFinite(lo: real, hi: real)
    requires lo <= hi
    ensures var p := PadOf(lo, hi);
      var b := PowerPadded(Num(lo), Num(hi));
      && b == Bounds(Num(if lo - p > 0.0 then lo - p else 0.0), Num(hi + p))
      && (TooNarrow(b) <==> lo - p < 0.0 && hi + p < 10.0)
  {
    var p := PadOf(lo, hi);
    assert Padding(Num(lo), Num(hi)) == Num(p);
  }

  /** Re-centring `[0, top]` with `top < 10`: the axis becomes `[0, top / 2 + 5]`. */
  lemma RecentredPower(top: real)
    requires top < 10.0
    ensures var b := Bounds(Num(0.0), Num(top));
      Bounds(Max(Sub(Center(b), Num(5.0)), Num(0.0)), Add(Center(b), Num(5.0))) == Bounds(Num(0.0), Num(top / 2.0 + 5.0))
  {
    var b := Bounds(Num(0.0), Num(top));
    assert Center(b) == Num(top * 0.5);
  }

  /** With an infinite extreme the power axis starts at 0 and is unbounded above, or is `NaN`. */
  lemma PowerScaleInfinite(lo: Number, hi: Number)
    requires !lo.NaN? && !hi.NaN? && Le(lo, hi) && (lo.Inf? || hi.Inf?)
    ensures !TooNarrow(PowerPadded(lo, hi))
    ensures PowerScale(lo, hi) == if lo == hi then Bounds(NaN, NaN) else Bounds(Num(0.0), Inf(false))
  {
  }

  /** The power axis minimum is never below 0. */
  lemma PowerMinNonNegative(lo: Number, hi: Number)
    requires !lo.NaN? && !hi.NaN? && Le(lo, hi)
    ensures var b := PowerScale(lo, hi);
      b.min.NaN? || (b.min.Num? && b.min.x >= 0.0)
  {
    if lo.Num? && hi.Num? {
      PowerScaleFinite(lo.x, hi.x);
    } else {
      PowerScaleInfinite(lo, hi);
    }
  }

  /**
   * Scaling over the collected temperatures: unless every value is the same infinity (which
   * gives `NaN` bounds) the new axis holds every one of them.
   */
  lemma TempAxisHoldsValues(vs: seq<Number>)
    requires vs != [] && NoNaN(vs)
    ensures var b := TempScale(MinAll(vs), MaxAll(vs));
      !b.min.NaN? ==> !b.max.NaN? && forall v :: v in vs ==> Le(b.min, v) && Le(v, b.max)
  {
    var lo, hi := MinAll(vs), MaxAll(vs);
    MinAllIsLeast(vs);
    MaxAllIsGreatest(vs);
    LeTrans(lo, vs[0], hi);
    TempNeverRecentres(lo, hi);
    if lo.Num? && hi.Num? {
      TempScaleFinite(lo.x, hi.x);
    } else {
      TempScaleInfinite(lo, hi);
    }
  }

  /** Scaling over the collected power values: unless the bounds are `NaN`, the new maximum is above every value. */
  lemma PowerAxisAboveValues(vs: seq<Number>)
    requires vs != [] && NoNaN(vs)
    ensures var b := PowerScale(MinAll(vs), MaxAll(vs));
      !b.max.NaN? ==> forall v :: v in vs ==> Le(v, b.max)
  {
    var lo, hi := MinAll(vs), MaxAll(vs);
    MinAllIsLeast(vs);
    MaxAllIsGreatest(vs);
    LeTrans(lo, vs[0], hi);
    if lo.Num? && hi.Num? {
      PowerScaleFinite(lo.x, hi.x);
    } else {
      PowerScaleInfinite(lo, hi);
    }
  }

  /** An axis's `min` and `max` options; `None` while unset. */
  datatype Axis = Axis(min: Option<Number>, max: Option<Number>)

  /** The axis after scaling over `pts`: unchanged when no value counts. */
  function Rescaled(current: Axis, pts: seq<Number>, power: bool): (a: Axis)
    ensures pts == [] ==> a == current
    ensures pts != [] ==> a.min.Some? && a.max.Some?
  {
    if pts == [] then current
    else
      var b := if power then PowerScale(MinAll(pts), MaxAll(pts)) else TempScale(MinAll(pts), MaxAll(pts));
      Axis(Some(b.min), Some(b.max))
  }

  // ---------------------------------------------------------------------------
  // The legend

  /** The legend click: `meta.hidden` becomes `!dataset.hidden` when it was `null`, and `null` otherwise. */
  function Toggled(metaHidden: Option<bool>, datasetHidden: bool): (m: Option<bool>)
    ensures m.None? <==> metaHidden.Some?
  {
    if metaHidden.None? then Some(!datasetHidden) else None
  }

  /**
   * A click on a dataset that is not hidden by its own options flips whether it counts for
   * scaling, and a second click restores the legend state.
   */
  lemma ToggleFlips(metaHidden: Option<bool>, datasetHidden: bool)
    requires metaHidden != Some(datasetHidden)
    ensures Toggled(Toggled(metaHidden, datasetHidden), datasetHidden) == metaHidden
    ensures !datasetHidden ==>
      Visible(Toggled(metaHidden, datasetHidden), datasetHidden) == !Visible(metaHidden, datasetHidden)
  {
    if metaHidden.Some? {
      assert metaHidden.value != datasetHidden;
      assert metaHidden == Some(!datasetHidden);
    }
  }

  class LiveChart {
    /** `chart.data.labels` */
    var labels: seq<Number>
    /** `chart.data.datasets[d].data` */
    var data: seq<seq<Sample>>
    /** `chart.data.datasets[d].hidden` */
    var datasetHidden: seq<bool>
    /** `chart.getDatasetMeta(d).hidden`: `None` for `null`. */
    var metaHidden: seq<Option<bool>>
    /** `chart.options.scales.y` */
    var y: Axis
    /** `chart.options.scales.y1` */
    var y1: Axis

    /**
     * Twelve datasets, each with its legend state; a dataset not hidden by its own options
     * never has `meta.hidden == false` (the legend only ever sets `!dataset.hidden` or `null`).
     */
    predicate Valid()
      reads this`data, this`datasetHidden, this`metaHidden
    {
      && |data| == DatasetCount && |datasetHidden| == DatasetCount && |metaHidden| == DatasetCount
      && forall d :: 0 <= d < DatasetCount && !datasetHidden[d] ==> metaHidden[d] != Some(false)
    }

    /** The points of the visible datasets of one axis, as `autoScaleYAxis` collects them. */
    function Points(power: bool): seq<Number>
      requires Valid()
      reads this`data, this`datasetHidden, this`metaHidden
    {
      AxisPoints(data, metaHidden, datasetHidden, |data|, power)
    }

    /** The chart as `init` creates it: empty datasets, temperature axis 0 to 50, power axis unset. */
    constructor ()
      ensures Valid()
      ensures labels == [] && data == seq(DatasetCount, _ => [])
      ensures datasetHidden == seq(DatasetCount, _ => false) && metaHidden == seq(DatasetCount, _ => None)
      ensures y == Axis(Some(Num(0.0)), Some(Num(50.0))) && y1 == Axis(None, None)
    {
      labels := [];
      data := seq(DatasetCount, _ => []);
      datasetHidden := seq(DatasetCount, _ => false);
      metaHidden := seq(DatasetCount, _ => None);
      y := Axis(Some(Num(0.0)), Some(Num(50.0)));
      y1 := Axis(None, None);
    }

    /**
     * `autoScaleYAxis()`: collects the non-null, non-NaN points of the visible datasets per
     * axis, then rescales each axis that received at least one point.
     */
    method AutoScaleYAxis()
      requires Valid()
      modifies this`y, this`y1
      ensures y == Rescaled(old(y), Points(false), false)
      ensures y1 == Rescaled(old(y1), Points(true), true)
    {
      var tempValues, powerValues, visibleTempDatasets, visiblePowerDatasets := CollectAxes(data, metaHidden, datasetHidden);
      y := ScaleAxis(y, tempValues, visibleTempDatasets, false);
      y1 := ScaleAxis(y1, powerValues, visiblePowerDatasets, true);
    }

    /**
     * `updateChartWithData(data)`: the labels and every dataset whose series is present become
     * the newest 100 entries of their source, then the axes are rescaled. Series 0-7 must be
     * present; a missing series 8-11 leaves its dataset as it was.
     */
    method UpdateChartWithData(time: seq<Number>, series: seq<seq<Sample>>)
      requires Valid() && |series| >= 8
      modifies this`labels, this`data, this`y, this`y1
      ensures Valid()
      ensures labels == LastN(time, PagePoints)
      ensures |data| == DatasetCount
      ensures forall d :: 0 <= d < DatasetCount ==> data[d] == Refreshed(old(data[d]), series, d)
      ensures y == Rescaled(old(y), Points(false), false)
      ensures y1 == Rescaled(old(y1), Points(true), true)
    {
      labels := LastN(time, PagePoints);
      CopySeries(series);
      AutoScaleYAxis();
    }

    /** The dataset copies of `updateChartWithData`, in the order the source makes them. */
    method CopySeries(series: seq<seq<Sample>>)
      requires Valid() && |series| >= 8
      modifies this`data
      ensures Valid()
      ensures |data| == DatasetCount
      ensures forall d :: 0 <= d < DatasetCount ==> data[d] == Refreshed(old(data[d]), series, d)
    {
      ghost var before := data;
      var i := 0;
      while i < 8
        invariant 0 <= i <= 8 && Valid() && CopiedBelow(before, series, i)
      {
        CopyDataset(before, series, i);
        i := i + 1;
      }
      CopyDataset(before, series, 8);
      CopyDataset(before, series, 9);
      CopyDataset(before, series, 10);
      CopyDataset(before, series, 11);
    }

    /**
     * The datasets below `k` have been refreshed from `series` and the others still hold
     * what they held in `before`.
     */
    predicate CopiedBelow(before: seq<seq<Sample>>, series: seq<seq<Sample>>, k: nat)
      reads this`data
    {
      && |data| == DatasetCount && |before| == DatasetCount && k <= DatasetCount
      && (forall d :: 0 <= d < k ==> data[d] == Refreshed(before[d], series, d))
      && (forall d :: k <= d < DatasetCount ==> data[d] == before[d])
    }

    /**
     * One copy of `updateChartWithData`: dataset `d` becomes the newest 100 entries of its
     * source series when that series is present; nothing else changes.
     */
    method CopyDataset(ghost before: seq<seq<Sample>>, series: seq<seq<Sample>>, d: nat)
      requires Valid() && d < DatasetCount && CopiedBelow(before, series, d)
      modifies this`data
      ensures Valid() && CopiedBelow(before, series, d + 1)
    {
      var s := SourceSeries(d);
      if s < |series| {
        data := data[d := LastN(series[s], PagePoints)];
      }
    }

    /** The legend `onClick` for dataset `index`; the rescale it schedules is a separate call. */
    method ToggleLegend(index: nat)
      requires Valid() && index < DatasetCount
      modifies this`metaHidden
      ensures Valid()
      ensures metaHidden == old(metaHidden)[index := Toggled(old(metaHidden[index]), datasetHidden[index])]
    {
      metaHidden := metaHidden[index := Toggled(metaHidden[index], datasetHidden[index])];
    }
  }

  /**
   * The collecting loop of `autoScaleYAxis`: the points of every visible dataset, on the
   * power axis for the power dataset and on the temperature axis for the others, with the
   * running counts the source keeps beside them.
   */
  method CollectAxes(data: seq<seq<Sample>>, metaHidden: seq<Option<bool>>, datasetHidden: seq<bool>)
    returns (tempValues: seq<Number>, powerValues: seq<Number>, visibleTempDatasets: nat, visiblePowerDatasets: nat)
    requires |data| <= |metaHidden| && |data| <= |datasetHidden|
    ensures tempValues == AxisPoints(data, metaHidden, datasetHidden, |data|, false)
    ensures powerValues == AxisPoints(data, metaHidden, datasetHidden, |data|, true)
    ensures visibleTempDatasets == |tempValues| && visiblePowerDatasets == |powerValues|
  {
    tempValues, powerValues := [], [];
    visibleTempDatasets, visiblePowerDatasets := 0, 0;
    var i := 0;
    while i < |data|
      invariant 0 <= i <= |data|
      invariant Collected(data, metaHidden, datasetHidden, i, tempValues, powerValues, visibleTempDatasets, visiblePowerDatasets)
    {
      tempValues, powerValues, visibleTempDatasets, visiblePowerDatasets :=
        CollectDataset(data, metaHidden, datasetHidden, i, tempValues, powerValues, visibleTempDatasets, visiblePowerDatasets);
      i := i + 1;
    }
  }

  /** The two axes' points and counts after the first `n` datasets. */
  predicate Collected(data: seq<seq<Sample>>, metaHidden: seq<Option<bool>>, datasetHidden: seq<bool>, n: nat,
                      tempValues: seq<Number>, powerValues: seq<Number>, visibleTempDatasets: nat, visiblePowerDatasets: nat)
    requires n <= |data| && n <= |metaHidden| && n <= |datasetHidden|
  {
    && tempValues == AxisPoints(data, metaHidden, datasetHidden, n, false)
    && powerValues == AxisPoints(data, metaHidden, datasetHidden, n, true)
    && visibleTempDatasets == |tempValues| && visiblePowerDatasets == |powerValues|
  }

  /** One pass of the collecting loop: dataset `i`, when visible, adds its points to its own axis. */
  method CollectDataset(data: seq<seq<Sample>>, metaHidden: seq<Option<bool>>, datasetHidden: seq<bool>, i: nat,
                        tempValues: seq<Number>, powerValues: seq<Number>, visibleTempDatasets: nat, visiblePowerDatasets: nat)
    returns (tempValues': seq<Number>, powerValues': seq<Number>, visibleTempDatasets': nat, visiblePowerDatasets': nat)
    requires i < |data| && i < |metaHidden| && i < |datasetHidden|
    requires Collected(data, metaHidden, datasetHidden, i, tempValues, powerValues, visibleTempDatasets, visiblePowerDatasets)
    ensures Collected(data, metaHidden, datasetHidden, i + 1, tempValues', powerValues', visibleTempDatasets', visiblePowerDatasets')
  {
    AxisPointsStep(data, metaHidden, datasetHidden, i, false);
    AxisPointsStep(data, metaHidden, datasetHidden, i, true);
    tempValues', powerValues', visibleTempDatasets', visiblePowerDatasets' := tempValues, powerValues, visibleTempDatasets, visiblePowerDatasets;
    if Visible(metaHidden[i], datasetHidden[i]) {
      var pts := CollectPoints(data[i]);
      if i == PowerDataset {
        powerValues' := powerValues + pts;
        visiblePowerDatasets' := visiblePowerDatasets + |pts|;
      } else {
        tempValues' := tempValues + pts;
        visibleTempDatasets' := visibleTempDatasets + |pts|;
      }
    }
  }

  /** Collecting one more dataset adds its contributing points to its own axis only. */
  lemma AxisPointsStep(data: seq<seq<Sample>>, metaHidden: seq<Option<bool>>, datasetHidden: seq<bool>, i: nat, power: bool)
    requires i < |data| && i < |metaHidden| && i < |datasetHidden|
    ensures Visible(metaHidden[i], datasetHidden[i]) && (i == PowerDataset) == power ==>
      AxisPoints(data, metaHidden, datasetHidden, i + 1, power)
      == AxisPoints(data, metaHidden, datasetHidden, i, power) + Contributing(data[i])
    ensures !(Visible(metaHidden[i], datasetHidden[i]) && (i == PowerDataset) == power) ==>
      AxisPoints(data, metaHidden, datasetHidden, i + 1, power) == AxisPoints(data, metaHidden, datasetHidden, i, power)
  {
    var before := AxisPoints(data, metaHidden, datasetHidden, i, power);
    assert before + [] == before;
  }

  /**
   * One axis block of `autoScaleYAxis`: with at least one collected value (`count` of them)
   * the axis gets the scaled bounds of their minimum and maximum; otherwise it is left as it is.
   */
  method ScaleAxis(current: Axis, values: seq<Number>, count: nat, power: bool) returns (a: Axis)
    requires count == |values|
    ensures a == Rescaled(current, values, power)
  {
    a := current;
    if |values| > 0 && count > 0 {
      var b := if power then PowerScale(MinAll(values), MaxAll(values)) else TempScale(MinAll(values), MaxAll(values));
      a := Axis(Some(b.min), Some(b.max));
    }
  }

  /** The inner loop of `autoScaleYAxis` for one dataset: its points that are neither `null` nor `NaN`. */
  method CollectPoints(s: seq<Sample>) returns (pts: seq<Number>)
    ensures pts == Contributing(s)
  {
    pts := [];
    var j := 0;
    while j < |s|
      invariant 0 <= j <= |s|
      invariant pts == Contributing(s[..j])
    {
      var v := s[j];
      assert s[..j + 1][..j] == s[..j];
      if !v.Null? && !v.NaN? {
        pts := pts + [v];
      }
      j := j + 1;
    }
    assert s[..|s|] == s;
  }
}
