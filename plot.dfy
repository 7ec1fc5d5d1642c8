/**
 * The data shaping of renderer.js `redrawChart`: every series is copied with each
 * non-finite or out-of-range value replaced by `null`, the smallest and largest kept
 * values are tracked per axis (power on the secondary axis, everything else on the
 * primary one), and each axis gets a range padded by 5% of its span.
 */
module Plot {
  import opened Values

  /** The series drawn on the secondary (power) axis. */
  const PowerSeries: nat := 10

  /** A kept power value lies in [-1e6, 1e6]; any other kept value in [-50, 200]. */
  predicate InRange(i: nat, x: real) {
    if i == PowerSeries then -1000000.0 <= x <= 1000000.0 else -50.0 <= x <= 200.0
  }

  /** The value drawn for `v` in series `i`: `v` itself when finite and in range, else `null`. */
  function Kept(i: nat, v: Sample): (r: Sample)
    ensures r.Num? <==> v.Num? && InRange(i, v.x)
    ensures r.Num? ==> r == v
    ensures !r.Num? ==> r.Null?
  {
    if v.Num? && InRange(i, v.x) then v else Null
  }

  /** The drawn copy of series `i`. */
  function KeptSeries(i: nat, s: seq<Sample>): (r: seq<Sample>)
    ensures |r| == |s|
    ensures forall j :: 0 <= j < |s| ==> r[j] == Kept(i, s[j])
  {
    seq(|s|, j requires 0 <= j < |s| => Kept(i, s[j]))
  }

  /** The numbers of a series, in order. */
  function Nums(s: seq<Sample>): (xs: seq<real>)
    ensures forall x :: x in xs <==> Num(x) in s
    decreases |s|
  {
    if s == [] then []
    else Nums(s[..|s| - 1]) + (if s[|s| - 1].Num? then [s[|s| - 1].x] else [])
  }

  /** Whether series `i` is drawn on the power axis (`power`) or on the primary axis. */
  predicate OnAxis(i: nat, power: bool) {
    (i == PowerSeries) == power
  }

  /** The numbers of the drawn series on one axis, series by series. */
  function AxisValues(ys: seq<seq<Sample>>, power: bool): seq<real>
    decreases |ys|
  {
    if ys == [] then []
    else AxisValues(ys[..|ys| - 1], power) + (if OnAxis(|ys| - 1, power) then Nums(ys[|ys| - 1]) else [])
  }

  /** One step of `if (val < minY) minY = val`, with `None` for the starting `Infinity`. */
  function Lower(m: Option<real>, x: real): real {
    if m.None? || x < m.value then x else m.value
  }

  /** One step of `if (val > maxY) maxY = val`, with `None` for the starting `-Infinity`. */
  function Higher(m: Option<real>, x: real): real {
    if m.None? || x > m.value then x else m.value
  }

  /** The running minimum after a list of values. */
  function MinOf(xs: seq<real>): Option<real>
    decreases |xs|
  {
    if xs == [] then None else Some(Lower(MinOf(xs[..|xs| - 1]), xs[|xs| - 1]))
  }

  /** The running maximum after a list of values. */
  function MaxOf(xs: seq<real>): Option<real>
    decreases |xs|
  {
    if xs == [] then None else Some(Higher(MaxOf(xs[..|xs| - 1]), xs[|xs| - 1]))
  }

  /** The running minimum is the least value of the list, and there is one exactly when the list is not empty. */
  lemma {:induction false} MinOfIsLeast(xs: seq<real>)
    ensures MinOf(xs).Some? <==> xs != []
    ensures MinOf(xs).Some? ==> MinOf(xs).value in xs && forall x :: x in xs ==> MinOf(xs).value <= x
    decreases |xs|
  {
    if xs != [] {
      var init := xs[..|xs| - 1];
      MinOfIsLeast(init);
      assert xs == init + [xs[|xs| - 1]];
    }
  }

  /** The running maximum is the greatest value of the list, and there is one exactly when the list is not empty. */
  lemma {:induction false} MaxOfIsGreatest(xs: seq<real>)
    ensures MaxOf(xs).Some? <==> xs != []
    ensures MaxOf(xs).Some? ==> MaxOf(xs).value in xs && forall x :: x in xs ==> x <= MaxOf(xs).value
    decreases |xs|
  {
    if xs != [] {
      var init := xs[..|xs| - 1];
      MaxOfIsGreatest(init);
      assert xs == init + [xs[|xs| - 1]];
    }
  }

  /** An axis range `[lo, hi]`. */
  datatype Interval = Interval(lo: real, hi: real)

  /** The axis range for a minimum and maximum: `[min - pad, max + pad]`, `pad = 5%` of `max(1e-6, max - min)`. */
  function Padded(lo: Option<real>, hi: Option<real>): Option<Interval> {
    if lo.Some? && hi.Some? then
      var span := if 0.000001 < hi.value - lo.value then hi.value - lo.value else 0.000001;
      var pad := span * 0.05;
      Some(Interval(lo.value - pad, hi.value + pad))
    else None
  }

  /** The range `redrawChart` sets for an axis, from the values drawn on it. */
  function AxisRange(ys: seq<seq<Sample>>, power: bool): Option<Interval> {
    var xs := AxisValues(ys, power);
    Padded(MinOf(xs), MaxOf(xs))
  }

  /**
   * An axis gets a range exactly when some value is drawn on it; the range then holds every
   * drawn value strictly inside, with at least 5% of the span as margin on each side.
   */
  lemma AxisRangeContains(ys: seq<seq<Sample>>, power: bool)
    ensures var r := AxisRange(ys, power);
      var xs := AxisValues(ys, power);
      && (r.Some? <==> xs != [])
      && (r.Some? ==> forall x :: x in xs ==>
            r.value.lo < x < r.value.hi
            && x - r.value.lo >= (MaxOf(xs).value - MinOf(xs).value) * 0.05
            && r.value.hi - x >= (MaxOf(xs).value - MinOf(xs).value) * 0.05)
  {
    var xs := AxisValues(ys, power);
    MinOfIsLeast(xs);
    MaxOfIsGreatest(xs);
  }

  /** Every value drawn on an axis comes from a finite, in-range sample of one of its series. */
  lemma {:induction false} AxisValuesAreKept(series: seq<seq<Sample>>, ys: seq<seq<Sample>>, power: bool, x: real)
    requires |ys| == |series|
    requires forall k :: 0 <= k < |ys| ==> ys[k] == KeptSeries(k, series[k])
    requires x in AxisValues(ys, power)
    ensures exists i, j :: 0 <= i < |series| && 0 <= j < |series[i]| && OnAxis(i, power)
                           && series[i][j] == Num(x) && InRange(i, x)
    decreases |ys|
  {
    var n := |ys| - 1;
    if x in AxisValues(ys[..n], power) {
      AxisValuesAreKept(series[..n], ys[..n], power, x);
      var i, j :| 0 <= i < n && 0 <= j < |series[..n][i]| && OnAxis(i, power) && series[..n][i][j] == Num(x) && InRange(i, x);
      assert series[i] == series[..n][i];
    } else {
      KeptNumber(n, series[n], x);
    }
  }

  /** A number in a drawn series is an in-range sample of the input series. */
  lemma KeptNumber(i: nat, s: seq<Sample>, x: real)
    requires x in Nums(KeptSeries(i, s))
    ensures exists j :: 0 <= j < |s| && s[j] == Num(x) && InRange(i, x)
  {
    var r := KeptSeries(i, s);
    var j :| 0 <= j < |r| && r[j] == Num(x);
  }

  /**
   * The sanitising loop of `redrawChart`: builds the drawn copy of every series and the
   * minimum and maximum drawn value of each axis (`None` standing for the starting
   * infinities), then the padded axis ranges. `redrawChart` returns before reaching this
   * loop when the time array is empty or the chart is absent; the method is that loop once
   * it runs.
   */
  method ShapeSeries(series: seq<seq<Sample>>) returns (ys: seq<seq<Sample>>, yRange: Option<Interval>, y2Range: Option<Interval>)
    requires |series| == 12
    ensures |ys| == 12
    ensures forall i :: 0 <= i < 12 ==> ys[i] == KeptSeries(i, series[i])
    ensures yRange == AxisRange(ys, false)
    ensures y2Range == AxisRange(ys, true)
  {
    var minY: Option<real>, maxY: Option<real> := None, None;
    var minY2: Option<real>, maxY2: Option<real> := None, None;
    ys := [];
    var i := 0;
    while i < 12
      invariant 0 <= i <= 12 && |ys| == i
      invariant forall k :: 0 <= k < i ==> ys[k] == KeptSeries(k, series[k])
      invariant minY == MinOf(AxisValues(ys, false)) && maxY == MaxOf(AxisValues(ys, false))
      invariant minY2 == MinOf(AxisValues(ys, true)) && maxY2 == MaxOf(AxisValues(ys, true))
    {
      var yData;
      if i == PowerSeries {
        yData, minY2, maxY2 := SanitiseSeries(i, series[i], minY2, maxY2, AxisValues(ys, true));
      } else {
        yData, minY, maxY := SanitiseSeries(i, series[i], minY, maxY, AxisValues(ys, false));
      }
      AxisValuesSnoc(ys, yData, false);
      AxisValuesSnoc(ys, yData, true);
      KeptPrefix(series, ys, yData);
      ys := ys + [yData];
      i := i + 1;
    }
    yRange := Padded(minY, maxY);
    y2Range := Padded(minY2, maxY2);
    RangeFromExtremes(ys, false, minY, maxY);
    RangeFromExtremes(ys, true, minY2, maxY2);
  }

  lemma KeptPrefix(series: seq<seq<Sample>>, ys: seq<seq<Sample>>, y: seq<Sample>)
    requires |ys| < |series|
    requires forall k :: 0 <= k < |ys| ==> ys[k] == KeptSeries(k, series[k])
    requires y == KeptSeries(|ys|, series[|ys|])
    ensures forall k :: 0 <= k <= |ys| ==> (ys + [y])[k] == KeptSeries(k, series[k])
  {
  }

  lemma RangeFromExtremes(ys: seq<seq<Sample>>, power: bool, lo: Option<real>, hi: Option<real>)
    requires lo == MinOf(AxisValues(ys, power)) && hi == MaxOf(AxisValues(ys, power))
    ensures Padded(lo, hi) == AxisRange(ys, power)
  {
  }

  /**
   * The inner loop of `redrawChart` for series `i`: the drawn copy of the series, and the
   * running minimum and maximum of its axis carried on over its drawn values.
   */
  method SanitiseSeries(i: nat, s: seq<Sample>, minY: Option<real>, maxY: Option<real>, ghost seen: seq<real>)
    returns (yData: seq<Sample>, lo: Option<real>, hi: Option<real>)
    requires minY == MinOf(seen) && maxY == MaxOf(seen)
    ensures yData == KeptSeries(i, s)
    ensures lo == MinOf(seen + Nums(yData)) && hi == MaxOf(seen + Nums(yData))
  {
    lo, hi := minY, maxY;
    yData := [];
    var j := 0;
    assert seen + Nums(yData) == seen;
    while j < |s|
      invariant 0 <= j <= |s|
      invariant yData == KeptSeries(i, s[..j])
      invariant lo == MinOf(seen + Nums(yData)) && hi == MaxOf(seen + Nums(yData))
    {
      var v := s[j];
      var val := if v.Num? then v else Null;
      if val.Num? {
        if i == PowerSeries {
          if val.x < -1000000.0 || val.x > 1000000.0 {
            val := Null;
          } else {
            lo := Some(Lower(lo, val.x));
            hi := Some(Higher(hi, val.x));
          }
        } else {
          if val.x < -50.0 || val.x > 200.0 {
            val := Null;
          } else {
            lo := Some(Lower(lo, val.x));
            hi := Some(Higher(hi, val.x));
          }
        }
      }
      assert val == Kept(i, s[j]);
      KeptSnoc(i, s, j, yData, val);
      ExtremesStep(seen, yData, val);
      yData := yData + [val];
      j := j + 1;
    }
    assert s[..|s|] == s;
  }

  lemma KeptSnoc(i: nat, s: seq<Sample>, j: nat, yData: seq<Sample>, val: Sample)
    requires j < |s| && yData == KeptSeries(i, s[..j]) && val == Kept(i, s[j])
    ensures yData + [val] == KeptSeries(i, s[..j + 1])
  {
    assert s[..j + 1][..j] == s[..j];
  }

  /** Appending one drawn value moves the running extremes by its number, if it has one. */
  lemma ExtremesStep(seen: seq<real>, yData: seq<Sample>, val: Sample)
    ensures var before := seen + Nums(yData);
      var after := seen + Nums(yData + [val]);
      if val.Num? then
        MinOf(after) == Some(Lower(MinOf(before), val.x)) && MaxOf(after) == Some(Higher(MaxOf(before), val.x))
      else
        after == before
  {
    assert (yData + [val])[..|yData|] == yData;
    var before := seen + Nums(yData);
    if val.Num? {
      assert seen + Nums(yData + [val]) == before + [val.x];
      assert (before + [val.x])[..|before|] == before;
    }
  }

  lemma AxisValuesSnoc(ys: seq<seq<Sample>>, y: seq<Sample>, power: bool)
    ensures OnAxis(|ys|, power) ==> AxisValues(ys + [y], power) == AxisValues(ys, power) + Nums(y)
    ensures !OnAxis(|ys|, power) ==> AxisValues(ys + [y], power) == AxisValues(ys, power)
  {
    assert (ys + [y])[..|ys|] == ys;
    assert AxisValues(ys, power) + [] == AxisValues(ys, power);
  }
}
