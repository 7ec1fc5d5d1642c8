/**
 * The HH:MM:SS.mmm time shown on the dashboard's time tile (renderer.js
 * `formatTimeHmsMs`).
 */
module Formatters {
  import opened Values
  import opened Text

  // ---------------------------------------------------------------------------
  // formatTimeHmsMs

  /** `Math.trunc(x)` */
  function Trunc(x: real): int {
    if x >= 0.0 then x.Floor else -((-x).Floor)
  }

  /** JavaScript's `a % b` on integers: the remainder takes the sign of `a`. */
  function JsRem(a: int, b: nat): int
    requires b > 0
  {
    if a >= 0 then a % b else -((-a) % b)
  }

  /** The four numbers `formatTimeHmsMs` prints. */
  datatype Clock = Clock(h: int, m: int, s: int, ms: int)

  /**
   * The parts of a finite time `t` in seconds: milliseconds from `t % 1`, seconds and
   * minutes by JavaScript `%`, hours and minutes by `Math.floor` division.
   */
  function ClockOf(t: real): Clock {
    var ms := ((t - Trunc(t) as real) * 1000.0).Floor;
    var whole := t.Floor;
    Clock(whole / 3600, JsRem(whole / 60, 60), JsRem(whole, 60), ms)
  }

  /** `String(n).padStart(2, '0')` */
  function Pad2(n: int): string {
    PadStart(IntToString(n), 2, '0')
  }

  /** `String(n).padStart(3, '0')` */
  function Pad3(n: int): string {
    PadStart(IntToString(n), 3, '0')
  }

  const ZeroTime: string := "00:00:00.000"

  /** `formatTimeHmsMs(totalSeconds)` */
  function FormatTimeHmsMs(t: Sample): (r: string)
    ensures !IsFinite(t) ==> r == ZeroTime
  {
    if !t.Num? then ZeroTime else ClockText(ClockOf(t.x))
  }

  /** `pad2(h) + ':' + pad2(m) + ':' + pad2(s) + '.' + pad3(ms)` */
  function ClockText(c: Clock): string {
    Pad2(c.h) + ":" + Pad2(c.m) + ":" + Pad2(c.s) + "." + Pad3(c.ms)
  }

  /** For a non-negative time the parts are in range and add up to the whole seconds. */
  lemma ClockOfNonNegative(t: real)
    requires t >= 0.0
    ensures var c := ClockOf(t);
      0 <= c.s < 60 && 0 <= c.m < 60 && 0 <= c.ms < 1000 && 0 <= c.h
      && c.h * 3600 + c.m * 60 + c.s == t.Floor
      && c.ms as real <= (t - t.Floor as real) * 1000.0 < c.ms as real + 1.0
  {
    var w := t.Floor;
    var q, s := w / 60, w % 60;
    var h, m := q / 60, q % 60;
    assert w == q * 60 + s;
    assert q == h * 60 + m;
    assert w == h * 3600 + (m * 60 + s);
    assert 0 <= m * 60 + s < 3600;
    assert w / 3600 == h;
  }

  /** A number below 100 prints as exactly two decimal digits that read back as the number. */
  lemma Pad2Exact(n: int)
    requires 0 <= n < 100
    ensures |Pad2(n)| == 2 && AllDigits(Pad2(n), 10) && StringValue(Pad2(n), 10) == n
  {
    DecimalWidth(n);
    PaddedValue(n, 2, 10);
    PaddedDigits(n, 2, 10);
  }

  /** A number below 1000 prints as exactly three decimal digits that read back as the number. */
  lemma Pad3Exact(n: int)
    requires 0 <= n < 1000
    ensures |Pad3(n)| == 3 && AllDigits(Pad3(n), 10) && StringValue(Pad3(n), 10) == n
  {
    DecimalWidth(n);
    PaddedValue(n, 3, 10);
    PaddedDigits(n, 3, 10);
  }

  /** Where the separators and fields sit in `h + ":" + m + ":" + s + "." + ms`. */
  lemma ClockTextLayout(h: string, m: string, s: string, ms: string)
    requires |m| == 2 && |s| == 2 && |ms| == 3
    ensures var r := h + ":" + m + ":" + s + "." + ms;
      |r| == |h| + 10 && r[|r| - 10] == ':' && r[|r| - 7] == ':' && r[|r| - 4] == '.'
      && r[..|r| - 10] == h && r[|r| - 9..|r| - 7] == m && r[|r| - 6..|r| - 4] == s && r[|r| - 3..] == ms
  {
  }

  /** A clock with parts in range prints as `H:MM:SS.mmm`, and each field reads back as its part. */
  lemma ClockTextReadsBack(c: Clock)
    requires 0 <= c.h && 0 <= c.m < 60 && 0 <= c.s < 60 && 0 <= c.ms < 1000
    ensures var r := ClockText(c);
      |r| >= 12 && r[|r| - 10] == ':' && r[|r| - 7] == ':' && r[|r| - 4] == '.'
      && AllDigits(r[..|r| - 10], 10) && AllDigits(r[|r| - 9..|r| - 7], 10)
      && AllDigits(r[|r| - 6..|r| - 4], 10) && AllDigits(r[|r| - 3..], 10)
      && StringValue(r[..|r| - 10], 10) == c.h && StringValue(r[|r| - 9..|r| - 7], 10) == c.m
      && StringValue(r[|r| - 6..|r| - 4], 10) == c.s && StringValue(r[|r| - 3..], 10) == c.ms
  {
    var h, m, s, ms := Pad2(c.h), Pad2(c.m), Pad2(c.s), Pad3(c.ms);
    Pad2Exact(c.m);
    Pad2Exact(c.s);
    Pad3Exact(c.ms);
    PaddedValue(c.h, 2, 10);
    PaddedDigits(c.h, 2, 10);
    assert StringValue(h, 10) == c.h;
    ClockTextLayout(h, m, s, ms);
    var r := h + ":" + m + ":" + s + "." + ms;
    assert ClockText(c) == r;
    assert |h| >= 2;
  }

  /**
   * For a non-negative time the text is `H:MM:SS.mmm`: decimal fields of at least two,
   * exactly two, two and three digits, which read back as the whole seconds and as the
   * whole milliseconds of the fraction.
   */
  lemma FormatTimeReadsBack(t: real)
    requires t >= 0.0
    ensures var r := FormatTimeHmsMs(Num(t));
      |r| >= 12 && r[|r| - 10] == ':' && r[|r| - 7] == ':' && r[|r| - 4] == '.'
      && AllDigits(r[..|r| - 10], 10) && AllDigits(r[|r| - 9..|r| - 7], 10)
      && AllDigits(r[|r| - 6..|r| - 4], 10) && AllDigits(r[|r| - 3..], 10)
      && StringValue(r[..|r| - 10], 10) * 3600 + StringValue(r[|r| - 9..|r| - 7], 10) * 60
         + StringValue(r[|r| - 6..|r| - 4], 10) == t.Floor
      && StringValue(r[|r| - 3..], 10) == ((t - t.Floor as real) * 1000.0).Floor
  {
    var c := ClockOf(t);
    ClockOfNonNegative(t);
    ClockTextReadsBack(c);
    var r := FormatTimeHmsMs(Num(t));
    assert r == ClockText(c);
    var h, m, s := StringValue(r[..|r| - 10], 10), StringValue(r[|r| - 9..|r| - 7], 10), StringValue(r[|r| - 6..|r| - 4], 10);
    assert h * 3600 + m * 60 + s == c.h * 3600 + c.m * 60 + c.s;
  }
}
