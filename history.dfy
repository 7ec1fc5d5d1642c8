/**
 * The bounded telemetry window: every chart array grows by `push` and, once it
 * holds more than the window's size, loses its oldest element by one `shift`
 * (renderer.js `addPoint`, window of 50); the chart page copies the newest
 * 100 points with `slice(-100)` (chart-page.js `updateChartWithData`).
 */
module History {

  /** `arr.push(x)`, then one `arr.shift()` if the array now holds more than `max` elements. */
  function Slide<T>(s: seq<T>, x: T, max: nat): (r: seq<T>)
  {
    var pushed := s + [x];
    if |pushed| > max then pushed[1..] else pushed
  }

  /** `arr.slice(-n)` for n > 0: the newest `n` elements, or all of them when there are fewer. */
  function LastN<T>(s: seq<T>, n: nat): (r: seq<T>)
    requires 1 <= n
    ensures |r| == if |s| < n then |s| else n
    ensures r == s[|s| - |r|..]
  {
    if |s| <= n then s else s[|s| - n..]
  }

  /** One push within the window: the new point is last, and at most the oldest point is dropped. */
  lemma SlideWithinWindow<T>(s: seq<T>, x: T, max: nat)
    requires 1 <= max && |s| <= max
    ensures |Slide(s, x, max)| <= max
    ensures Slide(s, x, max)[|Slide(s, x, max)| - 1] == x
    ensures Slide(s, x, max) == (s + [x])[if |s| == max then 1 else 0..]
  {
  }

  /** The window after pushing every element of `xs`, one at a time. */
  function Feed<T>(s: seq<T>, xs: seq<T>, max: nat): seq<T>
    decreases |xs|
  {
    if xs == [] then s else Feed(Slide(s, xs[0], max), xs[1..], max)
  }

  lemma LastNOfSuffix<T>(z: seq<T>, k: nat, n: nat)
    requires 1 <= n && k <= |z| && (k == 0 || |z| - k >= n)
    ensures LastN(z[k..], n) == LastN(z, n)
  {
  }

  lemma FirstThenRest<T>(s: seq<T>, xs: seq<T>)
    requires xs != []
    ensures s + [xs[0]] + xs[1..] == s + xs
  {
    assert [xs[0]] + xs[1..] == xs;
  }

  /** Taking the newest `max` after one slide is the same as taking them before it. */
  lemma SlideThenLastN<T>(s: seq<T>, x: T, rest: seq<T>, max: nat)
    requires 1 <= max && |s| <= max
    ensures LastN(Slide(s, x, max) + rest, max) == LastN(s + [x] + rest, max)
  {
    var t := s + [x];
    var k := if |t| > max then 1 else 0;
    assert Slide(s, x, max) + rest == (t + rest)[k..];
    LastNOfSuffix(t + rest, k, max);
  }

  /**
   * Whatever stream of points arrives, a window that started within its bound holds
   * exactly the newest `max` points of everything it has seen, in arrival order.
   */
  lemma {:induction false} FeedIsLastN<T>(s: seq<T>, xs: seq<T>, max: nat)
    requires 1 <= max && |s| <= max
    ensures Feed(s, xs, max) == LastN(s + xs, max)
    decreases |xs|
  {
    if xs == [] {
      assert s + xs == s;
    } else {
      var x, rest := xs[0], xs[1..];
      assert Feed(s, xs, max) == Feed(Slide(s, x, max), rest, max);
      SlideWithinWindow(s, x, max);
      FeedIsLastN(Slide(s, x, max), rest, max);
      SlideThenLastN(s, x, rest, max);
      FirstThenRest(s, xs);
    }
  }
}
