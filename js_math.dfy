/**
 * JavaScript number arithmetic over the values a chart point can hold: a finite real,
 * `Infinity`, `-Infinity` or `NaN` (`Values.Number`). Finite values are exact reals;
 * rounding to double precision is not modelled.
 */
module JsMath {
  import opened Values

  /** `NaN` is unordered and absorbs every operation. */
  predicate IsNaN(a: Number) {
    a.NaN?
  }

  function Neg(a: Number): (r: Number)
    ensures r.Num? <==> a.Num?
    ensures a.Num? ==> r.x == -a.x
  {
    match a
    case NaN => NaN
    case Inf(n) => Inf(!n)
    case Num(x) => Num(-x)
  }

  /** `a + b`; `Infinity + -Infinity` is `NaN`. */
  function Add(a: Number, b: Number): (r: Number)
    ensures a.Num? && b.Num? ==> r == Num(a.x + b.x)
    ensures r.NaN? <==> a.NaN? || b.NaN? || (a.Inf? && b.Inf? && a.negative != b.negative)
  {
    if a.NaN? || b.NaN? then NaN
    else if a.Inf? && b.Inf? then (if a.negative == b.negative then a else NaN)
    else if a.Inf? then a
    else if b.Inf? then b
    else Num(a.x + b.x)
  }

  /** `a - b` */
  function Sub(a: Number, b: Number): (r: Number)
    ensures a.Num? && b.Num? ==> r == Num(a.x - b.x)
  {
    Add(a, Neg(b))
  }

  /** `a * k` for a positive constant `k`. */
  function Scale(a: Number, k: real): (r: Number)
    requires k > 0.0
    ensures a.Num? ==> r == Num(a.x * k)
    ensures !a.Num? ==> r == a
  {
    if a.Num? then Num(a.x * k) else a
  }

  /** `a <= b` for two values that are not `NaN`. */
  predicate Le(a: Number, b: Number)
    requires !a.NaN? && !b.NaN?
  {
    a == Inf(true) || b == Inf(false) || (a.Num? && b.Num? && a.x <= b.x)
  }

  /** `a < b`: false whenever either side is `NaN`. */
  predicate Lt(a: Number, b: Number) {
    !a.NaN? && !b.NaN? && Le(a, b) && a != b
  }

  /** `Math.max(a, b)`: `NaN` if either is. */
  function Max(a: Number, b: Number): (r: Number)
    ensures r.NaN? <==> a.NaN? || b.NaN?
    ensures !r.NaN? ==> Le(a, r) && Le(b, r) && (r == a || r == b)
  {
    if a.NaN? || b.NaN? then NaN else if Lt(a, b) then b else a
  }

  /** `Math.min(a, b)`: `NaN` if either is. */
  function Min(a: Number, b: Number): (r: Number)
    ensures r.NaN? <==> a.NaN? || b.NaN?
    ensures !r.NaN? ==> Le(r, a) && Le(r, b) && (r == a || r == b)
  {
    if a.NaN? || b.NaN? then NaN else if Lt(b, a) then b else a
  }

  /** `Math.min(...vs)`: `Infinity` for no arguments. */
  function MinAll(vs: seq<Number>): Number
    decreases |vs|
  {
    if vs == [] then Inf(false) else Min(MinAll(vs[..|vs| - 1]), vs[|vs| - 1])
  }

  /** `Math.max(...vs)`: `-Infinity` for no arguments. */
  function MaxAll(vs: seq<Number>): Number
    decreases |vs|
  {
    if vs == [] then Inf(true) else Max(MaxAll(vs[..|vs| - 1]), vs[|vs| - 1])
  }

  predicate NoNaN(vs: seq<Number>) {
    forall i :: 0 <= i < |vs| ==> !vs[i].NaN?
  }

  /** Over values that are not `NaN`, `Math.min(...vs)` is one of them and below all of them. */
  lemma {:induction false} MinAllIsLeast(vs: seq<Number>)
    requires NoNaN(vs)
    ensures !MinAll(vs).NaN?
    ensures vs != [] ==> MinAll(vs) in vs
    ensures forall v :: v in vs ==> Le(MinAll(vs), v)
    decreases |vs|
  {
    if vs != [] {
      var init := vs[..|vs| - 1];
      MinAllIsLeast(init);
      assert vs == init + [vs[|vs| - 1]];
      if init != [] {
        forall v | v in vs
          ensures Le(MinAll(vs), v)
        {
          if v in init {
            LeTrans(MinAll(vs), MinAll(init), v);
          }
        }
      }
    }
  }

  /** Over values that are not `NaN`, `Math.max(...vs)` is one of them and above all of them. */
  lemma {:induction false} MaxAllIsGreatest(vs: seq<Number>)
    requires NoNaN(vs)
    ensures !MaxAll(vs).NaN?
    ensures vs != [] ==> MaxAll(vs) in vs
    ensures forall v :: v in vs ==> Le(v, MaxAll(vs))
    decreases |vs|
  {
    if vs != [] {
      var init := vs[..|vs| - 1];
      MaxAllIsGreatest(init);
      assert vs == init + [vs[|vs| - 1]];
      if init != [] {
        forall v | v in vs
          ensures Le(v, MaxAll(vs))
        {
          if v in init {
            LeTrans(v, MaxAll(init), MaxAll(vs));
          }
        }
      }
    }
  }

  lemma LeTrans(a: Number, b: Number, c: Number)
    requires !a.NaN? && !b.NaN? && !c.NaN?
    requires Le(a, b) && Le(b, c)
    ensures Le(a, c)
  {
  }
}
