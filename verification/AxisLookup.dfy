/** Interpolation parameters along one table axis.

    Axis indices and queries are reals; the program compares their bit patterns
    as integers, which orders non-negative doubles the same way. */
module AxisLookup {

  datatype Option<+T> = None | Some(value: T)

  /** Two neighbouring positions on an axis and the weight of the upper one. */
  datatype Lerp = Lerp(axisId: nat, lower: nat, upper: nat, f: real)

  ghost predicate Increasing(xs: seq<real>) {
    forall i, j :: 0 <= i < j < |xs| ==> xs[i] < xs[j]
  }

  /** The number of indices below x: where a binary search for x ends. */
  ghost function Position(xs: seq<real>, x: real): (p: nat)
    ensures p <= |xs|
  {
    if xs == [] || x <= xs[0] then 0 else 1 + Position(xs[1..], x)
  }

  lemma {:induction false} PositionUnique(xs: seq<real>, x: real, p: nat)
    requires Increasing(xs) && p <= |xs|
    requires forall i :: 0 <= i < p ==> xs[i] < x
    requires forall i :: p <= i < |xs| ==> x <= xs[i]
    ensures Position(xs, x) == p
  {
    if p > 0 {
      PositionUnique(xs[1..], x, p - 1);
    }
  }

  lemma {:induction false} PositionSplits(xs: seq<real>, x: real)
    requires Increasing(xs)
    ensures forall i :: 0 <= i < Position(xs, x) ==> xs[i] < x
    ensures forall i :: Position(xs, x) <= i < |xs| ==> x <= xs[i]
  {
    if xs != [] && x > xs[0] {
      var p := Position(xs, x);
      PositionSplits(xs[1..], x);
      forall i | 0 <= i < p ensures xs[i] < x {
        if i > 0 { assert xs[i] == xs[1..][i - 1]; }
      }
      forall i | p <= i < |xs| ensures x <= xs[i] {
        assert xs[i] == xs[1..][i - 1];
      }
    }
  }

  function Clamp(f: real): real {
    var f1 := if f > 1.0 then 1.0 else f;
    if f1 < 0.0 then 0.0 else f1
  }

  // What the search and the interpolation make of a query that is not on the grid.
  ghost function OffGrid(id: nat, xs: seq<real>, x: real): Lerp
    requires |xs| >= 2 && Increasing(xs)
  {
    var p := Position(xs, x);
    var s := if p + 1 >= |xs| then |xs| - 2 else p;
    Lerp(id, s, s + 1, Clamp((x - xs[s]) / (xs[s + 1] - xs[s])))
  }

  /** The parameters the program computes; None where its bounds assertion fails. */
  ghost function AxisLerp(id: nat, xs: seq<real>, x: real): (r: Option<Lerp>)
    requires Increasing(xs)
    ensures r.None? <==> |xs| < 2 && x !in xs
    ensures r.Some? ==> r.value.axisId == id
    ensures r.Some? ==> r.value.lower <= r.value.upper < |xs| && 0.0 <= r.value.f <= 1.0
  {
    if x in xs then
      PositionOnGrid(xs, x);
      var p := Position(xs, x);
      Some(Lerp(id, p, p, 0.0))
    else if |xs| < 2 then None
    else Some(OffGrid(id, xs, x))
  }

  lemma {:induction false} PositionOnGrid(xs: seq<real>, x: real)
    requires Increasing(xs) && x in xs
    ensures Position(xs, x) < |xs| && xs[Position(xs, x)] == x
  {
    var i: nat :| i < |xs| && xs[i] == x;
    PositionUnique(xs, x, i);
  }

  /** phx_table_axis_get_lerp: binary search, then clamped interpolation. */
  method AxisGetLerp(id: nat, xs: seq<real>, x: real) returns (r: Option<Lerp>)
    requires Increasing(xs)
    ensures r == AxisLerp(id, xs, x)
  {
    var start, end := 0, |xs|;
    while start < end
      invariant start <= end <= |xs|
      invariant forall i :: 0 <= i < start ==> xs[i] < x
      invariant forall i :: end <= i < |xs| ==> x < xs[i]
    {
      var mid := start + (end - start) / 2;
      if x < xs[mid] {
        end := mid;
      } else if x > xs[mid] {
        start := mid + 1;
      } else {
        PositionUnique(xs, x, mid);
        return Some(Lerp(id, mid, mid, 0.0));
      }
    }
    PositionUnique(xs, x, start);
    var s: int := start;
    if s + 1 >= |xs| {
      s := |xs| - 2;
    }
    if !(0 <= s < |xs| && s + 1 < |xs|) {
      return None;
    }
    var f := (x - xs[s]) / (xs[s + 1] - xs[s]);
    if f > 1.0 { f := 1.0; }
    if f < 0.0 { f := 0.0; }
    r := Some(Lerp(id, s, s + 1, f));
  }

  /** phx_table_lerp_axes for one axis: the search does not return early on a match. */
  ghost function LerpAxis(id: nat, xs: seq<real>, x: real): (r: Option<Lerp>)
    requires Increasing(xs)
  {
    if |xs| < 2 then None else Some(OffGrid(id, xs, x))
  }

  method LerpAxes(id: nat, xs: seq<real>, x: real) returns (r: Option<Lerp>)
    requires Increasing(xs)
    ensures r == LerpAxis(id, xs, x)
  {
    var start, end := 0, |xs|;
    while start < end
      invariant start <= end <= |xs|
      invariant forall i :: 0 <= i < start ==> xs[i] < x
      invariant forall i :: end <= i < |xs| ==> x <= xs[i]
    {
      var mid := start + (end - start) / 2;
      if x < xs[mid] {
        end := mid;
      } else if x > xs[mid] {
        start := mid + 1;
      } else {
        start, end := mid, mid;
      }
    }
    PositionUnique(xs, x, start);
    var s: int := start;
    if s + 1 >= |xs| {
      s := |xs| - 2;
    }
    if !(0 <= s < |xs| && s + 1 < |xs|) {
      return None;
    }
    var f := (x - xs[s]) / (xs[s + 1] - xs[s]);
    if f > 1.0 { f := 1.0; }
    if f < 0.0 { f := 0.0; }
    r := Some(Lerp(id, s, s + 1, f));
  }

  // --- What a lookup denotes ----------------------------------------------

  /** One interpolation, as a function of the two values and the upper weight. */
  function Mix(y0: real, y1: real, f: real): real {
    y0 * (1.0 - f) + y1 * f
  }

  /** The value interpolated between the two positions of a lerp. */
  function Blend(l: Lerp, ys: seq<real>): real
    requires l.lower < |ys| && l.upper < |ys|
  {
    Mix(ys[l.lower], ys[l.upper], l.f)
  }

  function Line(x0: real, y0: real, x1: real, y1: real, x: real): real
    requires x0 < x1
  {
    y0 + (y1 - y0) * ((x - x0) / (x1 - x0))
  }

  /** Reference: piecewise linear through (xs[i], ys[i]), constant outside. */
  ghost function Linear(xs: seq<real>, ys: seq<real>, x: real): real
    requires |xs| == |ys| >= 1 && Increasing(xs)
  {
    if x <= xs[0] || |xs| == 1 then ys[0]
    else if x <= xs[1] then Line(xs[0], ys[0], xs[1], ys[1], x)
    else Linear(xs[1..], ys[1..], x)
  }

  // Where the program's interval is the right one: on the grid, left of it, or
  // anywhere from the last interval on.
  ghost predicate WellPlaced(xs: seq<real>, x: real)
    requires |xs| >= 2
  {
    x in xs || x <= xs[0] || xs[|xs| - 2] <= x
  }

  // --- Facts about ratios and weights -------------------------------------

  lemma {:induction false} PositiveProduct(x: real, y: real)
    ensures x > 0.0 && y > 0.0 ==> x * y > 0.0
    ensures x >= 0.0 && y >= 0.0 ==> x * y >= 0.0
  {
  }

  lemma {:induction false} ScaleOrder(p: real, q: real, c: real)
    requires c > 0.0
    ensures p < q <==> p * c < q * c
  {
    assert (q - p) * c == q * c - p * c;
    PositiveProduct(q - p, c);
    PositiveProduct(p - q, c);
    assert (p - q) * c == p * c - q * c;
  }

  lemma {:induction false} ScaleMonotone(d: real, f: real, f': real)
    requires d >= 0.0 && f <= f'
    ensures d * f <= d * f'
  {
    PositiveProduct(d, f' - f);
    assert d * (f' - f) == d * f' - d * f;
  }

  lemma {:induction false} RatioBounds(a: real, x: real, b: real)
    requires a < b
    ensures x < a <==> (x - a) / (b - a) < 0.0
    ensures x <= a <==> (x - a) / (b - a) <= 0.0
    ensures b < x <==> (x - a) / (b - a) > 1.0
    ensures b <= x <==> (x - a) / (b - a) >= 1.0
  {
    var c, q := b - a, (x - a) / (b - a);
    assert q * c == x - a;
    QuotientSign(q, c, x - a);
    assert (q - 1.0) * c == x - b;
    QuotientSign(q - 1.0, c, x - b);
  }

  lemma {:induction false} QuotientSign(q: real, c: real, d: real)
    requires c > 0.0 && q * c == d
    ensures d < 0.0 <==> q < 0.0
    ensures d > 0.0 <==> q > 0.0
  {
    PositiveProduct(q, c);
    PositiveProduct(-q, c);
    assert -q * c == -d;
  }

  lemma {:induction false} LineEnds(x0: real, y0: real, x1: real, y1: real)
    requires x0 < x1
    ensures Line(x0, y0, x1, y1, x0) == y0
    ensures Line(x0, y0, x1, y1, x1) == y1
  {
    assert (x1 - x0) / (x1 - x0) == 1.0;
    assert (x0 - x0) / (x1 - x0) == 0.0;
  }

  // A line rises with its argument when its right end is no lower than its left.
  lemma {:induction false} LineMonotone(x0: real, y0: real, x1: real, y1: real, x: real, x': real)
    requires x0 < x1 && y0 <= y1 && x <= x'
    ensures Line(x0, y0, x1, y1, x) <= Line(x0, y0, x1, y1, x')
  {
    RatioMonotone(x0, x, x', x1);
    ScaleMonotone(y1 - y0, (x - x0) / (x1 - x0), (x' - x0) / (x1 - x0));
  }

  lemma {:induction false} RatioMonotone(a: real, x: real, x': real, b: real)
    requires a < b && x <= x'
    ensures (x - a) / (b - a) <= (x' - a) / (b - a)
  {
    var q, q' := (x - a) / (b - a), (x' - a) / (b - a);
    assert q * (b - a) == x - a && q' * (b - a) == x' - a;
    ScaleOrder(q', q, b - a);
  }

  lemma {:induction false} LinearAt(xs: seq<real>, ys: seq<real>, x: real, i: nat)
    requires |xs| == |ys| && Increasing(xs) && i + 1 < |xs| && xs[i] <= x <= xs[i + 1]
    ensures Linear(xs, ys, x) == Line(xs[i], ys[i], xs[i + 1], ys[i + 1], x)
    decreases i
  {
    if i > 0 {
      if x <= xs[1] {
        LineEnds(xs[0], ys[0], xs[1], ys[1]);
        LineEnds(xs[1], ys[1], xs[2], ys[2]);
      } else {
        LinearAt(xs[1..], ys[1..], x, i - 1);
      }
    } else if x <= xs[0] {
      LineEnds(xs[0], ys[0], xs[1], ys[1]);
    }
  }

  lemma {:induction false} LinearAbove(xs: seq<real>, ys: seq<real>, x: real)
    requires |xs| == |ys| >= 1 && Increasing(xs) && xs[|xs| - 1] <= x
    ensures Linear(xs, ys, x) == ys[|xs| - 1]
  {
    var n := |xs| - 1;
    if n > 0 {
      if x == xs[n] {
        LinearAt(xs, ys, x, n - 1);
        LineEnds(xs[n - 1], ys[n - 1], xs[n], ys[n]);
      } else {
        LinearAbove(xs[1..], ys[1..], x);
      }
    }
  }

  // Grid points are reproduced exactly.
  lemma {:induction false} LinearOnGrid(xs: seq<real>, ys: seq<real>, i: nat)
    requires |xs| == |ys| && Increasing(xs) && i < |xs|
    ensures Linear(xs, ys, xs[i]) == ys[i]
  {
    if i + 1 < |xs| {
      LinearAt(xs, ys, xs[i], i);
      LineEnds(xs[i], ys[i], xs[i + 1], ys[i + 1]);
    } else {
      LinearAbove(xs, ys, xs[i]);
    }
  }

  // The value the off-grid branch denotes: the upper neighbour inside any
  // interval but the last, the straight line on the last one.
  ghost function Stepped(xs: seq<real>, ys: seq<real>, x: real): real
    requires |xs| == |ys| >= 2 && Increasing(xs)
  {
    if x >= xs[|xs| - 2] then Linear(xs, ys, x)
    else PositionLow(xs, x); ys[Position(xs, x)]
  }

  lemma {:induction false} PositionLow(xs: seq<real>, x: real)
    requires |xs| >= 2 && Increasing(xs) && x < xs[|xs| - 2]
    ensures Position(xs, x) + 1 < |xs|
  {
    PositionSplits(xs, x);
  }

  /** Both searches denote the stepped value on every axis with two indices or more. */
  lemma {:induction false} OffGridBlend(id: nat, xs: seq<real>, ys: seq<real>, x: real)
    requires |xs| == |ys| >= 2 && Increasing(xs)
    ensures Blend(OffGrid(id, xs, x), ys) == Stepped(xs, ys, x)
  {
    PositionSplits(xs, x);
    var p, n := Position(xs, x), |xs|;
    if p + 1 >= n {
      RatioBounds(xs[n - 2], x, xs[n - 1]);
      if x <= xs[n - 1] {
        LinearAt(xs, ys, x, n - 2);
        BlendIsLine(ys[n - 2], ys[n - 1], OffGrid(id, xs, x).f);
      } else {
        LinearAbove(xs, ys, x);
      }
    } else {
      RatioBounds(xs[p], x, xs[p + 1]);
      assert OffGrid(id, xs, x).f == 0.0;
      if x >= xs[n - 2] {
        assert p == n - 2;
        LinearOnGrid(xs, ys, n - 2);
      }
    }
  }

  lemma {:induction false} BlendIsLine(y0: real, y1: real, f: real)
    ensures Mix(y0, y1, f) == y0 + (y1 - y0) * f
  {
  }

  lemma {:induction false} SteppedOnGrid(xs: seq<real>, ys: seq<real>, x: real)
    requires |xs| == |ys| >= 2 && Increasing(xs) && x in xs
    ensures Position(xs, x) < |xs| && Stepped(xs, ys, x) == ys[Position(xs, x)] == Linear(xs, ys, x)
  {
    PositionOnGrid(xs, x);
    LinearOnGrid(xs, ys, Position(xs, x));
  }

  /** phx_table_axis_get_lerp and phx_table_lerp_axes agree on every table. */
  lemma {:induction false} SearchesAgree(id: nat, xs: seq<real>, ys: seq<real>, x: real)
    requires |xs| == |ys| >= 2 && Increasing(xs)
    ensures AxisLerp(id, xs, x).Some? && LerpAxis(id, xs, x).Some?
    ensures Blend(AxisLerp(id, xs, x).value, ys) == Blend(LerpAxis(id, xs, x).value, ys) == Stepped(xs, ys, x)
  {
    OffGridBlend(id, xs, ys, x);
    if x in xs {
      SteppedOnGrid(xs, ys, x);
    }
  }

  /** The lookup is piecewise linear for every table exactly when the query is
      well placed; between two inner grid points it steps up instead. */
  lemma {:induction false} LookupIsLinearIff(id: nat, xs: seq<real>, x: real)
    requires |xs| >= 2 && Increasing(xs)
    ensures WellPlaced(xs, x) <==>
            forall ys: seq<real> :: |ys| == |xs| ==> Blend(AxisLerp(id, xs, x).value, ys) == Linear(xs, ys, x)
  {
    if WellPlaced(xs, x) {
      forall ys: seq<real> | |ys| == |xs| ensures Blend(AxisLerp(id, xs, x).value, ys) == Linear(xs, ys, x) {
        WellPlacedIsLinear(id, xs, ys, x);
      }
    } else {
      var ys := SteppedWitness(xs, x);
      SearchesAgree(id, xs, ys, x);
    }
  }

  lemma {:induction false} WellPlacedIsLinear(id: nat, xs: seq<real>, ys: seq<real>, x: real)
    requires |xs| == |ys| >= 2 && Increasing(xs) && WellPlaced(xs, x)
    ensures Blend(AxisLerp(id, xs, x).value, ys) == Linear(xs, ys, x)
  {
    SearchesAgree(id, xs, ys, x);
    if x in xs {
      SteppedOnGrid(xs, ys, x);
    } else if x <= xs[0] {
      PositionUnique(xs, x, 0);
    }
  }

  // Between two inner grid points some table tells the step from the line.
  lemma {:induction false} SteppedWitness(xs: seq<real>, x: real) returns (ys: seq<real>)
    requires |xs| >= 2 && Increasing(xs) && !WellPlaced(xs, x)
    ensures |ys| == |xs| && Stepped(xs, ys, x) != Linear(xs, ys, x)
  {
    PositionSplits(xs, x);
    PositionLow(xs, x);
    var p := Position(xs, x);
    ys := seq(|xs|, i => if i == p then 1.0 else 0.0);
    assert x != xs[p];
    LinearAt(xs, ys, x, p - 1);
    var q := (x - xs[p - 1]) / (xs[p] - xs[p - 1]);
    assert q * (xs[p] - xs[p - 1]) == x - xs[p - 1];
    assert q != 1.0;
  }

  /** Saturation: at and beyond either end the lookup is the boundary value. */
  lemma {:induction false} LookupSaturates(id: nat, xs: seq<real>, ys: seq<real>, x: real)
    requires |xs| == |ys| >= 2 && Increasing(xs)
    ensures x <= xs[0] ==> Blend(AxisLerp(id, xs, x).value, ys) == ys[0]
    ensures xs[|xs| - 1] <= x ==> Blend(AxisLerp(id, xs, x).value, ys) == ys[|xs| - 1]
  {
    if x <= xs[0] {
      WellPlacedIsLinear(id, xs, ys, x);
    } else if xs[|xs| - 1] <= x {
      WellPlacedIsLinear(id, xs, ys, x);
      LinearAbove(xs, ys, x);
    }
  }

  ghost predicate Nondecreasing(ys: seq<real>) {
    forall i, j :: 0 <= i <= j < |ys| ==> ys[i] <= ys[j]
  }

  /** A nondecreasing table gives a nondecreasing lookup, steps included. */
  lemma {:induction false} LookupMonotone(id: nat, xs: seq<real>, ys: seq<real>, x: real, x': real)
    requires |xs| == |ys| >= 2 && Increasing(xs) && Nondecreasing(ys) && x <= x'
    ensures Blend(AxisLerp(id, xs, x).value, ys) <= Blend(AxisLerp(id, xs, x').value, ys)
  {
    SearchesAgree(id, xs, ys, x);
    SearchesAgree(id, xs, ys, x');
    var n := |xs|;
    if x < xs[n - 2] {
      PositionLow(xs, x);
      PositionSplits(xs, x);
      if x' < xs[n - 2] {
        PositionSplits(xs, x');
      } else {
        LastIntervalMonotone(xs, ys, xs[n - 2], x');
        LinearOnGrid(xs, ys, n - 2);
      }
    } else {
      LastIntervalMonotone(xs, ys, x, x');
    }
  }

  lemma {:induction false} LastIntervalMonotone(xs: seq<real>, ys: seq<real>, x: real, x': real)
    requires |xs| == |ys| >= 2 && Increasing(xs) && Nondecreasing(ys) && xs[|xs| - 2] <= x <= x'
    ensures Linear(xs, ys, x) <= Linear(xs, ys, x')
  {
    var n := |xs|;
    var a, c, b, d := xs[n - 2], ys[n - 2], xs[n - 1], ys[n - 1];
    LineEnds(a, c, b, d);
    if x <= b {
      LinearAt(xs, ys, x, n - 2);
      LineMonotone(a, c, b, d, x, if x' <= b then x' else b);
    } else {
      LinearAbove(xs, ys, x);
    }
    if x' <= b {
      LinearAt(xs, ys, x', n - 2);
    } else {
      LinearAbove(xs, ys, x');
    }
  }

  /** A weighted neighbour pair stays between the bounds of its two values. */
  lemma {:induction false} MixBetween(y0: real, y1: real, f: real, lo: real, hi: real)
    requires 0.0 <= f <= 1.0 && lo <= y0 <= hi && lo <= y1 <= hi
    ensures lo <= Mix(y0, y1, f) <= hi
  {
    MixAbove(y0, y1, f, lo);
    MixAbove(-y0, -y1, f, -hi);
    assert -y0 * (1.0 - f) + -y1 * f == -(y0 * (1.0 - f) + y1 * f);
  }

  lemma {:induction false} MixAbove(y0: real, y1: real, f: real, lo: real)
    requires 0.0 <= f <= 1.0 && lo <= y0 && lo <= y1
    ensures lo <= Mix(y0, y1, f)
  {
    PositiveProduct(y0 - lo, 1.0 - f);
    PositiveProduct(y1 - lo, f);
    assert (y0 - lo) * (1.0 - f) + (y1 - lo) * f == y0 * (1.0 - f) + y1 * f - lo;
  }

  /** Three indices are enough for a query between the first two to read the
      second value instead of the midpoint. */
  lemma {:induction false} StepsUpExample()
    ensures AxisLerp(0, [0.0, 2.0, 4.0], 1.0).Some?
    ensures Blend(AxisLerp(0, [0.0, 2.0, 4.0], 1.0).value, [10.0, 20.0, 30.0]) == 20.0
    ensures Linear([0.0, 2.0, 4.0], [10.0, 20.0, 30.0], 1.0) == 15.0
  {
    var xs := [0.0, 2.0, 4.0];
    PositionUnique(xs, 1.0, 1);
    SearchesAgree(0, xs, [10.0, 20.0, 30.0], 1.0);
  }
}
