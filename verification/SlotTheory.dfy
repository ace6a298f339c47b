/** What the interpolation slots of the strided copy denote, for any number of
    interpolated axes, against plain multilinear interpolation. */
module SlotTheory {
  import opened MixedRadix
  import opened AxisLookup
  import opened Tables
  import opened TableCopy

  ghost predicate Weights(axes: seq<Axis>, lerps: seq<Lerp>) {
    forall j :: 0 <= j < |lerps| ==> Has(axes, lerps[j].axisId) && 0.0 <= lerps[j].f <= 1.0
  }

  // An upper bound for the offsets any lookup with these lerps reads.
  ghost function Reach(axes: seq<Axis>, lerps: seq<Lerp>): nat {
    if lerps == [] then 0
    else
      var l := lerps[|lerps| - 1];
      Reach(axes, lerps[..|lerps| - 1]) + (if l.lower > l.upper then l.lower else l.upper) * StrideIn(axes, l.axisId)
  }

  /** Reference: interpolate along one axis after the other. */
  ghost function Multilinear(data: seq<real>, axes: seq<Axis>, offset: nat, lerps: seq<Lerp>): real
    requires offset + Reach(axes, lerps) < |data|
    decreases |lerps|
  {
    if lerps == [] then data[offset]
    else
      var n := |lerps| - 1;
      var l, s := lerps[n], StrideIn(axes, lerps[n].axisId);
      StepReach(axes, lerps);
      Mix(Multilinear(data, axes, offset + l.lower * s, lerps[..n]), Multilinear(data, axes, offset + l.upper * s, lerps[..n]), l.f)
  }

  lemma {:induction false} StepReach(axes: seq<Axis>, lerps: seq<Lerp>)
    requires lerps != []
    ensures var n, l := |lerps| - 1, lerps[|lerps| - 1];
            && Reach(axes, lerps[..n]) + l.lower * StrideIn(axes, l.axisId) <= Reach(axes, lerps)
            && Reach(axes, lerps[..n]) + l.upper * StrideIn(axes, l.axisId) <= Reach(axes, lerps)
  {
    var l, s := lerps[|lerps| - 1], StrideIn(axes, lerps[|lerps| - 1].axisId);
    MulMonotone(l.lower, l.upper, s);
    MulMonotone(l.upper, l.lower, s);
  }

  lemma {:induction false} SlotsReach(axes: seq<Axis>, lerps: seq<Lerp>)
    ensures forall v :: 0 <= v < |Slots(axes, lerps)| ==> Slots(axes, lerps)[v].base <= Reach(axes, lerps)
  {
    if lerps != [] {
      SlotsReach(axes, lerps[..|lerps| - 1]);
      StepReach(axes, lerps);
    }
  }

  function Power(n: nat): (p: real)
    ensures p >= 1.0
  {
    if n == 0 then 1.0 else 2.0 * Power(n - 1)
  }

  // --- The sum over a doubled list of slots --------------------------------

  lemma {:induction false} WithinAppend(s: seq<Slot>, t: seq<Slot>, offset: nat, n: nat)
    ensures SlotsWithin(s + t, offset, n) <==> SlotsWithin(s, offset, n) && SlotsWithin(t, offset, n)
  {
    assert forall v :: 0 <= v < |s| ==> (s + t)[v] == s[v];
    assert forall v :: 0 <= v < |t| ==> (s + t)[|s| + v] == t[v];
  }

  lemma {:induction false} SumSnoc(data: seq<real>, offset: nat, s: seq<Slot>, x: Slot)
    requires SlotsWithin(s, offset, |data|) && offset + x.base < |data|
    ensures SlotsWithin(s + [x], offset, |data|)
    ensures SlotSum(data, offset, s + [x]) == SlotSum(data, offset, s) + data[offset + x.base] * x.weight
  {
    WithinAppend(s, [x], offset, |data|);
    assert (s + [x])[..|s|] == s;
  }

  lemma {:induction false} SumAppend(data: seq<real>, offset: nat, s: seq<Slot>, t: seq<Slot>)
    requires SlotsWithin(s, offset, |data|) && SlotsWithin(t, offset, |data|)
    ensures SlotsWithin(s + t, offset, |data|)
    ensures SlotSum(data, offset, s + t) == SlotSum(data, offset, s) + SlotSum(data, offset, t)
    decreases |t|
  {
    WithinAppend(s, t, offset, |data|);
    if t == [] {
      assert s + t == s;
    } else {
      var n := |t| - 1;
      assert t == t[..n] + [t[n]] && s + t == (s + t[..n]) + [t[n]];
      WithinAppend(t[..n], [t[n]], offset, |data|);
      SumAppend(data, offset, s, t[..n]);
      SumSnoc(data, offset, s + t[..n], t[n]);
    }
  }

  lemma {:induction false} SumShifted(data: seq<real>, offset: nat, s: seq<Slot>, d: nat, g: real)
    requires SlotsWithin(s, offset + d, |data|)
    ensures SlotsWithin(Shifted(s, d, g), offset, |data|)
    ensures SlotSum(data, offset, Shifted(s, d, g)) == SlotSum(data, offset + d, s) * g
  {
    if s != [] {
      var n := |s| - 1;
      var x := ShiftSlot(s[n], d, g);
      assert Shifted(s, d, g) == Shifted(s[..n], d, g) + [x];
      SumShifted(data, offset, s[..n], d, g);
      SumSnoc(data, offset, Shifted(s[..n], d, g), x);
      Distribute(SlotSum(data, offset + d, s[..n]), data[offset + d + s[n].base], s[n].weight, g);
    }
  }

  lemma {:induction false} Distribute(a: real, d: real, w: real, g: real)
    ensures (a + d * w) * g == a * g + d * (w * g)
  {
    assert d * (w * g) == d * w * g;
  }

  lemma {:induction false} SumRepeated(data: seq<real>, offset: nat, n: nat, x: Slot)
    requires offset + x.base < |data|
    ensures SlotsWithin(Repeated(n, x), offset, |data|)
    ensures SlotSum(data, offset, Repeated(n, x)) == data[offset + x.base] * x.weight * (n as real)
  {
    if n > 0 {
      assert Repeated(n, x) == Repeated(n - 1, x) + [x];
      SumRepeated(data, offset, n - 1, x);
      SumSnoc(data, offset, Repeated(n - 1, x), x);
      OneMore(data[offset + x.base] * x.weight, n - 1);
    }
  }

  lemma {:induction false} OneMore(d: real, n: nat)
    ensures d * ((n + 1) as real) == d * (n as real) + d
  {
    assert (n + 1) as real == (n as real) + 1.0;
  }

  // The lower half sums to a, the upper half - one slot, read once per earlier slot - to b.
  lemma {:induction false} SumDoubled(data: seq<real>, offset: nat, s: seq<Slot>, lo: nat, hi: nat, g: real, f: real) returns (a: real, b: real)
    requires SlotsWithin(s, offset + lo, |data|) && offset + hi < |data|
    ensures SlotsWithin(Shifted(s, lo, g) + Repeated(|s|, Slot(hi, f)), offset, |data|)
    ensures SlotSum(data, offset, Shifted(s, lo, g) + Repeated(|s|, Slot(hi, f))) == a + b
    ensures a == SlotSum(data, offset + lo, s) * g
    ensures b == data[offset + hi] * f * (|s| as real)
  {
    SumShifted(data, offset, s, lo, g);
    SumRepeated(data, offset, |s|, Slot(hi, f));
    a, b := SlotSum(data, offset, Shifted(s, lo, g)), SlotSum(data, offset, Repeated(|s|, Slot(hi, f)));
    SumAppend(data, offset, Shifted(s, lo, g), Repeated(|s|, Slot(hi, f)));
  }

  // The slots of one more interpolated axis, and the offsets they stay within.
  lemma {:induction false} SlotsDouble(axes: seq<Axis>, lerps: seq<Lerp>, offset: nat, n: nat) returns (s: seq<Slot>, lo: nat, hi: nat)
    requires lerps != [] && Has(axes, lerps[|lerps| - 1].axisId) && offset + Reach(axes, lerps) < n
    ensures var l := lerps[|lerps| - 1];
            && s == Slots(axes, lerps[..|lerps| - 1])
            && lo == l.lower * StrideIn(axes, l.axisId) && hi == l.upper * StrideIn(axes, l.axisId)
            && Slots(axes, lerps) == Shifted(s, lo, 1.0 - l.f) + Repeated(|s|, Slot(hi, l.f))
    ensures SlotsWithin(s, offset + lo, n) && offset + hi < n
    ensures offset + lo + Reach(axes, lerps[..|lerps| - 1]) < n && offset + hi + Reach(axes, lerps[..|lerps| - 1]) < n
  {
    var l := lerps[|lerps| - 1];
    s := Slots(axes, lerps[..|lerps| - 1]);
    lo, hi := l.lower * StrideIn(axes, l.axisId), l.upper * StrideIn(axes, l.axisId);
    SlotsReach(axes, lerps[..|lerps| - 1]);
    StepReach(axes, lerps);
  }

  // --- Exactly when the slots are right ------------------------------------

  // Only the first interpolated axis has a weight.
  ghost predicate OnlyFirstWeighs(lerps: seq<Lerp>) {
    forall j :: 1 <= j < |lerps| ==> lerps[j].f == 0.0
  }

  lemma {:induction false} SlotsExact(data: seq<real>, axes: seq<Axis>, offset: nat, lerps: seq<Lerp>)
    requires Weights(axes, lerps) && OnlyFirstWeighs(lerps) && offset + Reach(axes, lerps) < |data|
    ensures SlotsDenote(data, axes, offset, lerps)
    decreases |lerps|
  {
    if lerps == [] {
      NoLerp(data, offset);
    } else {
      var n, l := |lerps| - 1, lerps[|lerps| - 1];
      var s, lo, hi := SlotsDouble(axes, lerps, offset, |data|);
      SlotsExact(data, axes, offset + lo, lerps[..n]);
      FirstOrWeightless(data, axes, offset + hi, lerps, s);
      MixedSum(data, offset, s, lo, hi, l.f, SlotSum(data, offset + lo, s), Multilinear(data, axes, offset + hi, lerps[..n]));
      MultilinearStep(data, axes, offset, lerps, lo, hi);
    }
  }

  lemma {:induction false} FirstOrWeightless(data: seq<real>, axes: seq<Axis>, offset: nat, lerps: seq<Lerp>, s: seq<Slot>)
    requires lerps != [] && OnlyFirstWeighs(lerps) && s == Slots(axes, lerps[..|lerps| - 1])
    requires offset + Reach(axes, lerps[..|lerps| - 1]) < |data|
    ensures lerps[|lerps| - 1].f == 0.0 || (|s| == 1 && data[offset] == Multilinear(data, axes, offset, lerps[..|lerps| - 1]))
  {
    if |lerps| == 1 {
      assert lerps[..0] == [];
    }
  }

  lemma {:induction false} MultilinearStep(data: seq<real>, axes: seq<Axis>, offset: nat, lerps: seq<Lerp>, lo: nat, hi: nat)
    requires lerps != [] && offset + Reach(axes, lerps) < |data|
    requires lo == lerps[|lerps| - 1].lower * StrideIn(axes, lerps[|lerps| - 1].axisId)
    requires hi == lerps[|lerps| - 1].upper * StrideIn(axes, lerps[|lerps| - 1].axisId)
    requires offset + lo + Reach(axes, lerps[..|lerps| - 1]) < |data| && offset + hi + Reach(axes, lerps[..|lerps| - 1]) < |data|
    ensures Multilinear(data, axes, offset, lerps) ==
            Mix(Multilinear(data, axes, offset + lo, lerps[..|lerps| - 1]), Multilinear(data, axes, offset + hi, lerps[..|lerps| - 1]), lerps[|lerps| - 1].f)
  {
  }

  // With one earlier slot, or no weight, the doubled slots interpolate.
  lemma {:induction false} MixedSum(data: seq<real>, offset: nat, s: seq<Slot>, lo: nat, hi: nat, f: real, y0: real, y1: real)
    requires SlotsWithin(s, offset + lo, |data|) && offset + hi < |data| && y0 == SlotSum(data, offset + lo, s)
    requires f == 0.0 || (|s| == 1 && data[offset + hi] == y1)
    ensures SlotsWithin(Shifted(s, lo, 1.0 - f) + Repeated(|s|, Slot(hi, f)), offset, |data|)
    ensures SlotSum(data, offset, Shifted(s, lo, 1.0 - f) + Repeated(|s|, Slot(hi, f))) == Mix(y0, y1, f)
  {
    var a, b := SumDoubled(data, offset, s, lo, hi, 1.0 - f, f);
    SameMix(a, b, y0, data[offset + hi], f, |s| as real, y1);
  }

  lemma {:induction false} SameMix(a: real, b: real, y0: real, d: real, f: real, k: real, y1: real)
    requires a == y0 * (1.0 - f) && b == d * f * k
    requires f == 0.0 || (d == y1 && k == 1.0)
    ensures a + b == Mix(y0, y1, f)
  {
    if f == 0.0 {
      assert d * f == 0.0 && y1 * f == 0.0;
    }
  }

  lemma {:induction false} NoLerp(data: seq<real>, offset: nat)
    requires offset < |data|
    ensures SlotsWithin([Slot(0, 1.0)], offset, |data|) && SlotSum(data, offset, [Slot(0, 1.0)]) == data[offset]
  {
    SumSnoc(data, offset, [], Slot(0, 1.0));
    assert [] + [Slot(0, 1.0)] == [Slot(0, 1.0)];
  }

  ghost predicate AllOnes(data: seq<real>) {
    forall i :: 0 <= i < |data| ==> data[i] == 1.0
  }

  lemma {:induction false} OnesMultilinear(data: seq<real>, axes: seq<Axis>, offset: nat, lerps: seq<Lerp>)
    requires offset + Reach(axes, lerps) < |data| && AllOnes(data)
    ensures Multilinear(data, axes, offset, lerps) == 1.0
    decreases |lerps|
  {
    if lerps != [] {
      var n, l := |lerps| - 1, lerps[|lerps| - 1];
      StepReach(axes, lerps);
      OnesMultilinear(data, axes, offset + l.lower * StrideIn(axes, l.axisId), lerps[..n]);
      OnesMultilinear(data, axes, offset + l.upper * StrideIn(axes, l.axisId), lerps[..n]);
    }
  }

  lemma {:induction false} SlotCount(axes: seq<Axis>, lerps: seq<Lerp>)
    requires Weights(axes, lerps)
    ensures |Slots(axes, lerps)| as real == Power(|lerps|)
  {
    if lerps != [] {
      SlotCount(axes, lerps[..|lerps| - 1]);
    }
  }

  // On a table of ones the slots give at least one, and exactly one only when
  // no axis after the first has a weight.
  ghost predicate OnesBounds(data: seq<real>, axes: seq<Axis>, offset: nat, lerps: seq<Lerp>)
    requires lerps != []
  {
    && SlotsWithin(Slots(axes, lerps), offset, |data|)
    && 1.0 <= SlotSum(data, offset, Slots(axes, lerps)) <= Power(|lerps| - 1)
    && (SlotSum(data, offset, Slots(axes, lerps)) == 1.0 <==> OnlyFirstWeighs(lerps))
  }

  lemma {:induction false} OnesSlots(data: seq<real>, axes: seq<Axis>, offset: nat, lerps: seq<Lerp>)
    requires Weights(axes, lerps) && lerps != [] && offset + Reach(axes, lerps) < |data| && AllOnes(data)
    ensures OnesBounds(data, axes, offset, lerps)
    decreases |lerps|
  {
    var n := |lerps| - 1;
    if n == 0 {
      OnesFirst(data, axes, offset, lerps);
    } else {
      var s, lo, hi := OnesDouble(axes, lerps, offset, |data|);
      OnesSlots(data, axes, offset + lo, lerps[..n]);
      OnesStep(data, axes, offset, lerps, s, lo, hi);
    }
  }

  lemma {:induction false} OnesFirst(data: seq<real>, axes: seq<Axis>, offset: nat, lerps: seq<Lerp>)
    requires Weights(axes, lerps) && |lerps| == 1 && offset + Reach(axes, lerps) < |data| && AllOnes(data)
    ensures OnesBounds(data, axes, offset, lerps)
  {
    SlotsExact(data, axes, offset, lerps);
    OnesMultilinear(data, axes, offset, lerps);
  }

  // The slots are those before the last axis, shifted, and one for each of them.
  ghost predicate IsDoubled(axes: seq<Axis>, lerps: seq<Lerp>, s: seq<Slot>, lo: nat, hi: nat)
    requires |lerps| >= 2 && Weights(axes, lerps)
  {
    && 0.0 <= lerps[|lerps| - 1].f <= 1.0
    && s == Slots(axes, lerps[..|lerps| - 1]) && |s| as real == Power(|lerps| - 1)
    && Slots(axes, lerps) == Shifted(s, lo, 1.0 - lerps[|lerps| - 1].f) + Repeated(|s|, Slot(hi, lerps[|lerps| - 1].f))
  }

  lemma {:induction false} OnesDouble(axes: seq<Axis>, lerps: seq<Lerp>, offset: nat, n: nat) returns (s: seq<Slot>, lo: nat, hi: nat)
    requires |lerps| >= 2 && Weights(axes, lerps) && offset + Reach(axes, lerps) < n
    ensures IsDoubled(axes, lerps, s, lo, hi) && Weights(axes, lerps[..|lerps| - 1])
    ensures offset + hi < n && offset + lo + Reach(axes, lerps[..|lerps| - 1]) < n
  {
    s, lo, hi := SlotsDouble(axes, lerps, offset, n);
    SlotCount(axes, lerps[..|lerps| - 1]);
  }

  lemma {:induction false} OnesStep(data: seq<real>, axes: seq<Axis>, offset: nat, lerps: seq<Lerp>, s: seq<Slot>, lo: nat, hi: nat)
    requires |lerps| >= 2 && Weights(axes, lerps) && AllOnes(data) && offset + hi < |data|
    requires IsDoubled(axes, lerps, s, lo, hi)
    requires OnesBounds(data, axes, offset + lo, lerps[..|lerps| - 1])
    ensures OnesBounds(data, axes, offset, lerps)
  {
    assert Power(|lerps| - 1) > Power(|lerps| - 2);
    GrowingSlots(data, offset, s, lo, hi, lerps[|lerps| - 1].f, SlotSum(data, offset + lo, s));
    OnlyFirstStep(lerps);
  }

  lemma {:induction false} GrowingSlots(data: seq<real>, offset: nat, s: seq<Slot>, lo: nat, hi: nat, f: real, w: real)
    requires SlotsWithin(s, offset + lo, |data|) && offset + hi < |data| && w == SlotSum(data, offset + lo, s)
    requires data[offset + hi] == 1.0 && 1.0 <= w < |s| as real && 0.0 <= f <= 1.0
    ensures var t := Shifted(s, lo, 1.0 - f) + Repeated(|s|, Slot(hi, f));
            SlotsWithin(t, offset, |data|) && w <= SlotSum(data, offset, t) <= |s| as real && (SlotSum(data, offset, t) == w <==> f == 0.0)
  {
    var a, b := SumDoubled(data, offset, s, lo, hi, 1.0 - f, f);
    GrowingSum(w, |s| as real, f, data[offset + hi], a, b);
  }

  lemma {:induction false} OnlyFirstStep(lerps: seq<Lerp>)
    requires |lerps| >= 2
    ensures OnlyFirstWeighs(lerps) <==> OnlyFirstWeighs(lerps[..|lerps| - 1]) && lerps[|lerps| - 1].f == 0.0
  {
    assert forall j :: 1 <= j < |lerps| - 1 ==> lerps[..|lerps| - 1][j] == lerps[j];
  }

  // w' = w(1 - f) + fp stays between w and p, and leaves w only with a weight.
  lemma {:induction false} GrowingSum(w: real, p: real, f: real, d: real, a: real, b: real)
    requires 1.0 <= w < p && 0.0 <= f <= 1.0 && d == 1.0
    requires a == w * (1.0 - f) && b == d * f * p
    ensures w <= a + b <= p && (a + b == w <==> f == 0.0)
  {
    assert d * f == f;
    GrowingMix(w, p, f);
  }

  lemma {:induction false} GrowingMix(w: real, p: real, f: real)
    requires 1.0 <= w < p && 0.0 <= f <= 1.0
    ensures w <= Mix(w, p, f) <= p && (Mix(w, p, f) == w <==> f == 0.0)
  {
    var d, g := p - w, 1.0 - f;
    PositiveProduct(d, f);
    PositiveProduct(d, g);
    MixSteps(w, p, d, f, g);
  }

  lemma {:induction false} MixSteps(w: real, p: real, d: real, f: real, g: real)
    requires d == p - w && g == 1.0 - f
    ensures Mix(w, p, f) == w + d * f && Mix(w, p, f) == p - d * g
  {
  }

  /** The copy's weighted sum is the multilinear value of every table exactly
      when no interpolated axis but the first has a weight.  Every caller
      interpolates along at most one axis. */
  lemma {:induction false} SlotsExactIff(axes: seq<Axis>, offset: nat, lerps: seq<Lerp>)
    requires Weights(axes, lerps)
    ensures OnlyFirstWeighs(lerps) <==>
            forall data: seq<real> :: offset + Reach(axes, lerps) < |data| ==> SlotsDenote(data, axes, offset, lerps)
  {
    if OnlyFirstWeighs(lerps) {
      forall data: seq<real> | offset + Reach(axes, lerps) < |data| ensures SlotsDenote(data, axes, offset, lerps) {
        SlotsExact(data, axes, offset, lerps);
      }
    } else {
      var data := seq(offset + Reach(axes, lerps) + 1, i => 1.0);
      OnesSlots(data, axes, offset, lerps);
      OnesMultilinear(data, axes, offset, lerps);
      assert !SlotsDenote(data, axes, offset, lerps);
    }
  }

  ghost predicate SlotsDenote(data: seq<real>, axes: seq<Axis>, offset: nat, lerps: seq<Lerp>)
    requires offset + Reach(axes, lerps) < |data|
  {
    && SlotsWithin(Slots(axes, lerps), offset, |data|)
    && SlotSum(data, offset, Slots(axes, lerps)) == Multilinear(data, axes, offset, lerps)
  }

  /** Half way between four ones on a grid of two by two: the slots weigh one and a half. */
  lemma {:induction false} HalfWayExample()
    ensures var axes := [Axis(0, 1, [0.0, 1.0]), Axis(1, 2, [0.0, 1.0])];
            var lerps := [Lerp(0, 0, 1, 0.5), Lerp(1, 0, 1, 0.5)];
            && Slots(axes, lerps) == [Slot(0, 0.25), Slot(1, 0.25), Slot(2, 0.5), Slot(2, 0.5)]
            && Reach(axes, lerps) == 3 && SlotsWithin(Slots(axes, lerps), 0, 4)
            && Multilinear([1.0, 1.0, 1.0, 1.0], axes, 0, lerps) == 1.0
            && SlotSum([1.0, 1.0, 1.0, 1.0], 0, Slots(axes, lerps)) == 1.5
  {
    var axes := [Axis(0, 1, [0.0, 1.0]), Axis(1, 2, [0.0, 1.0])];
    var first, second := Lerp(0, 0, 1, 0.5), Lerp(1, 0, 1, 0.5);
    var lerps := [first, second];
    assert lerps[..1] == [first] && [first][..0] == [];
    assert StrideIn(axes, 0) == 1 && StrideIn(axes, 1) == 2;
    assert Slots(axes, [first]) == [Slot(0, 0.5), Slot(1, 0.5)];
    assert Slots(axes, lerps) == [Slot(0, 0.25), Slot(1, 0.25), Slot(2, 0.5), Slot(2, 0.5)];
    assert Reach(axes, []) == 0 && Reach(axes, [first]) == 1;
    OnesMultilinear([1.0, 1.0, 1.0, 1.0], axes, 0, lerps);
    OverweightSum();
  }

  lemma {:induction false} OverweightSum()
    ensures var slots := [Slot(0, 0.25), Slot(1, 0.25), Slot(2, 0.5), Slot(2, 0.5)];
            SlotsWithin(slots, 0, 4) && SlotSum([1.0, 1.0, 1.0, 1.0], 0, slots) == 1.5
  {
    var data, a, b := [1.0, 1.0, 1.0, 1.0], [Slot(0, 0.25)], [Slot(0, 0.25), Slot(1, 0.25)];
    assert a[..0] == [];
    assert b == a + [Slot(1, 0.25)];
    SumSnoc(data, 0, a, Slot(1, 0.25));
    SumSnoc(data, 0, b, Slot(2, 0.5));
    SumSnoc(data, 0, b + [Slot(2, 0.5)], Slot(2, 0.5));
    assert b + [Slot(2, 0.5)] + [Slot(2, 0.5)] == [Slot(0, 0.25), Slot(1, 0.25), Slot(2, 0.5), Slot(2, 0.5)];
  }
}
