/** The strided, interpolating copy between two tables (phx_table_copy_values). */
module TableCopy {
  import opened MixedRadix
  import opened AxisLookup
  import opened Tables
  import opened TableObjects

  // --- Which axes the copy walks ------------------------------------------

  function Selected(axes: seq<Axis>, axesSet: set<nat>): (sel: seq<Axis>) {
    if axes == [] then []
    else
      var n := |axes| - 1;
      Selected(axes[..n], axesSet) + if axes[n].id in axesSet then [axes[n]] else []
  }

  lemma {:induction false} SelectedIn(axes: seq<Axis>, axesSet: set<nat>)
    ensures forall a :: a in Selected(axes, axesSet) ==> a in axes && a.id in axesSet
  {
    if axes != [] {
      var n := |axes| - 1;
      SelectedIn(axes[..n], axesSet);
      assert forall a :: a in axes[..n] ==> a in axes;
    }
  }

  // Strides in the source along the walked axes, zero where it has no such axis.
  function SourceStrides(sel: seq<Axis>, src: seq<Axis>): (s: seq<nat>)
    ensures |s| == |sel|
  {
    seq(|sel|, k requires 0 <= k < |sel| => StrideIn(src, sel[k].id))
  }

  ghost predicate SameSizes(sel: seq<Axis>, src: seq<Axis>) {
    forall k :: 0 <= k < |sel| ==> SameSize(sel[k], src)
  }

  ghost predicate SameSize(a: Axis, src: seq<Axis>) {
    Has(src, a.id) ==> |src[Find(src, a.id)].indices| == |a.indices|
  }

  // --- Which source slots one destination value reads ---------------------

  /** A source offset and the weight its value is multiplied with. */
  datatype Slot = Slot(base: nat, weight: real)

  /** The slots as the program builds them: the upper half of each doubling
      starts over from the new axis instead of extending the earlier offsets. */
  function Slots(axes: seq<Axis>, lerps: seq<Lerp>): (s: seq<Slot>)
    ensures |s| >= 1
  {
    if lerps == [] then [Slot(0, 1.0)]
    else
      var n := |lerps| - 1;
      var s, l := Slots(axes, lerps[..n]), lerps[n];
      if Has(axes, l.axisId) then Doubled(s, l, StrideIn(axes, l.axisId)) else s
  }

  function Doubled(s: seq<Slot>, l: Lerp, stride: nat): seq<Slot> {
    Shifted(s, l.lower * stride, 1.0 - l.f) + Repeated(|s|, Slot(l.upper * stride, l.f))
  }

  function Weighed(w: real, g: real): real {
    w * g
  }

  function ShiftSlot(x: Slot, d: nat, g: real): Slot {
    Slot(x.base + d, Weighed(x.weight, g))
  }

  // Every slot moved by d and weighed with g.
  function Shifted(s: seq<Slot>, d: nat, g: real): (r: seq<Slot>)
    ensures |r| == |s|
  {
    seq(|s|, v requires 0 <= v < |s| => ShiftSlot(s[v], d, g))
  }

  function Repeated(n: nat, x: Slot): (r: seq<Slot>)
    ensures |r| == n
  {
    seq(n, v => x)
  }

  ghost predicate SlotsWithin(slots: seq<Slot>, offset: nat, n: nat) {
    forall v :: 0 <= v < |slots| ==> offset + slots[v].base < n
  }

  function SlotSum(data: seq<real>, offset: nat, slots: seq<Slot>): real
    requires SlotsWithin(slots, offset, |data|)
  {
    if slots == [] then 0.0
    else
      var n := |slots| - 1;
      SlotSum(data, offset, slots[..n]) + data[offset + slots[n].base] * slots[n].weight
  }

  lemma {:induction false} SelectedStep(axes: seq<Axis>, u: nat, axesSet: set<nat>, src: seq<Axis>)
    requires u < |axes|
    ensures var sel, sel' := Selected(axes[..u], axesSet), Selected(axes[..u + 1], axesSet);
            if axes[u].id in axesSet then
              && Sizes(sel') == Sizes(sel) + [|axes[u].indices|]
              && Strides(sel') == Strides(sel) + [axes[u].stride]
              && SourceStrides(sel', src) == SourceStrides(sel, src) + [StrideIn(src, axes[u].id)]
            else sel' == sel
  {
    assert axes[..u + 1][..u] == axes[..u];
  }

  lemma {:induction false} AbsentAxis(t: Table, id: nat)
    requires t.FormatValid()
    requires (t.fmt == null || id !in t.fmt.axesSet) && id < MAX_AXES
    ensures !Has(t.Axes(), id)
  {
    if t.fmt != null {
      assert ListedId(t.fmt.axes, t.fmt.lookup, t.fmt.axesSet, id);
    }
  }

  // --- The loops -----------------------------------------------------------

  // Maximum index and both strides for each walked axis; one idle loop for a scalar.
  method Loops(axesSet: set<nat>, dst: Table, src: Table) returns (max: seq<nat>, dstStride: seq<nat>, srcStride: seq<nat>)
    requires dst.FormatValid() && src.FormatValid()
    requires SameSizes(Selected(dst.Axes(), axesSet), src.Axes())
    ensures dst.fmt == null ==> max == [1] && dstStride == [0] && srcStride == [0]
    ensures dst.fmt != null ==>
              var sel := Selected(dst.Axes(), axesSet);
              max == Sizes(sel) && dstStride == Strides(sel) && srcStride == SourceStrides(sel, src.Axes())
  {
    max, dstStride, srcStride := [], [], [];
    if dst.fmt == null {
      return [1], [0], [0];
    }
    var u := 0;
    while u < |dst.fmt.axes|
      invariant u <= |dst.fmt.axes|
      invariant var sel := Selected(dst.fmt.axes[..u], axesSet);
                max == Sizes(sel) && dstStride == Strides(sel) && srcStride == SourceStrides(sel, src.Axes())
    {
      var axis := dst.fmt.axes[u];
      SelectedStep(dst.fmt.axes, u, axesSet, src.Axes());
      if axis.id in axesSet {
        max, dstStride := max + [|axis.indices|], dstStride + [axis.stride];
        if src.fmt != null && axis.id in src.fmt.axesSet {
          var k := src.fmt.GetAxis(axis.id);
          assert StrideIn(src.Axes(), axis.id) == src.fmt.axes[k].stride;
          srcStride := srcStride + [src.fmt.axes[k].stride];
        } else {
          AbsentAxis(src, axis.id);
          srcStride := srcStride + [0];
        }
      }
      u := u + 1;
    }
    assert dst.fmt.axes[..u] == dst.fmt.axes;
  }

  function Pow2(n: nat): (p: nat)
    ensures p > 0
  {
    if n == 0 then 1 else 2 * Pow2(n - 1)
  }

  // The first entries of the two arrays hold the slots.
  ghost predicate Holds(base: array<nat>, weight: array<real>, s: seq<Slot>)
    reads base, weight
  {
    && |s| <= base.Length && |s| <= weight.Length
    && forall v :: 0 <= v < |s| ==> s[v] == Slot(base[v], weight[v])
  }

  // lerp_base and lerp_f, doubled in place once per interpolated axis.
  method LerpSlots(src: Table, lerps: seq<Lerp>) returns (base: array<nat>, weight: array<real>, num: nat)
    requires src.FormatValid()
    requires forall l :: l in lerps ==> l.axisId < MAX_AXES
    ensures fresh(base) && fresh(weight) && num == |Slots(src.Axes(), lerps)|
    ensures Holds(base, weight, Slots(src.Axes(), lerps))
  {
    base := new nat[Pow2(|lerps|)](_ => 0);
    weight := new real[Pow2(|lerps|)](_ => 0.0);
    base[0], weight[0], num := 0, 1.0, 1;
    if src.fmt == null {
      ScalarSlots(lerps);
      return;
    }
    ghost var axes := src.fmt.axes;
    var u := 0;
    while u < |lerps|
      invariant u <= |lerps| && base.Length == weight.Length == Pow2(|lerps|)
      invariant num == |Slots(axes, lerps[..u])| <= Pow2(u)
      invariant Holds(base, weight, Slots(axes, lerps[..u]))
    {
      SlotsStep(axes, lerps, u);
      Pow2Monotone(u + 1, |lerps|);
      num := AddLerp(src, lerps[u], base, weight, num, Slots(axes, lerps[..u]));
      u := u + 1;
    }
    assert lerps[..u] == lerps;
  }

  // One interpolated axis doubles the slots, unless the source does not have it.
  method AddLerp(src: Table, l: Lerp, base: array<nat>, weight: array<real>, num: nat, ghost s: seq<Slot>) returns (num': nat)
    requires src.fmt != null && src.FormatValid() && l.axisId < MAX_AXES
    requires num == |s| && 2 * num <= base.Length && 2 * num <= weight.Length && Holds(base, weight, s)
    modifies base, weight
    ensures var s' := if Has(src.Axes(), l.axisId) then Doubled(s, l, StrideIn(src.Axes(), l.axisId)) else s;
            num' == |s'| && Holds(base, weight, s')
  {
    if l.axisId in src.fmt.axesSet {
      var k := src.fmt.GetAxis(l.axisId);
      Double(base, weight, num, l, src.fmt.axes[k].stride, s);
      num' := 2 * num;
    } else {
      AbsentAxis(src, l.axisId);
      num' := num;
    }
  }

  lemma {:induction false} SlotsStep(axes: seq<Axis>, lerps: seq<Lerp>, u: nat)
    requires u < |lerps|
    ensures var s, l := Slots(axes, lerps[..u]), lerps[u];
            Slots(axes, lerps[..u + 1]) ==
            if Has(axes, l.axisId) then Doubled(s, l, StrideIn(axes, l.axisId)) else s
  {
    assert lerps[..u + 1][..u] == lerps[..u];
  }

  method Double(base: array<nat>, weight: array<real>, num: nat, l: Lerp, stride: nat, ghost s: seq<Slot>)
    requires num == |s| && 2 * num <= base.Length && 2 * num <= weight.Length && Holds(base, weight, s)
    modifies base, weight
    ensures Holds(base, weight, Doubled(s, l, stride))
  {
    DoubleLoop(base, weight, num, l.lower * stride, l.upper * stride, 1.0 - l.f, l.f, s);
  }

  method DoubleLoop(base: array<nat>, weight: array<real>, num: nat, lower: nat, upper: nat, g: real, f: real, ghost s: seq<Slot>)
    requires num == |s| && 2 * num <= base.Length && 2 * num <= weight.Length && Holds(base, weight, s)
    modifies base, weight
    ensures Holds(base, weight, Shifted(s, lower, g) + Repeated(num, Slot(upper, f)))
  {
    hide ShiftSlot, Shifted, Repeated, Weighed;
    ghost var b0, w0 := base[..], weight[..];
    var v := 0;
    while v < num
      invariant v <= num
      invariant forall i :: 0 <= i < v ==> base[i] == b0[i] + lower && weight[i] == Weighed(w0[i], g)
      invariant forall i :: num <= i < num + v ==> base[i] == upper && weight[i] == f
      invariant forall i :: v <= i < num ==> base[i] == b0[i] && weight[i] == w0[i]
    {
      base[v], base[v + num] := base[v] + lower, upper;
      weight[v], weight[v + num] := Weighed(weight[v], g), f;
      v := v + 1;
    }
    DoubledHolds(b0, w0, base[..], weight[..], lower, upper, g, f, s);
  }

  lemma {:induction false} DoubledHolds(b0: seq<nat>, w0: seq<real>, b: seq<nat>, w: seq<real>, lower: nat, upper: nat, g: real, f: real, s: seq<Slot>)
    requires |b0| == |b| >= 2 * |s| && |w0| == |w| >= 2 * |s|
    requires forall v :: 0 <= v < |s| ==> s[v] == Slot(b0[v], w0[v]) && b[v] == b0[v] + lower && w[v] == Weighed(w0[v], g)
    requires forall v :: |s| <= v < 2 * |s| ==> b[v] == upper && w[v] == f
    ensures forall v :: 0 <= v < 2 * |s| ==> (Shifted(s, lower, g) + Repeated(|s|, Slot(upper, f)))[v] == Slot(b[v], w[v])
  {
  }

  lemma {:induction false} ScalarSlots(lerps: seq<Lerp>)
    ensures Slots([], lerps) == [Slot(0, 1.0)]
  {
    if lerps != [] {
      ScalarSlots(lerps[..|lerps| - 1]);
    }
  }

  lemma {:induction false} Pow2Monotone(m: nat, n: nat)
    requires m <= n
    ensures Pow2(m) <= Pow2(n)
  {
    if m < n {
      Pow2Monotone(m, n - 1);
    }
  }

  // --- The copy ------------------------------------------------------------

  // The slots written: every address of the walked box, from the offset on.
  ghost predicate Walked(p: int, offset: nat, sizes: seq<nat>, strides: seq<nat>)
    requires |sizes| == |strides|
  {
    p >= offset && Addressed(p - offset, sizes, strides)
  }

  ghost predicate OneToOne(sizes: seq<nat>, strides: seq<nat>)
    requires |sizes| == |strides|
  {
    forall ix, jx {:trigger InBox(ix, sizes), InBox(jx, sizes)} ::
      InBox(ix, sizes) && InBox(jx, sizes) && Dot(ix, strides) == Dot(jx, strides) ==> ix == jx
  }

  ghost predicate AddressesWithin(offset: nat, sizes: seq<nat>, strides: seq<nat>, n: nat)
    requires |sizes| == |strides|
  {
    forall ix {:trigger InBox(ix, sizes)} :: InBox(ix, sizes) ==> offset + Dot(ix, strides) < n
  }

  ghost predicate ReadsWithin(offset: nat, sizes: seq<nat>, strides: seq<nat>, slots: seq<Slot>, n: nat)
    requires |sizes| == |strides|
  {
    forall ix {:trigger InBox(ix, sizes)} :: InBox(ix, sizes) ==> SlotsWithin(slots, offset + Dot(ix, strides), n)
  }

  // The weighted sum of the source slots read for one destination value.
  method WeightedSum(data: array<real>, offset: nat, base: array<nat>, weight: array<real>, num: nat, ghost slots: seq<Slot>)
    returns (v: real)
    requires num == |slots| && Holds(base, weight, slots)
    requires SlotsWithin(slots, offset, data.Length)
    ensures v == SlotSum(data[..], offset, slots)
  {
    v := 0.0;
    var u := 0;
    while u < num
      invariant u <= num && v == SlotSum(data[..], offset, slots[..u])
    {
      assert slots[..u + 1][..u] == slots[..u];
      v := v + data[offset + base[u]] * weight[u];
      u := u + 1;
    }
    assert slots[..num] == slots;
  }

  // The destination slot of one index vector holds its weighted sum.
  ghost predicate Filled(now: seq<real>, data: seq<real>, ix: seq<nat>, dstStride: seq<nat>, srcStride: seq<nat>,
                         dstOffset: nat, srcOffset: nat, slots: seq<Slot>)
  {
    && |ix| == |dstStride| == |srcStride|
    && dstOffset + Dot(ix, dstStride) < |now|
    && SlotsWithin(slots, srcOffset + Dot(ix, srcStride), |data|)
    && now[dstOffset + Dot(ix, dstStride)] == SlotSum(data, srcOffset + Dot(ix, srcStride), slots)
  }

  /** What the copy leaves in the destination: the weighted sum at every walked
      address, everything else as it was. */
  ghost predicate Copied(was: seq<real>, now: seq<real>, data: seq<real>, sizes: seq<nat>,
                         dstStride: seq<nat>, srcStride: seq<nat>, dstOffset: nat, srcOffset: nat, slots: seq<Slot>)
    requires |sizes| == |dstStride| == |srcStride|
  {
    && |now| == |was|
    && (forall ix {:trigger InBox(ix, sizes)} :: InBox(ix, sizes) ==>
          Filled(now, data, ix, dstStride, srcStride, dstOffset, srcOffset, slots))
    && (forall p :: 0 <= p < |now| && !Walked(p, dstOffset, sizes, dstStride) ==> now[p] == was[p])
  }

  // The addresses of the index vectors in the order the odometer visits them.
  ghost function Addresses(offset: nat, sizes: seq<nat>, strides: seq<nat>): (a: seq<nat>)
    requires |sizes| == |strides| && AllPositive(sizes)
    ensures |a| == Product(sizes)
    ensures forall t :: 0 <= t < |a| ==> a[t] == offset + Dot(Digits(t, sizes), strides)
  {
    seq(Product(sizes), t requires 0 <= t < Product(sizes) => offset + Dot(Digits(t, sizes), strides))
  }

  // Writing v[t] to slot a[t] for every t below n turns `was` into `now`.
  ghost predicate Scattered(n: nat, was: seq<real>, now: seq<real>, a: seq<nat>, v: seq<real>)
    requires n <= |a| == |v|
  {
    && |now| == |was|
    && (forall t :: 0 <= t < n ==> a[t] < |now| && now[a[t]] == v[t])
    && (forall p: nat :: p < |now| && p !in a ==> now[p] == was[p])
  }

  ghost function Sums(data: seq<real>, reads_: seq<nat>, slots: seq<Slot>): (v: seq<real>)
    requires forall t :: 0 <= t < |reads_| ==> SlotsWithin(slots, reads_[t], |data|)
    ensures |v| == |reads_|
  {
    seq(|reads_|, t requires 0 <= t < |reads_| => SlotSum(data, reads_[t], slots))
  }

  lemma {:induction false} AddressesDistinct(offset: nat, sizes: seq<nat>, strides: seq<nat>, i: nat, j: nat)
    requires |sizes| == |strides| && AllPositive(sizes) && OneToOne(sizes, strides)
    requires i < j < Product(sizes)
    ensures Addresses(offset, sizes, strides)[i] != Addresses(offset, sizes, strides)[j]
  {
    DigitsRank(i, sizes);
    DigitsRank(j, sizes);
  }

  lemma {:induction false} AddressesBelow(offset: nat, sizes: seq<nat>, strides: seq<nat>, n: nat, t: nat)
    requires |sizes| == |strides| && AllPositive(sizes) && AddressesWithin(offset, sizes, strides, n) && t < Product(sizes)
    ensures Addresses(offset, sizes, strides)[t] < n
  {
    DigitsRank(t, sizes);
  }

  lemma {:induction false} ReadsBelow(offset: nat, sizes: seq<nat>, strides: seq<nat>, slots: seq<Slot>, n: nat, t: nat)
    requires |sizes| == |strides| && AllPositive(sizes) && ReadsWithin(offset, sizes, strides, slots, n) && t < Product(sizes)
    ensures SlotsWithin(slots, Addresses(offset, sizes, strides)[t], n)
  {
    DigitsRank(t, sizes);
  }

  // From the list of writes to the statement about index vectors.
  lemma {:induction false} ScatteredCopied(was: seq<real>, now: seq<real>, data: seq<real>, sizes: seq<nat>,
                        dstStride: seq<nat>, srcStride: seq<nat>, dstOffset: nat, srcOffset: nat, slots: seq<Slot>)
    requires |sizes| == |dstStride| == |srcStride| && AllPositive(sizes)
    requires ReadsWithin(srcOffset, sizes, srcStride, slots, |data|)
    requires forall t :: 0 <= t < Product(sizes) ==> SlotsWithin(slots, Addresses(srcOffset, sizes, srcStride)[t], |data|)
    requires Scattered(Product(sizes), was, now, Addresses(dstOffset, sizes, dstStride),
                       Sums(data, Addresses(srcOffset, sizes, srcStride), slots))
    ensures Copied(was, now, data, sizes, dstStride, srcStride, dstOffset, srcOffset, slots)
  {
    forall ix | InBox(ix, sizes) ensures Filled(now, data, ix, dstStride, srcStride, dstOffset, srcOffset, slots) {
      AddressOf(ix, dstOffset, sizes, dstStride);
      AddressOf(ix, srcOffset, sizes, srcStride);
    }
    forall p: nat | p in Addresses(dstOffset, sizes, dstStride) ensures Walked(p, dstOffset, sizes, dstStride) {
      AddressWalked(p, dstOffset, sizes, dstStride);
    }
  }

  lemma {:induction false} AddressOf(ix: seq<nat>, offset: nat, sizes: seq<nat>, strides: seq<nat>)
    requires |sizes| == |strides| && InBox(ix, sizes)
    ensures AllPositive(sizes) && Rank(ix, sizes) < Product(sizes)
    ensures Addresses(offset, sizes, strides)[Rank(ix, sizes)] == offset + Dot(ix, strides)
  {
    RankBelow(ix, sizes);
    RankDigits(ix, sizes);
  }

  lemma {:induction false} AddressWalked(p: nat, offset: nat, sizes: seq<nat>, strides: seq<nat>)
    requires |sizes| == |strides| && AllPositive(sizes) && p in Addresses(offset, sizes, strides)
    ensures Walked(p, offset, sizes, strides)
  {
    var a := Addresses(offset, sizes, strides);
    var t: nat :| t < |a| && a[t] == p;
    DigitsRank(t, sizes);
    assert Addressed(p - offset, sizes, strides);
  }

  // One value: read, weigh and write at the current index vector.
  method Transfer(dst: array<real>, src: array<real>, index: array<nat>, dstStride: seq<nat>, srcStride: seq<nat>,
                  dstOffset: nat, srcOffset: nat, base: array<nat>, weight: array<real>, num: nat, ghost slots: seq<Slot>)
    returns (ghost p: nat, ghost r: nat)
    requires dst != src && dst != weight && index.Length == |dstStride| == |srcStride|
    requires num == |slots| && Holds(base, weight, slots)
    requires dstOffset + Dot(index[..], dstStride) < dst.Length
    requires SlotsWithin(slots, srcOffset + Dot(index[..], srcStride), src.Length)
    modifies dst
    ensures p == dstOffset + Dot(index[..], dstStride) && r == srcOffset + Dot(index[..], srcStride)
    ensures dst[..] == old(dst[..])[p := SlotSum(src[..], r, slots)]
  {
    var dstIdx := Offset(index, dstStride);
    var srcIdx := Offset(index, srcStride);
    var v := WeightedSum(src, srcOffset + srcIdx, base, weight, num, slots);
    p, r := dstOffset + dstIdx, srcOffset + srcIdx;
    dst[dstOffset + dstIdx] := v;
  }

  // The same, for the t-th index vector.
  method TransferAt(ghost t: nat, dst: array<real>, src: array<real>, max: seq<nat>, index: array<nat>, dstStride: seq<nat>, srcStride: seq<nat>,
                    dstOffset: nat, srcOffset: nat, base: array<nat>, weight: array<real>, num: nat, ghost slots: seq<Slot>)
    requires dst != src && dst != weight && index.Length == |max| == |dstStride| == |srcStride| && AllPositive(max)
    requires t < Product(max) && index[..] == Digits(t, max)
    requires num == |slots| && Holds(base, weight, slots)
    requires Addresses(dstOffset, max, dstStride)[t] < dst.Length
    requires SlotsWithin(slots, Addresses(srcOffset, max, srcStride)[t], src.Length)
    modifies dst
    ensures dst[..] == old(dst[..])[Addresses(dstOffset, max, dstStride)[t] :=
                                      SlotSum(src[..], Addresses(srcOffset, max, srcStride)[t], slots)]
  {
    ghost var p, r := Transfer(dst, src, index, dstStride, srcStride, dstOffset, srcOffset, base, weight, num, slots);
  }

  ghost predicate DistinctBelow(a: seq<nat>, n: nat) {
    && (forall t :: 0 <= t < |a| ==> a[t] < n)
    && (forall i, j :: 0 <= i < j < |a| ==> a[i] != a[j])
  }

  /** The copy loop.  `writes` lists the destination slots in the order written. */
  method Walk(dst: array<real>, src: array<real>, max: seq<nat>, dstStride: seq<nat>, srcStride: seq<nat>,
              dstOffset: nat, srcOffset: nat, base: array<nat>, weight: array<real>, num: nat, ghost slots: seq<Slot>)
    returns (ghost writes: seq<nat>)
    requires dst != src && dst != weight && |max| == |dstStride| == |srcStride| && AllPositive(max)
    requires num == |slots| && Holds(base, weight, slots)
    requires DistinctBelow(Addresses(dstOffset, max, dstStride), dst.Length)
    requires forall t :: 0 <= t < Product(max) ==> SlotsWithin(slots, Addresses(srcOffset, max, srcStride)[t], src.Length)
    modifies dst
    ensures writes == Addresses(dstOffset, max, dstStride)
    ensures Scattered(Product(max), old(dst[..]), dst[..], writes, Sums(src[..], Addresses(srcOffset, max, srcStride), slots))
  {
    ghost var was, n := dst[..], Product(max);
    ghost var a, r := Addresses(dstOffset, max, dstStride), Addresses(srcOffset, max, srcStride);
    ghost var v := Sums(src[..], r, slots);
    var index := new nat[|max|](_ => 0);
    DotZero(index[..], Canonical(max));
    ProductPositive(max);
    writes := [];
    var carry := false;
    while !carry
      invariant fresh(index) && InBox(index[..], max)
      invariant |writes| <= n && (carry <==> |writes| == n)
      invariant writes == a[..|writes|]
      invariant !carry ==> Rank(index[..], max) == |writes|
      invariant Scattered(|writes|, was, dst[..], a, v)
      decreases n - |writes|
    {
      ghost var t, before := |writes|, dst[..];
      RankDigits(index[..], max);
      TransferAt(t, dst, src, max, index, dstStride, srcStride, dstOffset, srcOffset, base, weight, num, slots);
      ScatterStep(t, was, before, dst[..], a, v);
      LogStep(a, t);
      writes := writes + [a[t]];
      carry := Advance(index, max);
    }
  }

  lemma {:induction false} LogStep(a: seq<nat>, t: nat)
    requires t < |a|
    ensures a[..t] + [a[t]] == a[..t + 1] && a[..|a|] == a
  {
  }

  lemma {:induction false} ScatterStep(t: nat, was: seq<real>, before: seq<real>, after: seq<real>, a: seq<nat>, v: seq<real>)
    requires t < |a| == |v| && Scattered(t, was, before, a, v) && a[t] < |before|
    requires after == before[a[t] := v[t]]
    requires forall i :: 0 <= i < t ==> a[i] != a[t]
    ensures Scattered(t + 1, was, after, a, v)
  {
  }

  // --- Walking some of the axes of a table is one-to-one -------------------

  // An index vector over the selected axes as one over all axes, zero elsewhere.
  ghost function Embed(axes: seq<Axis>, axesSet: set<nat>, ix: seq<nat>): (r: seq<nat>)
    requires |ix| == |Selected(axes, axesSet)|
    ensures |r| == |axes|
  {
    if axes == [] then []
    else
      var n, m := |axes| - 1, |ix| - 1;
      if axes[n].id in axesSet then Embed(axes[..n], axesSet, ix[..m]) + [ix[m]]
      else Embed(axes[..n], axesSet, ix) + [0]
  }

  // An embedded index vector is in the box and addresses the same slot.
  ghost predicate EmbedsTo(e: seq<nat>, ix: seq<nat>, axes: seq<Axis>, sel: seq<Axis>) {
    && InBox(e, Sizes(axes))
    && |ix| == |sel|
    && Dot(e, Strides(axes)) == Dot(ix, Strides(sel))
  }

  lemma {:induction false} EmbedAddress(axes: seq<Axis>, axesSet: set<nat>, ix: seq<nat>)
    requires AllPositive(Sizes(axes)) && InBox(ix, Sizes(Selected(axes, axesSet)))
    ensures EmbedsTo(Embed(axes, axesSet, ix), ix, axes, Selected(axes, axesSet))
  {
    if axes != [] {
      var n, m := |axes| - 1, |ix| - 1;
      var init, last, sel := axes[..n], axes[n], Selected(axes[..n], axesSet);
      SplitAxes(axes, n);
      assert axes == init + [last];
      if last.id in axesSet {
        assert ix == ix[..m] + [ix[m]];
        InBoxInit(ix, sel, last);
        EmbedAddress(init, axesSet, ix[..m]);
        EmbedStep(Embed(init, axesSet, ix[..m]), ix[..m], init, sel, last, ix[m]);
        assert Selected(axes, axesSet) == sel + [last];
        assert Embed(axes, axesSet, ix) == Embed(init, axesSet, ix[..m]) + [ix[m]];
      } else {
        EmbedAddress(init, axesSet, ix);
        EmbedSkip(Embed(init, axesSet, ix), ix, init, sel, last);
        assert Selected(axes, axesSet) == sel;
        assert Embed(axes, axesSet, ix) == Embed(init, axesSet, ix) + [0];
      }
    } else {
      assert Selected(axes, axesSet) == axes;
    }
  }

  lemma {:induction false} InBoxInit(ix: seq<nat>, sel: seq<Axis>, last: Axis)
    requires InBox(ix, Sizes(sel + [last]))
    ensures InBox(ix[..|sel|], Sizes(sel)) && ix[|sel|] < |last.indices|
  {
    var s := Sizes(sel + [last]);
    assert s[|sel|] == |last.indices|;
    assert forall k :: 0 <= k < |sel| ==> s[k] == Sizes(sel)[k];
  }

  lemma {:induction false} EmbedStep(e: seq<nat>, ix: seq<nat>, axes: seq<Axis>, sel: seq<Axis>, a: Axis, i: nat)
    requires EmbedsTo(e, ix, axes, sel) && i < |a.indices|
    ensures EmbedsTo(e + [i], ix + [i], axes + [a], sel + [a])
  {
    AppendAxis(axes, a);
    AppendAxis(sel, a);
    DotSnoc(ix, Strides(sel), i, a.stride);
    DotSnoc(e, Strides(axes), i, a.stride);
    InBoxSnoc(e, Sizes(axes), i, |a.indices|);
  }

  lemma {:induction false} EmbedSkip(e: seq<nat>, ix: seq<nat>, axes: seq<Axis>, sel: seq<Axis>, a: Axis)
    requires EmbedsTo(e, ix, axes, sel) && |a.indices| > 0
    ensures EmbedsTo(e + [0], ix, axes + [a], sel)
  {
    AppendAxis(axes, a);
    DotSnoc(e, Strides(axes), 0, a.stride);
    InBoxSnoc(e, Sizes(axes), 0, |a.indices|);
  }

  lemma {:induction false} AppendAxis(axes: seq<Axis>, a: Axis)
    ensures Sizes(axes + [a]) == Sizes(axes) + [|a.indices|]
    ensures Strides(axes + [a]) == Strides(axes) + [a.stride]
  {
  }

  lemma {:induction false} SplitAxes(axes: seq<Axis>, n: nat)
    requires n + 1 == |axes|
    ensures Sizes(axes) == Sizes(axes[..n]) + [|axes[n].indices|] && Strides(axes) == Strides(axes[..n]) + [axes[n].stride]
    ensures AllPositive(Sizes(axes)) ==> AllPositive(Sizes(axes[..n])) && |axes[n].indices| > 0
  {
    assert Sizes(axes)[n] == |axes[n].indices|;
    assert forall k :: 0 <= k < n ==> Sizes(axes[..n])[k] == Sizes(axes)[k];
  }

  lemma {:induction false} InBoxSnoc(ix: seq<nat>, sizes: seq<nat>, i: nat, size: nat)
    ensures InBox(ix, sizes) && i < size ==> InBox(ix + [i], sizes + [size])
  {
  }

  lemma {:induction false} EmbedInjective(axes: seq<Axis>, axesSet: set<nat>, ix: seq<nat>, jx: seq<nat>)
    requires |ix| == |jx| == |Selected(axes, axesSet)| && Embed(axes, axesSet, ix) == Embed(axes, axesSet, jx)
    ensures ix == jx
  {
    if axes != [] {
      var n, m := |axes| - 1, |ix| - 1;
      if axes[n].id in axesSet {
        SnocInjective(Embed(axes[..n], axesSet, ix[..m]), ix[m], Embed(axes[..n], axesSet, jx[..m]), jx[m]);
        EmbedInjective(axes[..n], axesSet, ix[..m], jx[..m]);
        assert ix == ix[..m] + [ix[m]] && jx == jx[..m] + [jx[m]];
      } else {
        SnocInjective(Embed(axes[..n], axesSet, ix), 0, Embed(axes[..n], axesSet, jx), 0);
        EmbedInjective(axes[..n], axesSet, ix, jx);
      }
    }
  }

  lemma {:induction false} SnocInjective(a: seq<nat>, x: nat, b: seq<nat>, y: nat)
    requires a + [x] == b + [y]
    ensures a == b && x == y
  {
    assert (a + [x])[..|a|] == a && (b + [y])[..|b|] == b;
    assert (a + [x])[|a|] == x && (b + [y])[|b|] == y;
  }

  lemma {:induction false} SelectedOneToOne(v: TableView, axesSet: set<nat>)
    requires ValidView(v)
    ensures OneToOne(Sizes(Selected(v.axes, axesSet)), Strides(Selected(v.axes, axesSet)))
    ensures AllPositive(Sizes(Selected(v.axes, axesSet)))
  {
    var sel := Selected(v.axes, axesSet);
    SelectedIn(v.axes, axesSet);
    forall k | 0 <= k < |sel| ensures Sizes(sel)[k] > 0 {
      assert sel[k] in v.axes;
      var i: nat :| i < |v.axes| && v.axes[i] == sel[k];
      assert Sizes(v.axes)[i] > 0;
    }
    forall ix, jx | InBox(ix, Sizes(sel)) && InBox(jx, Sizes(sel)) && Dot(ix, Strides(sel)) == Dot(jx, Strides(sel))
      ensures ix == jx
    {
      EmbedAddress(v.axes, axesSet, ix);
      EmbedAddress(v.axes, axesSet, jx);
      PackedInjective(Embed(v.axes, axesSet, ix), Embed(v.axes, axesSet, jx), Sizes(v.axes), Strides(v.axes), |v.data|);
      EmbedInjective(v.axes, axesSet, ix, jx);
    }
  }

  // A scalar destination is walked by one idle loop.
  lemma {:induction false} ScalarAddresses(offset: nat)
    ensures Product([1]) == Product([]) == 1
    ensures Addresses(offset, [1], [0]) == Addresses(offset, [], [])
  {
    var ones: seq<nat> := [1];
    assert ones[..0] == [];
    var a, b := Addresses(offset, [1], [0]), Addresses(offset, [], []);
    assert |a| == |b| == 1;
    assert Digits(0, ones) == [0];
    DotZero([0], [0]);
    assert a[0] == offset == b[0];
  }

  lemma {:induction false} AddressesFit(offset: nat, sizes: seq<nat>, strides: seq<nat>, n: nat)
    requires |sizes| == |strides| && AllPositive(sizes)
    requires OneToOne(sizes, strides) && AddressesWithin(offset, sizes, strides, n)
    ensures DistinctBelow(Addresses(offset, sizes, strides), n)
  {
    var a := Addresses(offset, sizes, strides);
    forall t: nat | t < |a| ensures a[t] < n {
      AddressesBelow(offset, sizes, strides, n, t);
    }
    forall i: nat, j: nat | i < j < |a| ensures a[i] != a[j] {
      AddressesDistinct(offset, sizes, strides, i, j);
    }
  }

  // The copy's addresses lie inside the two tables.
  ghost predicate WritesFit(axesSet: set<nat>, dst: seq<Axis>, dstLen: nat, dstOffset: nat) {
    AddressesWithin(dstOffset, Sizes(Selected(dst, axesSet)), Strides(Selected(dst, axesSet)), dstLen)
  }

  ghost predicate ReadsFit(axesSet: set<nat>, dst: seq<Axis>, src: seq<Axis>, srcLen: nat, srcOffset: nat, slots: seq<Slot>) {
    ReadsWithin(srcOffset, Sizes(Selected(dst, axesSet)), SourceStrides(Selected(dst, axesSet), src), slots, srcLen)
  }

  lemma {:induction false} CopyReady(axesSet: set<nat>, dst: TableView, src: seq<Axis>, srcLen: nat, dstOffset: nat, srcOffset: nat, slots: seq<Slot>)
    requires ValidView(dst) && WritesFit(axesSet, dst.axes, |dst.data|, dstOffset)
    requires ReadsFit(axesSet, dst.axes, src, srcLen, srcOffset, slots)
    ensures var sel := Selected(dst.axes, axesSet);
            && AllPositive(Sizes(sel))
            && DistinctBelow(Addresses(dstOffset, Sizes(sel), Strides(sel)), |dst.data|)
            && (forall t :: 0 <= t < Product(Sizes(sel)) ==> SlotsWithin(slots, Addresses(srcOffset, Sizes(sel), SourceStrides(sel, src))[t], srcLen))
  {
    var sel := Selected(dst.axes, axesSet);
    SelectedOneToOne(dst, axesSet);
    AddressesFit(dstOffset, Sizes(sel), Strides(sel), |dst.data|);
    forall t: nat | t < Product(Sizes(sel)) ensures SlotsWithin(slots, Addresses(srcOffset, Sizes(sel), SourceStrides(sel, src))[t], srcLen) {
      ReadsBelow(srcOffset, Sizes(sel), SourceStrides(sel, src), slots, srcLen, t);
    }
  }

  /** phx_table_copy_values.  Every slot of the walked box receives the weighted sum
      of its source slots, no other slot changes, and `writes` - the slots in the
      order written - names each of them once. */
  method CopyValues(axesSet: set<nat>, dst: Table, src: Table, dstOffset: nat, srcOffset: nat, lerps: seq<Lerp>)
    returns (ghost writes: seq<nat>)
    requires dst.Valid() && src.FormatValid() && dst.data != src.data
    requires forall l :: l in lerps ==> l.axisId < MAX_AXES
    requires SameSizes(Selected(dst.Axes(), axesSet), src.Axes())
    requires WritesFit(axesSet, dst.Axes(), dst.data.Length, dstOffset)
    requires ReadsFit(axesSet, dst.Axes(), src.Axes(), src.data.Length, srcOffset, Slots(src.Axes(), lerps))
    modifies dst.data
    ensures var sel := Selected(dst.Axes(), axesSet);
            && Copied(old(dst.data[..]), dst.data[..], src.data[..], Sizes(sel), Strides(sel),
                      SourceStrides(sel, src.Axes()), dstOffset, srcOffset, Slots(src.Axes(), lerps))
            && AllPositive(Sizes(sel)) && writes == Addresses(dstOffset, Sizes(sel), Strides(sel))
    ensures DistinctBelow(writes, dst.data.Length)
  {
    ghost var dstAxes, srcAxes := dst.Axes(), src.Axes();
    ghost var sel, slots := Selected(dstAxes, axesSet), Slots(srcAxes, lerps);
    ghost var sizes, ds, ss := Sizes(sel), Strides(sel), SourceStrides(sel, srcAxes);
    CopyReady(axesSet, dst.View(), srcAxes, src.data.Length, dstOffset, srcOffset, slots);
    ghost var was := dst.data[..];
    var max, dstStride, srcStride := Loops(axesSet, dst, src);
    var base, weight, num := LerpSlots(src, lerps);
    if dst.fmt == null {
      ScalarAddresses(dstOffset);
      ScalarAddresses(srcOffset);
    }
    assert Addresses(dstOffset, max, dstStride) == Addresses(dstOffset, sizes, ds);
    assert Addresses(srcOffset, max, srcStride) == Addresses(srcOffset, sizes, ss) && Product(max) == Product(sizes);
    writes := Walk(dst.data, src.data, max, dstStride, srcStride, dstOffset, srcOffset, base, weight, num, slots);
    ScatteredCopied(was, dst.data[..], src.data[..], sizes, ds, ss, dstOffset, srcOffset, slots);
    assert dst.Axes() == dstAxes && src.Axes() == srcAxes;
  }
}
