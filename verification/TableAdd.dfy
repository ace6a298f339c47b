/** Adding two tables into a third (phx_table_add): broadcast over the axes that an
    operand lacks, with the axis lists that phx_table_new keeps sorted. */
module TableAdd {
  import opened MixedRadix
  import opened AxisLookup
  import opened Tables
  import opened TableObjects

  // --- Broadcasting --------------------------------------------------------

  // The operand's stride along each axis of the result, zero where it has no such axis.
  function StridesAlong(axes: seq<Axis>, operand: seq<Axis>): (s: seq<nat>)
    ensures |s| == |axes|
  {
    seq(|axes|, u requires 0 <= u < |axes| => StrideIn(operand, axes[u].id))
  }

  /** The operand's index vector: the result's index along each shared axis,
      zero along an axis of the operand's own. */
  function Project(ix: seq<nat>, axes: seq<Axis>, operand: seq<Axis>): (jx: seq<nat>)
    requires |ix| == |axes|
    ensures |jx| == |operand|
  {
    seq(|operand|, k requires 0 <= k < |operand| => if Has(axes, operand[k].id) then ix[Find(axes, operand[k].id)] else 0)
  }

  // Shared axes have the same indices; what the operation asserts.
  ghost predicate Agree(axes: seq<Axis>, operand: seq<Axis>) {
    forall u :: 0 <= u < |axes| ==> AgreeAt(axes[u], operand)
  }

  ghost predicate AgreeAt(a: Axis, operand: seq<Axis>) {
    Has(operand, a.id) ==> operand[Find(operand, a.id)].indices == a.indices
  }

  lemma {:induction false} ProjectInBox(ix: seq<nat>, axes: seq<Axis>, operand: seq<Axis>)
    requires InBox(ix, Sizes(axes)) && Agree(axes, operand) && Sorted(operand) && AllPositive(Sizes(operand))
    ensures InBox(Project(ix, axes, operand), Sizes(operand))
  {
    forall k | 0 <= k < |operand| ensures Project(ix, axes, operand)[k] < Sizes(operand)[k] {
      FindSorted(operand, k);
      var u := Find(axes, operand[k].id);
      assert u < |axes| ==> AgreeAt(axes[u], operand) && ix[u] < Sizes(axes)[u];
    }
  }

  lemma {:induction false} StrideUpdate(ix: seq<nat>, s: seq<nat>, p: nat, x: nat)
    requires |ix| == |s| && p < |s| && s[p] == 0
    ensures Dot(ix, s[p := x]) == Dot(ix, s) + ix[p] * x
  {
    DotAround(ix, s, p);
    DotAround(ix, s[p := x], p);
    assert s[p := x][..p] == s[..p] && s[p := x][p + 1..] == s[p + 1..];
  }

  lemma {:induction false} FindInit(axes: seq<Axis>, m: nat, id: nat)
    requires Sorted(axes) && |axes| == m + 1
    ensures id != axes[m].id ==> StrideIn(axes, id) == StrideIn(axes[..m], id)
    ensures StrideIn(axes[..m], axes[m].id) == 0 && StrideIn(axes, axes[m].id) == axes[m].stride
  {
    FindSorted(axes, m);
    if Has(axes[..m], id) {
      FindUnique(axes, id, Find(axes[..m], id));
    }
  }

  /** Walking the operand with its strides along the result's axes reaches the
      slot of the projected index vector. */
  lemma {:induction false} ProjectedAddress(ix: seq<nat>, axes: seq<Axis>, operand: seq<Axis>)
    requires Sorted(axes) && Sorted(operand) && |ix| == |axes|
    ensures Dot(ix, StridesAlong(axes, operand)) == Dot(Project(ix, axes, operand), Strides(operand))
    decreases |operand|
  {
    if operand == [] {
      DotNoStride(ix, StridesAlong(axes, operand));
    } else {
      var m := |operand| - 1;
      var init, last := operand[..m], operand[m];
      var s0, p := StridesAlong(axes, init), Find(axes, last.id);
      ProjectedAddress(ix, axes, init);
      LastStride(axes, operand, m);
      LastProject(ix, axes, operand, m);
      if p < |axes| {
        StrideUpdate(ix, s0, p, last.stride);
      }
    }
  }

  lemma {:induction false} LastProject(ix: seq<nat>, axes: seq<Axis>, operand: seq<Axis>, m: nat)
    requires |ix| == |axes| && |operand| == m + 1
    ensures var p := Find(axes, operand[m].id);
            Dot(Project(ix, axes, operand), Strides(operand))
            == Dot(Project(ix, axes, operand[..m]), Strides(operand[..m])) + (if p < |axes| then ix[p] * operand[m].stride else 0)
  {
    assert Project(ix, axes, operand)[..m] == Project(ix, axes, operand[..m]);
    assert Strides(operand)[..m] == Strides(operand[..m]);
  }

  // What the last axis of the operand adds to its strides along the result's axes.
  lemma {:induction false} LastStride(axes: seq<Axis>, operand: seq<Axis>, m: nat)
    requires Sorted(axes) && Sorted(operand) && |operand| == m + 1
    ensures var s0, p := StridesAlong(axes, operand[..m]), Find(axes, operand[m].id);
            && StridesAlong(axes, operand) == (if p < |axes| then s0[p := operand[m].stride] else s0)
            && (p < |axes| ==> s0[p] == 0)
  {
    var p := Find(axes, operand[m].id);
    forall u | 0 <= u < |axes|
      ensures StrideIn(operand, axes[u].id) == if u == p then operand[m].stride else StrideIn(operand[..m], axes[u].id)
    {
      FindInit(operand, m, axes[u].id);
      FindSorted(axes, u);
    }
    FindInit(operand, m, operand[m].id);
  }

  lemma {:induction false} DotNoStride(ix: seq<nat>, s: seq<nat>)
    requires |ix| == |s| && forall u :: 0 <= u < |s| ==> s[u] == 0
    ensures Dot(ix, s) == 0
  {
    if ix != [] {
      var n := |ix| - 1;
      DotNoStride(ix[..n], s[..n]);
    }
  }

  // --- The sum -------------------------------------------------------------

  // Every index vector of the sorted axes has a slot in the data.
  ghost predicate Stored(v: TableView) {
    && Sorted(v.axes) && AllPositive(Sizes(v.axes))
    && Product(Sizes(v.axes)) <= |v.data|
    && Packed(Sizes(v.axes), Strides(v.axes), Product(Sizes(v.axes)))
  }

  ghost function Slot(v: TableView, ix: seq<nat>): (p: nat)
    requires Stored(v) && InBox(ix, Sizes(v.axes))
    ensures p < |v.data|
  {
    PackedRange(ix, Sizes(v.axes), Strides(v.axes), Product(Sizes(v.axes)));
    Dot(ix, Strides(v.axes))
  }

  ghost function ValueAt(v: TableView, ix: seq<nat>): real
    requires Stored(v) && InBox(ix, Sizes(v.axes))
  {
    v.data[Slot(v, ix)]
  }

  // The operand's value at the result's index vector.
  ghost function Broadcast(v: TableView, axes: seq<Axis>, ix: seq<nat>): real
    requires Stored(v) && Agree(axes, v.axes) && InBox(ix, Sizes(axes))
  {
    ProjectInBox(ix, axes, v.axes);
    ValueAt(v, Project(ix, axes, v.axes))
  }

  ghost predicate Summable(axes: seq<Axis>, a: TableView, b: TableView) {
    Stored(a) && Stored(b) && Agree(axes, a.axes) && Agree(axes, b.axes)
  }

  ghost predicate SummedAt(r: TableView, a: TableView, b: TableView, ix: seq<nat>)
    requires Stored(r) && Summable(r.axes, a, b)
  {
    && InBox(ix, Sizes(r.axes))
    && ValueAt(r, ix) == Broadcast(a, r.axes, ix) + Broadcast(b, r.axes, ix)
  }

  /** r is the broadcast pointwise sum of a and b. */
  ghost predicate Summed(r: TableView, a: TableView, b: TableView) {
    && Stored(r) && Summable(r.axes, a, b)
    && forall ix {:trigger InBox(ix, Sizes(r.axes))} :: InBox(ix, Sizes(r.axes)) ==> SummedAt(r, a, b, ix)
  }

  /** The sum is unique and does not depend on the order of the operands. */
  lemma {:induction false} SumCommutes(r: TableView, s: TableView, a: TableView, b: TableView)
    requires Summed(r, a, b) && Summed(s, b, a) && r.axes == s.axes
    requires |r.data| == |s.data| == Product(Sizes(r.axes))
    ensures r == s
  {
    forall p: nat | p < |r.data| ensures r.data[p] == s.data[p] {
      var ix := PackedSurjective(p, Sizes(r.axes), Strides(r.axes), |r.data|);
      assert SummedAt(r, a, b, ix) && SummedAt(s, b, a, ix);
    }
  }

  /** Along an axis that an operand lacks, its contribution is constant. */
  lemma {:induction false} AbsentAxisIsConstant(v: TableView, axes: seq<Axis>, ix: seq<nat>, u: nat, i: nat)
    requires Stored(v) && Sorted(axes) && Agree(axes, v.axes) && InBox(ix, Sizes(axes))
    requires u < |axes| && i < |axes[u].indices| && !Has(v.axes, axes[u].id)
    ensures InBox(ix[u := i], Sizes(axes)) && Broadcast(v, axes, ix[u := i]) == Broadcast(v, axes, ix)
  {
    assert Sizes(axes)[u] == |axes[u].indices|;
    forall k | 0 <= k < |v.axes| ensures Project(ix[u := i], axes, v.axes)[k] == Project(ix, axes, v.axes)[k] {
      FindSorted(v.axes, k);
    }
    assert Project(ix[u := i], axes, v.axes) == Project(ix, axes, v.axes);
  }

  /** An operand with the result's own axes contributes the value at the same index vector. */
  lemma {:induction false} SameAxesSameIndex(v: TableView, axes: seq<Axis>, ix: seq<nat>)
    requires Stored(v) && Sorted(axes) && InBox(ix, Sizes(axes))
    requires |axes| == |v.axes| && forall k :: 0 <= k < |axes| ==> axes[k].id == v.axes[k].id && axes[k].indices == v.axes[k].indices
    ensures Agree(axes, v.axes) && InBox(ix, Sizes(v.axes)) && Broadcast(v, axes, ix) == ValueAt(v, ix)
  {
    forall k | 0 <= k < |axes| ensures AgreeAt(axes[k], v.axes) && Project(ix, axes, v.axes)[k] == ix[k] {
      FindSorted(axes, k);
      FindSorted(v.axes, k);
    }
    assert Project(ix, axes, v.axes) == ix;
    assert Sizes(axes) == Sizes(v.axes);
  }

  /** Where all three tables have the same axes the entries are added one by one. */
  lemma {:induction false} EqualAxesSum(r: TableView, a: TableView, b: TableView, ix: seq<nat>)
    requires Summed(r, a, b) && InBox(ix, Sizes(r.axes))
    requires |r.axes| == |a.axes| && forall k :: 0 <= k < |r.axes| ==> r.axes[k].id == a.axes[k].id && r.axes[k].indices == a.axes[k].indices
    requires |r.axes| == |b.axes| && forall k :: 0 <= k < |r.axes| ==> r.axes[k].id == b.axes[k].id && r.axes[k].indices == b.axes[k].indices
    ensures InBox(ix, Sizes(a.axes)) && InBox(ix, Sizes(b.axes))
    ensures r.data[Slot(r, ix)] == a.data[Slot(a, ix)] + b.data[Slot(b, ix)]
  {
    SameAxesSameIndex(a, r.axes, ix);
    SameAxesSameIndex(b, r.axes, ix);
    assert SummedAt(r, a, b, ix);
  }

  // --- The operation -------------------------------------------------------

  // The axis of the operand that goes with a result axis.
  function Partner(a: Axis, operand: seq<Axis>): (r: Option<Axis>) {
    if Has(operand, a.id) then Some(operand[Find(operand, a.id)]) else None
  }

  /** The scan with one pointer per axis list finds the partner of every result axis. */
  method PairAxes(axes: seq<Axis>, operand: seq<Axis>) returns (pairs: seq<Option<Axis>>)
    requires Sorted(axes) && Sorted(operand)
    ensures |pairs| == |axes|
    ensures forall u :: 0 <= u < |axes| ==> pairs[u] == Partner(axes[u], operand)
  {
    pairs := [];
    var ua := 0;
    for ur := 0 to |axes|
      invariant |pairs| == ur && ua <= |operand|
      invariant forall u :: 0 <= u < ur ==> pairs[u] == Partner(axes[u], operand)
      invariant forall k, u :: 0 <= k < ua && ur <= u < |axes| ==> operand[k].id < axes[u].id
    {
      while ua < |operand| && operand[ua].id < axes[ur].id
        invariant ua <= |operand|
        invariant forall k, u :: 0 <= k < ua && ur <= u < |axes| ==> operand[k].id < axes[u].id
      {
        ua := ua + 1;
      }
      var pair := if ua < |operand| && operand[ua].id == axes[ur].id then Some(operand[ua]) else None;
      ScanStops(axes[ur], operand, ua, pair);
      pairs := pairs + [pair];
    }
  }

  lemma {:induction false} ScanStops(a: Axis, operand: seq<Axis>, ua: nat, pair: Option<Axis>)
    requires Sorted(operand) && ua <= |operand|
    requires forall k :: 0 <= k < ua ==> operand[k].id < a.id
    requires ua < |operand| ==> a.id <= operand[ua].id
    requires pair == if ua < |operand| && operand[ua].id == a.id then Some(operand[ua]) else None
    ensures pair == Partner(a, operand)
  {
    if ua < |operand| && operand[ua].id == a.id {
      FindUnique(operand, a.id, ua);
    }
  }

  // The assertion on the indices of paired axes.
  method IndicesAgree(axes: seq<Axis>, pairs: seq<Option<Axis>>, ghost operand: seq<Axis>) returns (ok: bool)
    requires |pairs| == |axes| && forall u :: 0 <= u < |axes| ==> pairs[u] == Partner(axes[u], operand)
    ensures ok <==> Agree(axes, operand)
  {
    for u := 0 to |axes|
      invariant forall k :: 0 <= k < u ==> AgreeAt(axes[k], operand)
    {
      if pairs[u].Some? && pairs[u].value.indices != axes[u].indices {
        assert !AgreeAt(axes[u], operand);
        return false;
      }
    }
    ok := true;
  }

  // The offset into an operand for the current index vector.
  method PairedOffset(idx: array<nat>, pairs: seq<Option<Axis>>, ghost axes: seq<Axis>, ghost operand: seq<Axis>) returns (offset: nat)
    requires idx.Length == |axes| == |pairs| && forall u :: 0 <= u < |axes| ==> pairs[u] == Partner(axes[u], operand)
    requires Sorted(axes) && Sorted(operand)
    ensures offset == Dot(Project(idx[..], axes, operand), Strides(operand))
  {
    offset := 0;
    ghost var s := StridesAlong(axes, operand);
    for u := 0 to idx.Length
      invariant offset == Dot(idx[..u], s[..u])
    {
      assert idx[..u + 1] == idx[..u] + [idx[u]] && s[..u + 1] == s[..u] + [s[u]];
      DotSnoc(idx[..u], s[..u], idx[u], s[u]);
      if pairs[u].Some? {
        offset := offset + idx[u] * pairs[u].value.stride;
      }
    }
    assert idx[..idx.Length] == idx[..] && s[..idx.Length] == s;
    ProjectedAddress(idx[..], axes, operand);
  }

  ghost function SortedView(t: Table): TableView
    reads t, t.data
  {
    TableView(t.axes, t.data[..])
  }

  // The t-th index vector of the walk has been summed.
  ghost predicate Done(axes: seq<Axis>, data: seq<real>, a: TableView, b: TableView, t: nat)
    requires Stored(TableView(axes, data)) && Summable(axes, a, b)
  {
    SummedAt(TableView(axes, data), a, b, Digits(t, Sizes(axes)))
  }

  lemma {:induction false} SumStep(axes: seq<Axis>, was: seq<real>, now: seq<real>, a: TableView, b: TableView, t: nat, ix: seq<nat>, sum: real)
    requires Stored(TableView(axes, was)) && Summable(axes, a, b) && InBox(ix, Sizes(axes)) && Rank(ix, Sizes(axes)) == t
    requires forall j: nat :: j < t ==> Done(axes, was, a, b, j)
    requires sum == Broadcast(a, axes, ix) + Broadcast(b, axes, ix) && now == was[Slot(TableView(axes, was), ix) := sum]
    ensures forall j: nat :: j <= t ==> Done(axes, now, a, b, j)
  {
    var sizes := Sizes(axes);
    RankDigits(ix, sizes);
    RankBelow(ix, sizes);
    forall j: nat | j <= t ensures Done(axes, now, a, b, j) {
      if j < t {
        var jx := Digits(j, sizes);
        DigitsRank(j, sizes);
        assert Done(axes, was, a, b, j);
        if Slot(TableView(axes, was), jx) == Slot(TableView(axes, was), ix) {
          PackedInjective(ix, jx, sizes, Strides(axes), Product(sizes));
        }
      }
    }
  }

  lemma {:induction false} AllDone(r: TableView, a: TableView, b: TableView)
    requires Stored(r) && Summable(r.axes, a, b)
    requires forall j: nat :: j < Product(Sizes(r.axes)) ==> Done(r.axes, r.data, a, b, j)
    ensures Summed(r, a, b)
  {
    forall ix {:trigger InBox(ix, Sizes(r.axes))} | InBox(ix, Sizes(r.axes)) ensures SummedAt(r, a, b, ix) {
      RankDigits(ix, Sizes(r.axes));
      RankBelow(ix, Sizes(r.axes));
      assert Done(r.axes, r.data, a, b, Rank(ix, Sizes(r.axes)));
    }
  }

  // From the t-th index vector of the walk on, every slot holds what it held.
  ghost predicate Pending(axes: seq<Axis>, was: seq<real>, now: seq<real>, t: nat)
    requires Stored(TableView(axes, now)) && |was| == |now|
  {
    forall j: nat :: t <= j < Product(Sizes(axes)) ==> PendingAt(axes, was, now, j)
  }

  ghost predicate PendingAt(axes: seq<Axis>, was: seq<real>, now: seq<real>, j: nat)
    requires Stored(TableView(axes, now)) && |was| == |now| && j < Product(Sizes(axes))
  {
    DigitsRank(j, Sizes(axes));
    var p := Slot(TableView(axes, now), Digits(j, Sizes(axes)));
    now[p] == was[p]
  }

  /** v is the operand a as it was: another table, or the result itself with the first t sums written. */
  ghost predicate OperandIs(r: Table, a: Table, v: TableView, t: nat)
    reads r, r.data, a, a.data
  {
    && Stored(SortedView(r))
    && if a == r then v.axes == r.axes && |v.data| == r.data.Length && Pending(r.axes, v.data, r.data[..], t)
       else a.data != r.data && v == SortedView(a)
  }

  // The first t index vectors are summed, and the operands are read as they were.
  ghost predicate Summing(r: Table, a: Table, b: Table, va: TableView, vb: TableView, t: nat)
    reads r, r.data, a, a.data, b, b.data
  {
    && OperandIs(r, a, va, t) && OperandIs(r, b, vb, t) && Summable(r.axes, va, vb)
    && forall j: nat :: j < t ==> Done(r.axes, r.data[..], va, vb, j)
  }

  lemma {:induction false} SummingStarts(r: Table, a: Table, b: Table)
    requires Stored(SortedView(r)) && Summable(r.axes, SortedView(a), SortedView(b))
    requires (r.data == a.data ==> r == a) && (r.data == b.data ==> r == b)
    ensures Summing(r, a, b, SortedView(a), SortedView(b), 0)
  {
    PendingStarts(r.axes, r.data[..]);
  }

  lemma {:induction false} PendingStarts(axes: seq<Axis>, data: seq<real>)
    requires Stored(TableView(axes, data))
    ensures Pending(axes, data, data, 0)
  {
    forall j: nat | j < Product(Sizes(axes)) ensures PendingAt(axes, data, data, j) {
      DigitsRank(j, Sizes(axes));
    }
  }

  lemma {:induction false} SummingIsStored(r: Table, a: Table, b: Table, va: TableView, vb: TableView, t: nat)
    requires Summing(r, a, b, va, vb, t)
    ensures Stored(SortedView(r))
  {
  }

  lemma {:induction false} OperandRead(r: Table, a: Table, v: TableView, t: nat, ix: seq<nat>)
    requires OperandIs(r, a, v, t) && Stored(v) && Agree(r.axes, v.axes) && InBox(ix, Sizes(r.axes)) && Rank(ix, Sizes(r.axes)) == t
    ensures InBox(Project(ix, r.axes, v.axes), Sizes(v.axes))
    ensures var p := Slot(v, Project(ix, r.axes, v.axes));
            p == Dot(Project(ix, r.axes, v.axes), Strides(v.axes)) && p < a.data.Length && a.data[p] == v.data[p]
  {
    ProjectInBox(ix, r.axes, v.axes);
    if a == r {
      SameAxesSameIndex(v, r.axes, ix);
      SelfProject(ix, r.axes);
      RankDigits(ix, Sizes(r.axes));
      RankBelow(ix, Sizes(r.axes));
      assert PendingAt(r.axes, v.data, r.data[..], t);
    }
  }

  lemma {:induction false} SelfProject(ix: seq<nat>, axes: seq<Axis>)
    requires Sorted(axes) && |ix| == |axes|
    ensures Project(ix, axes, axes) == ix
  {
    forall k | 0 <= k < |axes| ensures Project(ix, axes, axes)[k] == ix[k] {
      FindSorted(axes, k);
    }
  }

  lemma {:induction false} PendingStep(axes: seq<Axis>, was: seq<real>, now: seq<real>, next: seq<real>, t: nat, ix: seq<nat>, x: real)
    requires Stored(TableView(axes, now)) && |was| == |now| && Pending(axes, was, now, t)
    requires InBox(ix, Sizes(axes)) && Rank(ix, Sizes(axes)) == t && next == now[Slot(TableView(axes, now), ix) := x]
    ensures Stored(TableView(axes, next)) && Pending(axes, was, next, t + 1)
  {
    var sizes := Sizes(axes);
    forall j: nat | t + 1 <= j < Product(sizes) ensures PendingAt(axes, was, next, j) {
      var jx := Digits(j, sizes);
      DigitsRank(j, sizes);
      assert PendingAt(axes, was, now, j);
      if Slot(TableView(axes, now), jx) == Slot(TableView(axes, now), ix) {
        PackedInjective(ix, jx, sizes, Strides(axes), Product(sizes));
      }
    }
  }

  /** phx_table_add, also in place.  Fails its assertion, before writing anything, when a shared axis
      has other indices.  A result that was not made by phx_table_new has size 0 and
      stays as it is. */
  method Add(r: Table, a: Table, b: Table) returns (ok: bool)
    requires Stored(SortedView(r)) && Stored(SortedView(a)) && Stored(SortedView(b))
    requires (r.data == a.data ==> r == a) && (r.data == b.data ==> r == b)
    requires r.size == 0 || r.size == Product(Sizes(r.axes))
    modifies r.data
    ensures ok <==> Agree(r.axes, a.axes) && Agree(r.axes, b.axes)
    ensures !ok || r.size == 0 ==> r.data[..] == old(r.data[..])
    ensures ok && r.size != 0 ==> Summed(SortedView(r), old(SortedView(a)), old(SortedView(b)))
  {
    hide Summing, Packed;
    var pa := PairAxes(r.axes, a.axes);
    var pb := PairAxes(r.axes, b.axes);
    ok := IndicesAgree(r.axes, pa, a.axes);
    if ok {
      ok := IndicesAgree(r.axes, pb, b.axes);
    }
    if ok {
      SummingStarts(r, a, b);
      AddValues(r, a, b, pa, pb, SortedView(a), SortedView(b));
    }
  }

  method AddValues(r: Table, a: Table, b: Table, pa: seq<Option<Axis>>, pb: seq<Option<Axis>>, ghost va: TableView, ghost vb: TableView)
    requires Summing(r, a, b, va, vb, 0)
    requires r.size == 0 || r.size == Product(Sizes(r.axes))
    requires |pa| == |r.axes| && forall u :: 0 <= u < |r.axes| ==> pa[u] == Partner(r.axes[u], va.axes)
    requires |pb| == |r.axes| && forall u :: 0 <= u < |r.axes| ==> pb[u] == Partner(r.axes[u], vb.axes)
    modifies r.data
    ensures r.size == 0 ==> r.data[..] == old(r.data[..])
    ensures r.size != 0 ==> Summed(SortedView(r), va, vb)
  {
    hide Summing, Packed, Partner, Summed, Digits, Dot;
    SummingIsStored(r, a, b, va, vb, 0);
    var max := Sizes(r.axes);
    var idx := new nat[|max|](_ => 0);
    DotZero(idx[..], Canonical(max));
    var u := 0;
    while u < r.size
      invariant u <= r.size && fresh(idx) && idx.Length == |max| && InBox(idx[..], max)
      invariant u < r.size ==> Rank(idx[..], max) == u
      invariant Summing(r, a, b, va, vb, u)
      invariant u == 0 ==> r.data[..] == old(r.data[..])
    {
      AddOne(r, a, b, pa, pb, va, vb, idx, u);
      var _ := Advance(idx, max);
      u := u + 1;
    }
    if r.size != 0 {
      AllSummed(r, a, b, va, vb);
    }
  }

  lemma {:induction false} AllSummed(r: Table, a: Table, b: Table, va: TableView, vb: TableView)
    requires Summing(r, a, b, va, vb, Product(Sizes(r.axes)))
    ensures Summed(SortedView(r), va, vb)
  {
    AllDone(SortedView(r), va, vb);
  }

  method AddOne(r: Table, a: Table, b: Table, pa: seq<Option<Axis>>, pb: seq<Option<Axis>>, ghost va: TableView, ghost vb: TableView,
                idx: array<nat>, ghost t: nat)
    requires Summing(r, a, b, va, vb, t)
    requires |pa| == |r.axes| && forall u :: 0 <= u < |r.axes| ==> pa[u] == Partner(r.axes[u], va.axes)
    requires |pb| == |r.axes| && forall u :: 0 <= u < |r.axes| ==> pb[u] == Partner(r.axes[u], vb.axes)
    requires InBox(idx[..], Sizes(r.axes)) && Rank(idx[..], Sizes(r.axes)) == t
    modifies r.data
    ensures Summing(r, a, b, va, vb, t + 1)
  {
    ghost var was, ix, axes := r.data[..], idx[..], r.axes;
    OperandRead(r, a, va, t, ix);
    OperandRead(r, b, vb, t, ix);
    var offR := Offset(idx, Strides(r.axes));
    var offA := PairedOffset(idx, pa, axes, va.axes);
    var offB := PairedOffset(idx, pb, axes, vb.axes);
    assert offR == Slot(TableView(axes, was), ix);
    var sum := a.data[offA] + b.data[offB];
    Store(r.data, offR, sum);
    SumStep(axes, was, r.data[..], va, vb, t, ix, sum);
    if a == r {
      PendingStep(axes, va.data, was, r.data[..], t, ix, sum);
    }
    if b == r {
      PendingStep(axes, vb.data, was, r.data[..], t, ix, sum);
    }
  }

  method Store(data: array<real>, p: nat, x: real)
    requires p < data.Length
    modifies data
    ensures data[..] == old(data[..])[p := x]
  {
    data[p] := x;
  }

  /** The tables that phx_table_new makes store a value for every index vector. */
  lemma {:induction false} MadeIsStored(t: Table, q: seq<nat>, n: seq<nat>)
    requires t.MadeFrom(q, n) && AllPositive(n)
    ensures Stored(SortedView(t)) && t.size == t.data.Length == Product(Sizes(t.axes)) && t.size != 0
  {
    LaidOutPacked(t.axes, q, n);
    PackedCount(Sizes(t.axes), Strides(t.axes), Product(n));
    ProductPositive(n);
  }
}
