/** Fixing axes of a table at given index values (phx_table_reduce). */
module TableReduce {
  import opened MixedRadix
  import opened AxisLookup
  import opened Tables
  import opened TableObjects
  import opened TableCopy
  import opened SlotTheory

  datatype Fix = Fix(axisId: nat, index: real)

  ghost function IdSet(axes: seq<Axis>): set<nat> {
    set k | 0 <= k < |axes| :: axes[k].id
  }

  // --- Gathering the interpolations ---------------------------------------

  /** The axes kept and the interpolations collected so far. */
  datatype Gathered = Gathered(keep: set<nat>, lerps: seq<Lerp>)

  ghost function GatherOne(axes: seq<Axis>, g: Gathered, fix: Fix): Option<Gathered>
    requires forall k :: 0 <= k < |axes| ==> Increasing(axes[k].indices)
  {
    if fix.axisId !in g.keep || !Has(axes, fix.axisId) then Some(g)
    else
      match AxisLerp(fix.axisId, axes[Find(axes, fix.axisId)].indices, fix.index)
      case None => None
      case Some(l) => Some(Gathered(g.keep - {fix.axisId}, g.lerps + [l]))
  }

  ghost function Gather(axes: seq<Axis>, fixes: seq<Fix>): Option<Gathered>
    requires forall k :: 0 <= k < |axes| ==> Increasing(axes[k].indices)
  {
    if fixes == [] then Some(Gathered(IdSet(axes), []))
    else
      var n := |fixes| - 1;
      match Gather(axes, fixes[..n])
      case None => None
      case Some(g) => GatherOne(axes, g, fixes[n])
  }

  // Interpolations sit on distinct axes outside the kept ones, at positions of those axes.
  ghost predicate Placed(axes: seq<Axis>, keep: set<nat>, lerps: seq<Lerp>) {
    && (forall j :: 0 <= j < |lerps| ==> PlacedAt(axes, keep, lerps[j]))
    && (forall i, j :: 0 <= i < j < |lerps| ==> lerps[i].axisId != lerps[j].axisId)
  }

  ghost predicate PlacedAt(axes: seq<Axis>, keep: set<nat>, l: Lerp) {
    && Has(axes, l.axisId) && l.axisId !in keep
    && l.lower < |axes[Find(axes, l.axisId)].indices| && l.upper < |axes[Find(axes, l.axisId)].indices|
    && 0.0 <= l.f <= 1.0
  }

  lemma {:induction false} GatherPlaced(axes: seq<Axis>, fixes: seq<Fix>)
    requires ValidAxes(axes) && Gather(axes, fixes).Some?
    ensures Placed(axes, Gather(axes, fixes).value.keep, Gather(axes, fixes).value.lerps)
    ensures Gather(axes, fixes).value.keep <= IdSet(axes)
    ensures Gather(axes, fixes).value.lerps == [] <==> Gather(axes, fixes).value.keep == IdSet(axes)
  {
    if fixes != [] {
      var n := |fixes| - 1;
      GatherPlaced(axes, fixes[..n]);
      var g, fix := Gather(axes, fixes[..n]).value, fixes[n];
      if fix.axisId in g.keep && Has(axes, fix.axisId) {
        GatherStep(axes, g, fix);
      }
    }
  }

  lemma {:induction false} GatherStep(axes: seq<Axis>, g: Gathered, fix: Fix)
    requires ValidAxes(axes) && Placed(axes, g.keep, g.lerps) && g.keep <= IdSet(axes)
    requires fix.axisId in g.keep && Has(axes, fix.axisId) && GatherOne(axes, g, fix).Some?
    ensures var g' := GatherOne(axes, g, fix).value; Placed(axes, g'.keep, g'.lerps) && g'.keep < IdSet(axes)
  {
    var g' := GatherOne(axes, g, fix).value;
    forall j | 0 <= j < |g'.lerps| ensures PlacedAt(axes, g'.keep, g'.lerps[j]) {
      assert j < |g.lerps| ==> PlacedAt(axes, g.keep, g.lerps[j]);
    }
    assert fix.axisId in IdSet(axes) && fix.axisId !in g'.keep;
  }

  // --- Every slot read lies inside the table ------------------------------

  lemma {:induction false} DotUpdate(ix: seq<nat>, strides: seq<nat>, k: nat, i: nat)
    requires |ix| == |strides| && k < |ix| && ix[k] == 0
    ensures Dot(ix[k := i], strides) == Dot(ix, strides) + i * strides[k]
  {
    DotRemove(ix, strides, k);
    DotRemove(ix[k := i], strides, k);
    assert Remove(ix[k := i], k) == Remove(ix, k);
  }

  // An index vector that is zero wherever an axis is neither kept nor fixed yet,
  // and that reaches as far as the kept axes and the interpolations together.
  ghost predicate Reaches(jx: seq<nat>, axes: seq<Axis>, keep: set<nat>, lerps: seq<Lerp>, d: nat) {
    && InBox(jx, Sizes(axes))
    && Dot(jx, Strides(axes)) == d + Reach(axes, lerps)
    && forall k :: 0 <= k < |axes| && axes[k].id !in keep && (forall j :: 0 <= j < |lerps| ==> lerps[j].axisId != axes[k].id) ==> jx[k] == 0
  }

  lemma {:induction false} ReachInside(axes: seq<Axis>, keep: set<nat>, lerps: seq<Lerp>, jx0: seq<nat>, d: nat) returns (jx: seq<nat>)
    requires ValidAxes(axes) && Placed(axes, keep, lerps) && Reaches(jx0, axes, keep, [], d)
    ensures Reaches(jx, axes, keep, lerps, d)
    decreases |lerps|
  {
    if lerps == [] {
      jx := jx0;
    } else {
      var n, l := |lerps| - 1, lerps[|lerps| - 1];
      assert Placed(axes, keep, lerps[..n]) by {
        assert forall j :: 0 <= j < n ==> lerps[..n][j] == lerps[j];
      }
      var prev := ReachInside(axes, keep, lerps[..n], jx0, d);
      assert PlacedAt(axes, keep, l);
      jx := ReachStep(axes, keep, lerps, prev, d);
    }
  }

  lemma {:induction false} ReachStep(axes: seq<Axis>, keep: set<nat>, lerps: seq<Lerp>, prev: seq<nat>, d: nat) returns (jx: seq<nat>)
    requires ValidAxes(axes) && lerps != [] && Placed(axes, keep, lerps) && Reaches(prev, axes, keep, lerps[..|lerps| - 1], d)
    ensures Reaches(jx, axes, keep, lerps, d)
  {
    var n, l := |lerps| - 1, lerps[|lerps| - 1];
    assert PlacedAt(axes, keep, l);
    var k, i := Find(axes, l.axisId), if l.lower > l.upper then l.lower else l.upper;
    assert forall j :: 0 <= j < n ==> lerps[..n][j] == lerps[j];
    assert prev[k] == 0;
    jx := prev[k := i];
    DotUpdate(prev, Strides(axes), k, i);
    assert InBox(jx, Sizes(axes)) by { assert Sizes(axes)[k] == |axes[k].indices|; }
    forall j | 0 <= j < |axes| && axes[j].id !in keep && (forall m :: 0 <= m < |lerps| ==> lerps[m].axisId != axes[j].id) ensures jx[j] == 0 {
      assert lerps[n].axisId != axes[j].id;
    }
  }

  lemma {:induction false} EmbedZero(axes: seq<Axis>, axesSet: set<nat>, ix: seq<nat>)
    requires |ix| == |Selected(axes, axesSet)|
    ensures forall k :: 0 <= k < |axes| && axes[k].id !in axesSet ==> Embed(axes, axesSet, ix)[k] == 0
  {
    if axes != [] {
      var n := |axes| - 1;
      EmbedZero(axes[..n], axesSet, if axes[n].id in axesSet then ix[..|ix| - 1] else ix);
    }
  }

  /** Source slots of the reduction stay inside the source table. */
  lemma {:induction false} ReduceReads(v: TableView, keep: set<nat>, lerps: seq<Lerp>, ix: seq<nat>)
    requires ValidView(v) && Placed(v.axes, keep, lerps) && InBox(ix, Sizes(Selected(v.axes, keep)))
    ensures Dot(ix, Strides(Selected(v.axes, keep))) + Reach(v.axes, lerps) < |v.data|
    ensures SlotsWithin(Slots(v.axes, lerps), Dot(ix, Strides(Selected(v.axes, keep))), |v.data|)
  {
    var d := Dot(ix, Strides(Selected(v.axes, keep)));
    EmbedAddress(v.axes, keep, ix);
    EmbedZero(v.axes, keep, ix);
    var e := Embed(v.axes, keep, ix);
    assert Reaches(e, v.axes, keep, [], d);
    var jx := ReachInside(v.axes, keep, lerps, e, d);
    PackedRange(jx, Sizes(v.axes), Strides(v.axes), |v.data|);
    SlotsReach(v.axes, lerps);
  }

  // --- The reduced table as a value ---------------------------------------

  lemma {:induction false} SelectedSorted(axes: seq<Axis>, axesSet: set<nat>)
    requires Sorted(axes)
    ensures Sorted(Selected(axes, axesSet))
    ensures forall a :: a in Selected(axes, axesSet) <==> a in axes && a.id in axesSet
  {
    if axes != [] {
      var n := |axes| - 1;
      SelectedSorted(axes[..n], axesSet);
      assert forall a :: a in axes <==> a in axes[..n] || a == axes[n];
      var sel := Selected(axes[..n], axesSet);
      forall k | 0 <= k < |sel| ensures sel[k].id < axes[n].id {
        assert sel[k] in sel && sel[k] in axes[..n];
        var j: nat :| j < n && axes[j] == sel[k];
      }
    }
  }

  lemma {:induction false} SelectedIds(axes: seq<Axis>, axesSet: set<nat>)
    requires Sorted(axes) && axesSet <= IdSet(axes)
    ensures IdSet(Selected(axes, axesSet)) == axesSet
  {
    var sel := Selected(axes, axesSet);
    SelectedSorted(axes, axesSet);
    forall id | id in axesSet ensures id in IdSet(sel) {
      var k: nat :| k < |axes| && axes[k].id == id;
      assert axes[k] in sel;
    }
    forall id | id in IdSet(sel) ensures id in axesSet {
      var k: nat :| k < |sel| && sel[k].id == id;
      assert sel[k] in sel;
    }
  }

  lemma {:induction false} SelectedValid(axes: seq<Axis>, axesSet: set<nat>)
    requires ValidAxes(axes)
    ensures ValidAxes(Selected(axes, axesSet)) && ValidAxes(CanonicalAxes(Selected(axes, axesSet)))
  {
    var sel := Selected(axes, axesSet);
    SelectedSorted(axes, axesSet);
    forall k | 0 <= k < |sel| ensures Sizes(sel)[k] > 0 && Increasing(sel[k].indices) {
      assert sel[k] in axes;
      var i: nat :| i < |axes| && axes[i] == sel[k];
      assert Sizes(axes)[i] > 0;
    }
  }

  /** The reduced value at an index vector over the kept axes. */
  ghost function ReducedAt(v: TableView, keep: set<nat>, lerps: seq<Lerp>, ix: seq<nat>): real
    requires ValidView(v) && Placed(v.axes, keep, lerps) && InBox(ix, Sizes(Selected(v.axes, keep)))
  {
    ReduceReads(v, keep, lerps, ix);
    SlotSum(v.data, Dot(ix, Strides(Selected(v.axes, keep))), Slots(v.axes, lerps))
  }

  /** r is the table v reduced to the kept axes by the given interpolations. */
  ghost predicate Reduced(v: TableView, keep: set<nat>, lerps: seq<Lerp>, r: TableView) {
    && ValidView(v) && Placed(v.axes, keep, lerps) && ValidView(r)
    && r.axes == CanonicalAxes(Selected(v.axes, keep))
    && forall ix {:trigger InBox(ix, Sizes(r.axes))} :: InBox(ix, Sizes(r.axes)) ==> At(r, ix) == ReducedAt(v, keep, lerps, ix)
  }

  lemma {:induction false} PackedSame(v: TableView, w: TableView)
    requires ValidView(v) && ValidView(w) && v.axes == w.axes
    ensures |v.data| == |w.data|
  {
    if |v.data| < |w.data| {
      var ix := PackedSurjective(|v.data|, Sizes(v.axes), Strides(v.axes), |w.data|);
      PackedRange(ix, Sizes(v.axes), Strides(v.axes), |v.data|);
    } else if |w.data| < |v.data| {
      var ix := PackedSurjective(|w.data|, Sizes(v.axes), Strides(v.axes), |v.data|);
      PackedRange(ix, Sizes(v.axes), Strides(v.axes), |w.data|);
    }
  }

  // A table is determined by its axes and its values.
  lemma {:induction false} SameTable(v: TableView, w: TableView)
    requires ValidView(v) && ValidView(w) && v.axes == w.axes
    requires forall ix {:trigger InBox(ix, Sizes(v.axes))} :: InBox(ix, Sizes(v.axes)) ==> At(v, ix) == At(w, ix)
    ensures v == w
  {
    PackedSame(v, w);
    forall t: nat | t < |v.data| ensures v.data[t] == w.data[t] {
      var ix := PackedSurjective(t, Sizes(v.axes), Strides(v.axes), |v.data|);
      assert At(v, ix) == At(w, ix);
    }
    assert v.data == w.data;
  }

  /** The reduction is unique. */
  lemma {:induction false} ReducedUnique(v: TableView, keep: set<nat>, lerps: seq<Lerp>, r: TableView, s: TableView)
    requires Reduced(v, keep, lerps, r) && Reduced(v, keep, lerps, s)
    ensures r == s
  {
    SameTable(r, s);
  }

  // --- The operation -------------------------------------------------------

  /** phx_table_get_lerp: None when the axis lookup fails its bounds assertion. */
  method GetLerp(t: Table, axisId: nat, index: real) returns (found: bool, r: Option<Lerp>)
    requires t.Valid() && axisId < MAX_AXES
    ensures found <==> Has(t.Axes(), axisId)
    ensures !found ==> r == Some(Lerp(axisId, 0, 0, 0.0))
    ensures found ==> r == AxisLerp(axisId, t.Axes()[Find(t.Axes(), axisId)].indices, index)
  {
    if t.fmt == null || axisId !in t.fmt.axesSet {
      AbsentAxis(t, axisId);
      return false, Some(Lerp(axisId, 0, 0, 0.0));
    }
    var k := t.fmt.GetAxis(axisId);
    r := AxisGetLerp(axisId, t.fmt.axes[k].indices, index);
    found := true;
  }

  // Where the indices of an axis of a new format come from.
  ghost function IndicesFrom(first: seq<Axis>, second: seq<Axis>, id: nat): seq<real>
    requires Has(first, id) || Has(second, id)
  {
    if Has(first, id) then first[Find(first, id)].indices else second[Find(second, id)].indices
  }

  ghost predicate Wanted(want: seq<Axis>, axesSet: set<nat>, first: seq<Axis>, second: seq<Axis>) {
    && Sorted(want) && IdSet(want) == axesSet
    && forall k :: 0 <= k < |want| ==>
         (Has(first, want[k].id) || Has(second, want[k].id)) && want[k].indices == IndicesFrom(first, second, want[k].id)
  }

  lemma {:induction false} SameIds(axes: seq<Axis>, want: seq<Axis>)
    requires Sorted(axes) && Sorted(want) && IdSet(axes) == IdSet(want)
    ensures |axes| == |want| && forall k :: 0 <= k < |axes| ==> axes[k].id == want[k].id
  {
    var s, t := IdsOf(axes), IdsOf(want);
    forall x ensures x in s <==> x in t {
      assert x in s <==> x in IdSet(axes);
      assert x in t <==> x in IdSet(want);
    }
    assert Members(s) == Members(t);
    DistinctCount(s);
    DistinctCount(t);
    SortedUnique(s, t);
  }

  lemma {:induction false} FormatIds(axes: seq<Axis>, lookup: seq<int>, axesSet: set<nat>)
    requires Indexed(axes, lookup, axesSet)
    ensures IdSet(axes) == axesSet
  {
    forall id | id in axesSet ensures id in IdSet(axes) {
      assert ListedId(axes, lookup, axesSet, id);
    }
  }

  // A new format over the given axes, indices copied and strides canonical.
  method DeriveFormat(axesSet: set<nat>, first: Format?, second: Format, ghost want: seq<Axis>) returns (fmt: Format?)
    requires second.Valid() && (first != null ==> first.Valid())
    requires Wanted(want, axesSet, if first == null then [] else first.axes, second.axes)
    requires AllPositive(Sizes(want))
    ensures fmt == null <==> axesSet == {}
    ensures fmt != null ==> fresh(fmt) && fmt.Valid() && fmt.axes == CanonicalAxes(want) && fmt.axes != []
    ensures fmt != null ==> fmt.numValues == Product(Sizes(want)) > 0
  {
    forall id | id in axesSet ensures id < MAX_AXES {
      var k: nat :| k < |want| && want[k].id == id;
      KnownAxis(first, second, id);
    }
    fmt := CreateFormat(axesSet);
    if fmt == null {
      return;
    }
    FormatIds(fmt.axes, fmt.lookup, axesSet);
    SameIds(fmt.axes, want);
    FillIndices(fmt, first, second, want);
    ghost var filled := fmt.axes;
    fmt.UpdateStrides();
    fmt.Finalize();
    SameLayout(filled, want);
    ProductPositive(Sizes(want));
  }

  lemma {:induction false} SameLayout(axes: seq<Axis>, want: seq<Axis>)
    requires |axes| == |want| && forall k :: 0 <= k < |axes| ==> axes[k].id == want[k].id && axes[k].indices == want[k].indices
    ensures CanonicalAxes(axes) == CanonicalAxes(want) && Sizes(CanonicalAxes(want)) == Sizes(want)
  {
    assert Sizes(axes) == Sizes(want);
  }

  method FillIndices(fmt: Format, first: Format?, second: Format, ghost want: seq<Axis>)
    requires fmt.Valid() && second.Valid() && (first != null ==> first.Valid()) && fmt != first && fmt != second
    requires Wanted(want, fmt.axesSet, if first == null then [] else first.axes, second.axes)
    requires |fmt.axes| == |want| && forall k :: 0 <= k < |want| ==> fmt.axes[k].id == want[k].id
    modifies fmt`axes
    ensures fmt.Valid() && |fmt.axes| == |want|
    ensures forall k :: 0 <= k < |want| ==> fmt.axes[k].id == want[k].id && fmt.axes[k].indices == want[k].indices
  {
    var u := 0;
    while u < |fmt.axes|
      invariant u <= |fmt.axes| == |want| && fmt.Valid()
      invariant FilledUpTo(fmt.axes, want, u)
    {
      FillOne(fmt, first, second, want, u);
      u := u + 1;
    }
  }

  // The first u axes have the wanted indices, and all have the wanted ids.
  ghost predicate FilledUpTo(axes: seq<Axis>, want: seq<Axis>, u: nat) {
    && |axes| == |want|
    && (forall k :: 0 <= k < |want| ==> axes[k].id == want[k].id)
    && (forall k :: 0 <= k < |want| && k < u ==> axes[k].indices == want[k].indices)
  }

  method FillOne(fmt: Format, first: Format?, second: Format, ghost want: seq<Axis>, u: nat)
    requires fmt.Valid() && second.Valid() && (first != null ==> first.Valid()) && fmt != first && fmt != second
    requires Wanted(want, fmt.axesSet, if first == null then [] else first.axes, second.axes)
    requires u < |fmt.axes| && FilledUpTo(fmt.axes, want, u)
    modifies fmt`axes
    ensures fmt.Valid() && FilledUpTo(fmt.axes, want, u + 1)
  {
    var id := fmt.axes[u].id;
    FindSorted(fmt.axes, u);
    var indices := CopyIndices(first, second, id);
    fmt.SetIndices(id, indices);
  }

  lemma {:induction false} KnownAxis(first: Format?, second: Format, id: nat)
    requires second.Valid() && (first != null ==> first.Valid())
    requires Has(if first == null then [] else first.axes, id) || Has(second.axes, id)
    ensures id < MAX_AXES
  {
  }

  method CopyIndices(first: Format?, second: Format, id: nat) returns (indices: seq<real>)
    requires second.Valid() && (first != null ==> first.Valid()) && id < MAX_AXES
    requires Has(if first == null then [] else first.axes, id) || Has(second.axes, id)
    ensures indices == IndicesFrom(if first == null then [] else first.axes, second.axes, id)
  {
    assert first != null ==> ListedId(first.axes, first.lookup, first.axesSet, id);
    assert ListedId(second.axes, second.lookup, second.axesSet, id);
    if first != null && id in first.axesSet {
      var k := first.GetAxis(id);
      indices := first.axes[k].indices;
    } else {
      var k := second.GetAxis(id);
      indices := second.axes[k].indices;
    }
  }

  // --- Reduction -----------------------------------------------------------

  lemma {:induction false} SelectedAll(axes: seq<Axis>, axesSet: set<nat>)
    requires forall k :: 0 <= k < |axes| ==> axes[k].id in axesSet
    ensures Selected(axes, axesSet) == axes
  {
    if axes != [] {
      var n := |axes| - 1;
      SelectedAll(axes[..n], axesSet);
      assert axes == axes[..n] + [axes[n]];
    }
  }

  lemma {:induction false} SelectedMember(axes: seq<Axis>, axesSet: set<nat>, k: nat)
    requires Sorted(axes) && k < |Selected(axes, axesSet)|
    ensures var a := Selected(axes, axesSet)[k]; a.id in axesSet && Has(axes, a.id) && axes[Find(axes, a.id)] == a
  {
    var a := Selected(axes, axesSet)[k];
    SelectedIn(axes, axesSet);
    assert a in Selected(axes, axesSet);
    FindMember(axes, a);
  }

  lemma {:induction false} SelectedWanted(axes: seq<Axis>, axesSet: set<nat>)
    requires ValidAxes(axes) && axesSet <= IdSet(axes)
    ensures Wanted(Selected(axes, axesSet), axesSet, [], axes) && AllPositive(Sizes(Selected(axes, axesSet)))
    ensures Selected(axes, axesSet) == [] <==> axesSet == {}
  {
    SelectedValid(axes, axesSet);
    SelectedIds(axes, axesSet);
    var sel := Selected(axes, axesSet);
    assert sel != [] ==> sel[0].id in IdSet(sel);
    forall k | 0 <= k < |sel| ensures Has(axes, sel[k].id) && sel[k].indices == IndicesFrom([], axes, sel[k].id) {
      SelectedMember(axes, axesSet, k);
    }
  }

  // The walked axes of the reduced table, seen from the source.
  lemma {:induction false} ReduceWalk(v: TableView, keep: set<nat>)
    requires ValidView(v)
    ensures var sel := Selected(v.axes, keep);
            && Selected(CanonicalAxes(sel), keep) == CanonicalAxes(sel)
            && SourceStrides(CanonicalAxes(sel), v.axes) == Strides(sel)
            && SameSizes(CanonicalAxes(sel), v.axes)
  {
    hide Packed, Selected;
    var sel := Selected(v.axes, keep);
    forall k | 0 <= k < |sel|
      ensures sel[k].id in keep && StrideIn(v.axes, sel[k].id) == sel[k].stride && SameSize(CanonicalAxes(sel)[k], v.axes)
    {
      SelectedMember(v.axes, keep, k);
    }
    SelectedAll(CanonicalAxes(sel), keep);
    SameStrides(sel, v.axes);
  }

  lemma {:induction false} SameStrides(sel: seq<Axis>, axes: seq<Axis>)
    requires forall k :: 0 <= k < |sel| ==> StrideIn(axes, sel[k].id) == sel[k].stride
    ensures SourceStrides(CanonicalAxes(sel), axes) == Strides(sel)
  {
  }

  // A new table over the kept axes: every address the copy uses is inside.
  lemma {:induction false} ReduceFits(v: TableView, keep: set<nat>, lerps: seq<Lerp>, r: TableView)
    requires ValidView(v) && Placed(v.axes, keep, lerps)
    requires r.axes == CanonicalAxes(Selected(v.axes, keep)) && |r.data| == Product(Sizes(Selected(v.axes, keep)))
    ensures ValidView(r) && SameSizes(Selected(r.axes, keep), v.axes)
    ensures WritesFit(keep, r.axes, |r.data|, 0)
    ensures ReadsFit(keep, r.axes, v.axes, |v.data|, 0, Slots(v.axes, lerps))
  {
    var sel := Selected(v.axes, keep);
    ReduceWalk(v, keep);
    SelectedValid(v.axes, keep);
    CanonicalPacked(Sizes(sel));
    forall ix | InBox(ix, Sizes(sel))
      ensures Dot(ix, Canonical(Sizes(sel))) < Product(Sizes(sel))
      ensures SlotsWithin(Slots(v.axes, lerps), Dot(ix, Strides(sel)), |v.data|)
    {
      PackedRange(ix, Sizes(sel), Canonical(Sizes(sel)), Product(Sizes(sel)));
      ReduceReads(v, keep, lerps, ix);
    }
  }

  // A full copy along the kept axes leaves the reduced table.
  lemma {:induction false} CopiedIsReduced(v: TableView, keep: set<nat>, lerps: seq<Lerp>, was: seq<real>, now: TableView)
    requires ValidView(v) && Placed(v.axes, keep, lerps)
    requires ValidView(now) && now.axes == CanonicalAxes(Selected(v.axes, keep))
    requires var s := Selected(now.axes, keep);
             Copied(was, now.data, v.data, Sizes(s), Strides(s), SourceStrides(s, v.axes), 0, 0, Slots(v.axes, lerps))
    ensures Reduced(v, keep, lerps, now)
  {
    var sel := Selected(v.axes, keep);
    ReduceWalk(v, keep);
    forall ix | InBox(ix, Sizes(now.axes)) ensures At(now, ix) == ReducedAt(v, keep, lerps, ix) {
      ReduceReads(v, keep, lerps, ix);
      assert Filled(now.data, v.data, ix, Canonical(Sizes(sel)), Strides(sel), 0, 0, Slots(v.axes, lerps));
    }
  }

  // The first pass over the fixes: the axes kept and their interpolations.
  method GatherFixes(t: Table, fixes: seq<Fix>) returns (ok: bool, keep: set<nat>, lerps: seq<Lerp>)
    requires t.Valid() && t.fmt != null && forall fix :: fix in fixes ==> fix.axisId < MAX_AXES
    ensures ok <==> Gather(t.Axes(), fixes).Some?
    ensures ok ==> Gather(t.Axes(), fixes) == Some(Gathered(keep, lerps))
  {
    keep, lerps := t.fmt.axesSet, [];
    FormatIds(t.fmt.axes, t.fmt.lookup, t.fmt.axesSet);
    var u := 0;
    while u < |fixes|
      invariant u <= |fixes| && Gather(t.Axes(), fixes[..u]) == Some(Gathered(keep, lerps))
    {
      GatherNext(t.Axes(), fixes, u);
      if fixes[u].axisId in keep {
        keep := keep - {fixes[u].axisId};
        var found, l := GetLerp(t, fixes[u].axisId, fixes[u].index);
        if l.None? {
          GatherNone(t.Axes(), fixes, u + 1);
          return false, keep, lerps;
        }
        if found {
          lerps := lerps + [l.value];
        }
      }
      u := u + 1;
    }
    assert fixes[..u] == fixes;
    ok := true;
  }

  lemma {:induction false} GatherNext(axes: seq<Axis>, fixes: seq<Fix>, u: nat)
    requires (forall k :: 0 <= k < |axes| ==> Increasing(axes[k].indices)) && u < |fixes|
    requires Gather(axes, fixes[..u]).Some?
    ensures Gather(axes, fixes[..u + 1]) == GatherOne(axes, Gather(axes, fixes[..u]).value, fixes[u])
    ensures ValidAxes(axes) && fixes[u].axisId in Gather(axes, fixes[..u]).value.keep ==> Has(axes, fixes[u].axisId)
  {
    assert fixes[..u + 1][..u] == fixes[..u];
    if ValidAxes(axes) && fixes[u].axisId in Gather(axes, fixes[..u]).value.keep {
      GatherPlaced(axes, fixes[..u]);
      var k: nat :| k < |axes| && axes[k].id == fixes[u].axisId;
      FindSorted(axes, k);
    }
  }

  lemma {:induction false} GatherNone(axes: seq<Axis>, fixes: seq<Fix>, u: nat)
    requires (forall k :: 0 <= k < |axes| ==> Increasing(axes[k].indices)) && u <= |fixes|
    requires Gather(axes, fixes[..u]).None?
    ensures Gather(axes, fixes).None?
    decreases |fixes| - u
  {
    if u < |fixes| {
      assert fixes[..u + 1][..u] == fixes[..u];
      GatherNone(axes, fixes, u + 1);
    } else {
      assert fixes[..u] == fixes;
    }
  }

  /** phx_table_reduce.  Returns null where an axis lookup fails its assertion, the
      table itself when no axis is fixed, and otherwise a new canonical table. */
  method Reduce(t: Table, fixes: seq<Fix>) returns (r: Table?)
    requires t.Valid() && forall fix :: fix in fixes ==> fix.axisId < MAX_AXES
    ensures r == null <==> Gather(t.Axes(), fixes).None?
    ensures r != null && Gather(t.Axes(), fixes).value.lerps == [] ==> r == t
    ensures r != null && Gather(t.Axes(), fixes).value.lerps != [] ==>
              var g := Gather(t.Axes(), fixes).value;
              fresh(r) && r.Valid() && Reduced(t.View(), g.keep, g.lerps, r.View())
  {
    if t.fmt == null || |fixes| == 0 {
      NothingFixed(t.Axes(), fixes);
      return t;
    }
    var ok, keep, lerps := GatherFixes(t, fixes);
    if !ok {
      return null;
    }
    GatherPlaced(t.Axes(), fixes);
    FormatIds(t.fmt.axes, t.fmt.lookup, t.fmt.axesSet);
    if keep == t.fmt.axesSet {
      return t;
    }
    SelectedWanted(t.fmt.axes, keep);
    var fmt := DeriveFormat(keep, null, t.fmt, Selected(t.fmt.axes, keep));
    r := ReducedCopy(t, fmt, keep, lerps);
  }

  lemma {:induction false} NothingFixed(axes: seq<Axis>, fixes: seq<Fix>)
    requires forall k :: 0 <= k < |axes| ==> Increasing(axes[k].indices)
    requires axes == [] || fixes == []
    ensures Gather(axes, fixes) == Some(Gathered(IdSet(axes), []))
  {
    if fixes != [] {
      NothingFixed(axes, fixes[..|fixes| - 1]);
    }
  }

  // Creating the result table and copying the values over.
  method ReducedCopy(t: Table, fmt: Format?, keep: set<nat>, lerps: seq<Lerp>) returns (r: Table)
    requires t.Valid() && Placed(t.Axes(), keep, lerps) && forall l :: l in lerps ==> l.axisId < MAX_AXES
    requires fmt == null <==> Selected(t.Axes(), keep) == []
    requires fmt != null ==> fmt.Valid() && fmt.axes != [] && fmt.axes == CanonicalAxes(Selected(t.Axes(), keep))
    requires fmt != null ==> fmt.numValues == Product(Sizes(Selected(t.Axes(), keep))) > 0
    ensures fresh(r) && r.Valid() && Reduced(t.View(), keep, lerps, r.View())
  {
    hide Packed, Reduced, Copied, Placed;
    r := new Table.WithFormat(fmt);
    ghost var v, was := t.View(), r.data[..];
    assert r.Axes() == CanonicalAxes(Selected(v.axes, keep));
    ReduceFits(v, keep, lerps, r.View());
    var _ := CopyValues(keep, r, t, 0, 0, lerps);
    CopiedIsReduced(v, keep, lerps, was, r.View());
  }
}
