/** What fixing one axis of a table means: a lookup along that axis at every
    remaining index vector; and what follows from it. */
module ReduceTheorems {
  import opened MixedRadix
  import opened AxisLookup
  import opened Tables
  import opened TableObjects
  import opened TableCopy
  import opened SlotTheory
  import opened TableReduce

  // --- One axis taken out ----------------------------------------------------

  lemma {:induction false} SelectedRemove(axes: seq<Axis>, k: nat)
    requires Sorted(axes) && k < |axes|
    ensures Selected(axes, IdSet(axes) - {axes[k].id}) == Remove(axes, k)
  {
    SelectedBut(axes, IdSet(axes) - {axes[k].id}, k);
  }

  lemma {:induction false} SelectedBut(axes: seq<Axis>, keep: set<nat>, k: nat)
    requires k < |axes| && forall j :: 0 <= j < |axes| ==> (axes[j].id in keep <==> j != k)
    ensures Selected(axes, keep) == Remove(axes, k)
  {
    var n := |axes| - 1;
    if k == n {
      SelectedAll(axes[..n], keep);
      assert Remove(axes, k) == axes[..n];
    } else {
      SelectedBut(axes[..n], keep, k);
      assert Remove(axes, k) == Remove(axes[..n], k) + [axes[n]];
    }
  }

  lemma {:induction false} RemoveLayout(axes: seq<Axis>, k: nat)
    requires k < |axes|
    ensures Sizes(Remove(axes, k)) == Remove(Sizes(axes), k) && Strides(Remove(axes, k)) == Remove(Strides(axes), k)
  {
  }

  /** Interpolation parameters for one axis of a table. */
  ghost predicate Fixable(v: TableView, k: nat, x: real) {
    ValidView(v) && k < |v.axes| && AxisLerp(v.axes[k].id, v.axes[k].indices, x).Some?
  }

  ghost function LerpOf(v: TableView, k: nat, x: real): Lerp
    requires Fixable(v, k, x)
  {
    AxisLerp(v.axes[k].id, v.axes[k].indices, x).value
  }

  /** The values of the table along axis k through a remaining index vector. */
  ghost function Row(v: TableView, k: nat, ix: seq<nat>): (ys: seq<real>)
    requires ValidView(v) && k < |v.axes| && InBox(ix, Remove(Sizes(v.axes), k))
    ensures |ys| == |v.axes[k].indices|
  {
    seq(|v.axes[k].indices|, i requires 0 <= i < |v.axes[k].indices| => InsertInBox(ix, Sizes(v.axes), k, i); At(v, Insert(ix, k, i)))
  }

  lemma {:induction false} RowAt(v: TableView, k: nat, ix: seq<nat>, i: nat)
    requires ValidView(v) && k < |v.axes| && InBox(ix, Remove(Sizes(v.axes), k)) && i < |v.axes[k].indices|
    ensures InBox(Insert(ix, k, i), Sizes(v.axes)) && Row(v, k, ix)[i] == At(v, Insert(ix, k, i))
  {
    InsertInBox(ix, Sizes(v.axes), k, i);
  }

  // The slot of a row entry: p for the remaining axes, q along axis k.
  lemma {:induction false} RowSlot(v: TableView, k: nat, ix: seq<nat>, i: nat, p: nat, q: nat)
    requires ValidView(v) && k < |v.axes| && InBox(ix, Remove(Sizes(v.axes), k)) && i < |v.axes[k].indices|
    requires p == Dot(ix, Remove(Strides(v.axes), k)) && q == i * v.axes[k].stride
    ensures p + q < |v.data| && Row(v, k, ix)[i] == v.data[p + q]
  {
    RowAt(v, k, ix, i);
    DotInsert(ix, Strides(v.axes), k, i);
    PackedRange(Insert(ix, k, i), Sizes(v.axes), Strides(v.axes), |v.data|);
  }

  /** r is v with axis k looked up by l at every remaining index vector. */
  ghost predicate Looked(v: TableView, k: nat, l: Lerp, r: TableView) {
    && ValidView(v) && ValidView(r) && k < |v.axes|
    && l.lower < |v.axes[k].indices| && l.upper < |v.axes[k].indices| && 0.0 <= l.f <= 1.0
    && r.axes == CanonicalAxes(Remove(v.axes, k))
    && forall ix {:trigger InBox(ix, Sizes(r.axes))} :: InBox(ix, Sizes(r.axes)) ==> LookedAt(v, k, l, r, ix)
  }

  ghost predicate LookedAt(v: TableView, k: nat, l: Lerp, r: TableView, ix: seq<nat>)
    requires ValidView(v) && ValidView(r) && k < |v.axes|
    requires l.lower < |v.axes[k].indices| && l.upper < |v.axes[k].indices|
  {
    && InBox(ix, Remove(Sizes(v.axes), k)) && InBox(ix, Sizes(r.axes))
    && At(r, ix) == Mix(Row(v, k, ix)[l.lower], Row(v, k, ix)[l.upper], l.f)
  }

  /** On the grid, left of it, or from the last interval on, fixing an axis
      interpolates linearly along it. */
  lemma {:induction false} LookupInterpolates(v: TableView, k: nat, x: real, r: TableView, ix: seq<nat>)
    requires Fixable(v, k, x) && Looked(v, k, LerpOf(v, k, x), r) && InBox(ix, Sizes(r.axes))
    requires |v.axes[k].indices| >= 2 && WellPlaced(v.axes[k].indices, x)
    ensures InBox(ix, Remove(Sizes(v.axes), k)) && At(r, ix) == Linear(v.axes[k].indices, Row(v, k, ix), x)
  {
    assert LookedAt(v, k, LerpOf(v, k, x), r, ix);
    WellPlacedIsLinear(v.axes[k].id, v.axes[k].indices, Row(v, k, ix), x);
  }

  // The slots read for one index vector are the two neighbours in its row.
  lemma {:induction false} SlotsInRow(v: TableView, k: nat, l: Lerp, ix: seq<nat>, d: nat)
    requires ValidView(v) && k < |v.axes| && InBox(ix, Remove(Sizes(v.axes), k)) && l.axisId == v.axes[k].id
    requires l.lower < |v.axes[k].indices| && l.upper < |v.axes[k].indices| && 0.0 <= l.f <= 1.0
    requires d == Dot(ix, Remove(Strides(v.axes), k)) && d + Reach(v.axes, [l]) < |v.data|
    ensures SlotsWithin(Slots(v.axes, [l]), d, |v.data|)
    ensures SlotSum(v.data, d, Slots(v.axes, [l])) == Mix(Row(v, k, ix)[l.lower], Row(v, k, ix)[l.upper], l.f)
  {
    FindSorted(v.axes, k);
    var lo, hi := l.lower * v.axes[k].stride, l.upper * v.axes[k].stride;
    OneLerp(v.data, v.axes, d, l, lo, hi);
    RowSlot(v, k, ix, l.lower, d, lo);
    RowSlot(v, k, ix, l.upper, d, hi);
  }

  // The reduced value in terms of positions instead of ids.
  lemma {:induction false} ReducedInRow(v: TableView, k: nat, l: Lerp, keep: set<nat>, ix: seq<nat>)
    requires ValidView(v) && k < |v.axes| && l.axisId == v.axes[k].id && Placed(v.axes, keep, [l])
    requires Selected(v.axes, keep) == Remove(v.axes, k) && InBox(ix, Remove(Sizes(v.axes), k))
    requires l.lower < |v.axes[k].indices| && l.upper < |v.axes[k].indices| && 0.0 <= l.f <= 1.0
    ensures InBox(ix, Sizes(Selected(v.axes, keep)))
    ensures ReducedAt(v, keep, [l], ix) == Mix(Row(v, k, ix)[l.lower], Row(v, k, ix)[l.upper], l.f)
  {
    RemoveLayout(v.axes, k);
    ReduceReads(v, keep, [l], ix);
    SlotsInRow(v, k, l, ix, Dot(ix, Remove(Strides(v.axes), k)));
  }

  /** A reduction by a single fix succeeds unless the axis lookup does not, and its
      result looks every remaining index vector up along that axis. */
  lemma {:induction false} SingleFixGathers(v: TableView, k: nat, x: real)
    requires ValidView(v) && k < |v.axes|
    ensures Gather(v.axes, [Fix(v.axes[k].id, x)]).Some? <==> Fixable(v, k, x)
    ensures Fixable(v, k, x) ==>
              Gather(v.axes, [Fix(v.axes[k].id, x)]) == Some(Gathered(IdSet(v.axes) - {v.axes[k].id}, [LerpOf(v, k, x)]))
  {
    var fixes := [Fix(v.axes[k].id, x)];
    assert fixes[..0] == [];
    FindSorted(v.axes, k);
    assert v.axes[k].id in IdSet(v.axes);
    assert Gather(v.axes, fixes) == GatherOne(v.axes, Gathered(IdSet(v.axes), []), fixes[0]);
    assert Fixable(v, k, x) ==> [] + [LerpOf(v, k, x)] == [LerpOf(v, k, x)];
  }

  lemma {:induction false} ReduceIsLookup(v: TableView, k: nat, x: real, r: TableView)
    requires Fixable(v, k, x) && Reduced(v, IdSet(v.axes) - {v.axes[k].id}, [LerpOf(v, k, x)], r)
    ensures Looked(v, k, LerpOf(v, k, x), r)
  {
    var keep, l := IdSet(v.axes) - {v.axes[k].id}, LerpOf(v, k, x);
    SelectedRemove(v.axes, k);
    RemoveLayout(v.axes, k);
    forall ix | InBox(ix, Sizes(r.axes)) ensures LookedAt(v, k, l, r, ix) {
      assert At(r, ix) == ReducedAt(v, keep, [l], ix);
      ReducedInRow(v, k, l, keep, ix);
    }
  }

  lemma {:induction false} OneLerp(data: seq<real>, axes: seq<Axis>, d: nat, l: Lerp, lo: nat, hi: nat)
    requires Has(axes, l.axisId) && 0.0 <= l.f <= 1.0 && d + Reach(axes, [l]) < |data|
    requires lo == l.lower * StrideIn(axes, l.axisId) && hi == l.upper * StrideIn(axes, l.axisId)
    ensures SlotsWithin(Slots(axes, [l]), d, |data|) && d + lo < |data| && d + hi < |data|
    ensures SlotSum(data, d, Slots(axes, [l])) == Mix(data[d + lo], data[d + hi], l.f)
  {
    var lerps := [l];
    assert lerps[..0] == [];
    StepReach(axes, lerps);
    SlotsExact(data, axes, d, lerps);
    MultilinearStep(data, axes, d, lerps, lo, hi);
  }

  // --- Consequences ------------------------------------------------------------

  ghost predicate ValuesBetween(v: TableView, lo: real, hi: real) {
    forall p :: 0 <= p < |v.data| ==> lo <= v.data[p] <= hi
  }

  /** No entry of a reduced table leaves the range of the source table. */
  lemma {:induction false} LookedBetween(v: TableView, k: nat, l: Lerp, r: TableView, lo: real, hi: real)
    requires Looked(v, k, l, r) && ValuesBetween(v, lo, hi)
    ensures ValuesBetween(r, lo, hi)
  {
    forall p: nat | p < |r.data| ensures lo <= r.data[p] <= hi {
      var ix := PackedSurjective(p, Sizes(r.axes), Strides(r.axes), |r.data|);
      assert LookedAt(v, k, l, r, ix);
      RowBetween(v, k, ix, l.lower, lo, hi);
      RowBetween(v, k, ix, l.upper, lo, hi);
      MixBetween(Row(v, k, ix)[l.lower], Row(v, k, ix)[l.upper], l.f, lo, hi);
    }
  }

  lemma {:induction false} RowBetween(v: TableView, k: nat, ix: seq<nat>, i: nat, lo: real, hi: real)
    requires ValidView(v) && k < |v.axes| && InBox(ix, Remove(Sizes(v.axes), k)) && i < |v.axes[k].indices|
    requires ValuesBetween(v, lo, hi)
    ensures lo <= Row(v, k, ix)[i] <= hi
  {
    RowSlot(v, k, ix, i, Dot(ix, Remove(Strides(v.axes), k)), i * v.axes[k].stride);
  }

  // Values do not fall when the index along axis j grows.
  ghost predicate MonotoneAlong(v: TableView, j: nat)
    requires ValidView(v)
  {
    forall ix, i: nat {:trigger Raised(v, ix, j, i)} :: Raised(v, ix, j, i) ==> At(v, ix) <= At(v, ix[j := i])
  }

  ghost predicate Raised(v: TableView, ix: seq<nat>, j: nat, i: nat) {
    j < |ix| && InBox(ix, Sizes(v.axes)) && ix[j] <= i && InBox(ix[j := i], Sizes(v.axes))
  }

  /** Reduction keeps the table monotone along every remaining axis. */
  lemma {:induction false} LookedMonotone(v: TableView, k: nat, l: Lerp, r: TableView, j: nat)
    requires Looked(v, k, l, r) && MonotoneAlong(v, if j < k then j else j + 1)
    ensures MonotoneAlong(r, j)
  {
    forall ix, i: nat | Raised(r, ix, j, i) ensures At(r, ix) <= At(r, ix[j := i]) {
      var jx := ix[j := i];
      assert LookedAt(v, k, l, r, ix) && LookedAt(v, k, l, r, jx);
      RowRaised(v, k, ix, jx, j, i, l.lower);
      RowRaised(v, k, ix, jx, j, i, l.upper);
      BlendMonotone(Row(v, k, ix)[l.lower], Row(v, k, ix)[l.upper], Row(v, k, jx)[l.lower], Row(v, k, jx)[l.upper], l.f);
    }
  }

  lemma {:induction false} RowRaised(v: TableView, k: nat, ix: seq<nat>, jx: seq<nat>, j: nat, i: nat, m: nat)
    requires ValidView(v) && k < |v.axes| && j < |ix| && m < |v.axes[k].indices| && jx == ix[j := i]
    requires InBox(ix, Remove(Sizes(v.axes), k)) && InBox(jx, Remove(Sizes(v.axes), k)) && ix[j] <= i
    requires MonotoneAlong(v, if j < k then j else j + 1)
    ensures Row(v, k, ix)[m] <= Row(v, k, jx)[m]
  {
    RowAt(v, k, ix, m);
    RowAt(v, k, jx, m);
    InsertUpdate(ix, k, m, j, i);
    assert Raised(v, Insert(ix, k, m), if j < k then j else j + 1, i);
  }

  lemma {:induction false} InsertUpdate(ix: seq<nat>, k: nat, m: nat, j: nat, i: nat)
    requires j < |ix| && k <= |ix|
    ensures var p := if j < k then j else j + 1;
            Insert(ix, k, m)[p] == ix[j] && Insert(ix[j := i], k, m) == Insert(ix, k, m)[p := i]
  {
  }

  lemma {:induction false} BlendMonotone(y0: real, y1: real, z0: real, z1: real, f: real)
    requires 0.0 <= f <= 1.0 && y0 <= z0 && y1 <= z1
    ensures Mix(y0, y1, f) <= Mix(z0, z1, f)
  {
    MixAbove(z0 - y0, z1 - y1, f, 0.0);
    assert (z0 - y0) * (1.0 - f) + (z1 - y1) * f == (z0 * (1.0 - f) + z1 * f) - (y0 * (1.0 - f) + y1 * f);
  }

  // --- Fixing two axes in either order -------------------------------------------

  // Position of axis b once axis a is gone.
  function After(b: nat, a: nat): nat
    requires a != b
  {
    if b > a then b - 1 else b
  }

  lemma {:induction false} InsertTwice<T>(s: seq<T>, a: nat, b: nat, x: T, y: T)
    requires a != b && a < |s| + 2 && b < |s| + 2
    ensures Insert(Insert(s, After(b, a), y), a, x) == Insert(Insert(s, After(a, b), x), b, y)
  {
    var p, q := Insert(Insert(s, After(b, a), y), a, x), Insert(Insert(s, After(a, b), x), b, y);
    forall i | 0 <= i < |p| ensures p[i] == q[i] {
    }
  }

  lemma {:induction false} RemoveTwice<T>(s: seq<T>, a: nat, b: nat)
    requires a != b && a < |s| && b < |s|
    ensures Remove(Remove(s, a), After(b, a)) == Remove(Remove(s, b), After(a, b))
  {
    var p, q := Remove(Remove(s, a), After(b, a)), Remove(Remove(s, b), After(a, b));
    forall i | 0 <= i < |p| ensures p[i] == q[i] {
    }
  }

  lemma {:induction false} CanonicalRemove(axes: seq<Axis>, k: nat)
    requires k < |axes|
    ensures CanonicalAxes(Remove(CanonicalAxes(axes), k)) == CanonicalAxes(Remove(axes, k))
  {
    assert Sizes(Remove(CanonicalAxes(axes), k)) == Sizes(Remove(axes, k));
  }

  // Two lookups at one index vector: four source values.
  lemma {:induction false} LookedTwice(v: TableView, a: nat, la: Lerp, va: TableView, b: nat, lb: Lerp, r: TableView, ix: seq<nat>)
    requires a != b && b < |v.axes| && Looked(v, a, la, va) && Looked(va, After(b, a), lb, r) && InBox(ix, Sizes(r.axes))
    ensures Corners(v, a, la, b, lb, ix)
    ensures At(r, ix) == Mix(Mix(Corner(v, a, la.lower, b, lb.lower, ix), Corner(v, a, la.upper, b, lb.lower, ix), la.f),
                             Mix(Corner(v, a, la.lower, b, lb.upper, ix), Corner(v, a, la.upper, b, lb.upper, ix), la.f), lb.f)
  {
    assert LookedAt(va, After(b, a), lb, r, ix);
    InnerLookup(v, a, la, va, b, lb.lower, ix);
    InnerLookup(v, a, la, va, b, lb.upper, ix);
  }

  ghost predicate Corners(v: TableView, a: nat, la: Lerp, b: nat, lb: Lerp, ix: seq<nat>)
    requires ValidView(v) && a != b && a < |v.axes| && b < |v.axes|
  {
    && CornerIn(v, a, la.lower, b, lb.lower, ix) && CornerIn(v, a, la.upper, b, lb.lower, ix)
    && CornerIn(v, a, la.lower, b, lb.upper, ix) && CornerIn(v, a, la.upper, b, lb.upper, ix)
  }

  ghost predicate CornerIn(v: TableView, a: nat, i: nat, b: nat, j: nat, ix: seq<nat>)
    requires ValidView(v) && a != b && a < |v.axes| && b < |v.axes|
  {
    |ix| + 2 == |v.axes| && InBox(Insert(Insert(ix, After(b, a), j), a, i), Sizes(v.axes))
  }

  // The source value at index i of axis a and index j of axis b.
  ghost function Corner(v: TableView, a: nat, i: nat, b: nat, j: nat, ix: seq<nat>): real
    requires ValidView(v) && a != b && a < |v.axes| && b < |v.axes| && CornerIn(v, a, i, b, j, ix)
  {
    At(v, Insert(Insert(ix, After(b, a), j), a, i))
  }

  lemma {:induction false} InnerLookup(v: TableView, a: nat, la: Lerp, va: TableView, b: nat, j: nat, ix: seq<nat>)
    requires a != b && b < |v.axes| && Looked(v, a, la, va)
    requires InBox(ix, Remove(Sizes(va.axes), After(b, a))) && j < |va.axes[After(b, a)].indices|
    ensures CornerIn(v, a, la.lower, b, j, ix) && CornerIn(v, a, la.upper, b, j, ix)
    ensures Row(va, After(b, a), ix)[j] == Mix(Corner(v, a, la.lower, b, j, ix), Corner(v, a, la.upper, b, j, ix), la.f)
  {
    var jx := Insert(ix, After(b, a), j);
    RowAt(va, After(b, a), ix, j);
    assert LookedAt(v, a, la, va, jx);
    RowAt(v, a, jx, la.lower);
    RowAt(v, a, jx, la.upper);
  }

  lemma {:induction false} MixTwice(p: real, q: real, r: real, s: real, f: real, g: real)
    ensures Mix(Mix(p, q, f), Mix(r, s, f), g) == Mix(Mix(p, r, g), Mix(q, s, g), f)
  {
  }

  // The second axis can be fixed exactly when it could before, with the same interpolation.
  lemma {:induction false} StillFixable(v: TableView, a: nat, b: nat, y: real, va: TableView)
    requires ValidView(v) && a != b && a < |v.axes| && b < |v.axes| && ValidView(va) && va.axes == CanonicalAxes(Remove(v.axes, a))
    ensures Fixable(va, After(b, a), y) <==> Fixable(v, b, y)
    ensures Fixable(v, b, y) ==> LerpOf(va, After(b, a), y) == LerpOf(v, b, y)
  {
    assert va.axes[After(b, a)].id == v.axes[b].id && va.axes[After(b, a)].indices == v.axes[b].indices;
  }

  /** Fixing axis a at x and then axis b at y succeeds exactly when b and then a does, and gives
      the same table. */
  lemma {:induction false} ReduceCommutes(v: TableView, a: nat, x: real, va: TableView, b: nat, y: real, vb: TableView, r: TableView, s: TableView)
    requires ValidView(v) && a != b && a < |v.axes| && b < |v.axes|
    requires Fixable(v, a, x) ==> Looked(v, a, LerpOf(v, a, x), va)
    requires Fixable(v, b, y) ==> Looked(v, b, LerpOf(v, b, y), vb)
    requires Fixable(v, a, x) && Fixable(va, After(b, a), y) ==> Looked(va, After(b, a), LerpOf(va, After(b, a), y), r)
    requires Fixable(v, b, y) && Fixable(vb, After(a, b), x) ==> Looked(vb, After(a, b), LerpOf(vb, After(a, b), x), s)
    ensures Fixable(v, a, x) && Fixable(va, After(b, a), y) <==> Fixable(v, b, y) && Fixable(vb, After(a, b), x)
    ensures Fixable(v, a, x) && Fixable(va, After(b, a), y) ==> r == s
  {
    if Fixable(v, a, x) {
      StillFixable(v, a, b, y, va);
    }
    if Fixable(v, b, y) {
      StillFixable(v, b, a, x, vb);
    }
    if Fixable(v, a, x) && Fixable(v, b, y) {
      LookedCommutes(v, a, LerpOf(v, a, x), va, b, LerpOf(v, b, y), vb, r, s);
    }
  }

  lemma {:induction false} LookedCommutes(v: TableView, a: nat, la: Lerp, va: TableView, b: nat, lb: Lerp, vb: TableView, r: TableView, s: TableView)
    requires a != b && Looked(v, a, la, va) && Looked(v, b, lb, vb) && Looked(va, After(b, a), lb, r) && Looked(vb, After(a, b), la, s)
    ensures r == s
  {
    CanonicalRemove(Remove(v.axes, a), After(b, a));
    CanonicalRemove(Remove(v.axes, b), After(a, b));
    RemoveTwice(v.axes, a, b);
    forall ix | InBox(ix, Sizes(r.axes)) ensures At(r, ix) == At(s, ix) {
      CommutesAt(v, a, la, va, b, lb, vb, r, s, ix);
    }
    SameTable(r, s);
  }

  lemma {:induction false} CommutesAt(v: TableView, a: nat, la: Lerp, va: TableView, b: nat, lb: Lerp, vb: TableView,
                                      r: TableView, s: TableView, ix: seq<nat>)
    requires a != b && Looked(v, a, la, va) && Looked(v, b, lb, vb) && Looked(va, After(b, a), lb, r) && Looked(vb, After(a, b), la, s)
    requires r.axes == s.axes && InBox(ix, Sizes(r.axes))
    ensures At(r, ix) == At(s, ix)
  {
    LookedTwice(v, a, la, va, b, lb, r, ix);
    LookedTwice(v, b, lb, vb, a, la, s, ix);
    SameCorner(v, a, la.lower, b, lb.lower, ix);
    SameCorner(v, a, la.upper, b, lb.lower, ix);
    SameCorner(v, a, la.lower, b, lb.upper, ix);
    SameCorner(v, a, la.upper, b, lb.upper, ix);
    MixTwice(Corner(v, a, la.lower, b, lb.lower, ix), Corner(v, a, la.upper, b, lb.lower, ix),
             Corner(v, a, la.lower, b, lb.upper, ix), Corner(v, a, la.upper, b, lb.upper, ix), la.f, lb.f);
  }

  lemma {:induction false} SameCorner(v: TableView, a: nat, i: nat, b: nat, j: nat, ix: seq<nat>)
    requires ValidView(v) && a != b && a < |v.axes| && b < |v.axes| && CornerIn(v, a, i, b, j, ix)
    ensures CornerIn(v, b, j, a, i, ix) && Corner(v, b, j, a, i, ix) == Corner(v, a, i, b, j, ix)
  {
    InsertTwice(ix, a, b, i, j);
  }
}
