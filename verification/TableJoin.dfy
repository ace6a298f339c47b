/** Joining two tables: the values of the index table are looked up along one axis
    of the base table (phx_table_join). */
module TableJoin {
  import opened MixedRadix
  import opened AxisLookup
  import opened Tables
  import opened TableObjects
  import opened TableCopy
  import opened TableReduce
  import opened ReduceTheorems
  import opened Slices

  // The axes of the result: the joined axis takes the indices of the index table.
  ghost function JoinedAxes(axes: seq<Axis>, k: nat, indices: seq<real>): seq<Axis>
    requires k < |axes|
  {
    axes[k := axes[k].(indices := indices)]
  }

  /** The destination stride is taken from the base table; it is the stride of the
      result when the base packs the axes before the joined one canonically. */
  ghost predicate StrideAgrees(axes: seq<Axis>, k: nat)
    requires k < |axes|
  {
    axes[k].stride == Product(Sizes(axes)[..k])
  }

  /** An index table whose only axis is the joined one. */
  ghost predicate IndexesAlong(w: TableView, id: nat) {
    ValidView(w) && |w.axes| == 1 && w.axes[0].id == id
  }

  ghost function IndexValue(w: TableView, i: nat): real
    requires ValidView(w) && |w.axes| == 1 && i < |w.axes[0].indices|
  {
    assert InBox([i], Sizes(w.axes));
    At(w, [i])
  }

  // The lookups that the join performs all pass their assertion.
  ghost predicate EveryFixable(v: TableView, k: nat, w: TableView)
    requires ValidView(w) && |w.axes| == 1
  {
    forall i: nat :: i < |w.axes[0].indices| ==> Fixable(v, k, IndexValue(w, i))
  }

  // Slice i of the result is the base looked up at the i-th value of the index table.
  ghost predicate SliceJoined(v: TableView, k: nat, w: TableView, r: TableView, i: nat)
    requires ValidView(v) && ValidView(r) && k < |v.axes| && ValidView(w) && |w.axes| == 1
  {
    && i < |w.axes[0].indices| && Fixable(v, k, IndexValue(w, i))
    && forall jx {:trigger InBox(jx, Remove(Sizes(v.axes), k))} :: InBox(jx, Remove(Sizes(v.axes), k)) ==>
         EntryJoined(v, k, LerpOf(v, k, IndexValue(w, i)), r, i, jx)
  }

  ghost predicate EntryJoined(v: TableView, k: nat, l: Lerp, r: TableView, i: nat, jx: seq<nat>)
    requires ValidView(v) && ValidView(r) && k < |v.axes|
  {
    && l.lower < |v.axes[k].indices| && l.upper < |v.axes[k].indices|
    && k <= |jx| && InBox(jx, Remove(Sizes(v.axes), k)) && InBox(Insert(jx, k, i), Sizes(r.axes))
    && At(r, Insert(jx, k, i)) == Mix(Row(v, k, jx)[l.lower], Row(v, k, jx)[l.upper], l.f)
  }

  /** r is the composition of the index table w into axis k of the base table v. */
  ghost predicate Joined(v: TableView, k: nat, w: TableView, r: TableView) {
    && ValidView(v) && ValidView(r) && ValidView(w) && k < |v.axes| && |w.axes| == 1
    && r.axes == CanonicalAxes(JoinedAxes(v.axes, k, w.axes[0].indices))
    && forall i: nat :: i < |w.axes[0].indices| ==> SliceJoined(v, k, w, r, i)
  }

  /** The join is pointwise composition: result(i, rest) is the base looked up at w(i). */
  lemma {:induction false} JoinIsComposition(v: TableView, k: nat, w: TableView, r: TableView, ix: seq<nat>)
    requires Joined(v, k, w, r) && InBox(ix, Sizes(r.axes))
    ensures ix[k] < |w.axes[0].indices| && Fixable(v, k, IndexValue(w, ix[k])) && InBox(Remove(ix, k), Remove(Sizes(v.axes), k))
    ensures At(r, ix) == Blend(LerpOf(v, k, IndexValue(w, ix[k])), Row(v, k, Remove(ix, k)))
  {
    hide Packed;
    var i, jx := ix[k], Remove(ix, k);
    JoinedLayout(v, k, w.axes[0].indices, r);
    RemoveInBox(ix, Sizes(r.axes), k);
    assert SliceJoined(v, k, w, r, i);
    assert EntryJoined(v, k, LerpOf(v, k, IndexValue(w, i)), r, i, jx);
    assert ix == Insert(jx, k, i);
  }

  /** Joining with a constant index table is the reduction at that constant, at every index. */
  lemma {:induction false} ConstantJoinIsReduction(v: TableView, k: nat, w: TableView, r: TableView, x: real, s: TableView, ix: seq<nat>)
    requires Joined(v, k, w, r) && InBox(ix, Sizes(r.axes))
    requires forall i: nat :: i < |w.axes[0].indices| ==> IndexValue(w, i) == x
    requires Fixable(v, k, x) ==> Looked(v, k, LerpOf(v, k, x), s)
    ensures Fixable(v, k, x) && InBox(Remove(ix, k), Sizes(s.axes)) && At(r, ix) == At(s, Remove(ix, k))
  {
    JoinIsComposition(v, k, w, r, ix);
    assert IndexValue(w, ix[k]) == x;
    RemoveLayout(v.axes, k);
    assert LookedAt(v, k, LerpOf(v, k, x), s, Remove(ix, k));
  }

  /** No entry of the join leaves the range of the base table. */
  lemma {:induction false} JoinBetween(v: TableView, k: nat, w: TableView, r: TableView, lo: real, hi: real)
    requires Joined(v, k, w, r) && ValuesBetween(v, lo, hi)
    ensures ValuesBetween(r, lo, hi)
  {
    forall p: nat | p < |r.data| ensures lo <= r.data[p] <= hi {
      var ix := PackedSurjective(p, Sizes(r.axes), Strides(r.axes), |r.data|);
      JoinIsComposition(v, k, w, r, ix);
      var l, jx := LerpOf(v, k, IndexValue(w, ix[k])), Remove(ix, k);
      RowBetween(v, k, jx, l.lower, lo, hi);
      RowBetween(v, k, jx, l.upper, lo, hi);
      MixBetween(Row(v, k, jx)[l.lower], Row(v, k, jx)[l.upper], l.f, lo, hi);
    }
  }

  // --- What the program writes ------------------------------------------------

  // The stride that the result gives the joined axis.
  ghost function OwnStride(axes: seq<Axis>, k: nat): nat
    requires k < |axes|
  {
    Product(Sizes(axes)[..k])
  }

  // The slices as the program places them: the base's stride apart.
  ghost function SlicingOf(axes: seq<Axis>, k: nat, indices: seq<real>): (g: Slicing)
    requires k < |axes|
    ensures |g.sizes| == |g.rest| == |axes| - 1 && g.sizes == Remove(Sizes(axes), k) && g.n == |indices|
    ensures g.step == axes[k].stride && g.own == OwnStride(axes, k)
  {
    var r := CanonicalAxes(JoinedAxes(axes, k, indices));
    Slicing(Remove(Sizes(axes), k), Remove(Strides(r), k), axes[k].stride, OwnStride(axes, k), |indices|, Product(Sizes(r)))
  }

  ghost function EntryOf(v: TableView, k: nat, w: TableView, e: Entry): real
    requires ValidView(w) && |w.axes| == 1 && e.slice < |w.axes[0].indices| && Fixable(v, k, IndexValue(w, e.slice))
    requires InBox(e.jx, Remove(Sizes(v.axes), k))
  {
    Blend(LerpOf(v, k, IndexValue(w, e.slice)), Row(v, k, e.jx))
  }

  /** Slot p after m slices: the entry written there last, or still zero. */
  ghost function Overlay(v: TableView, k: nat, w: TableView, m: nat, p: int): real
    requires ValidView(v) && k < |v.axes| && ValidView(w) && |w.axes| == 1 && m <= |w.axes[0].indices|
    requires forall t: nat :: t < m ==> Fixable(v, k, IndexValue(w, t))
  {
    var e := LastWrite(SlicingOf(v.axes, k, w.axes[0].indices), m, p);
    if e.None? then 0.0 else EntryOf(v, k, w, e.value)
  }

  ghost predicate Overlaid(v: TableView, k: nat, w: TableView, m: nat, data: seq<real>) {
    && ValidView(v) && k < |v.axes| && ValidView(w) && |w.axes| == 1 && m <= |w.axes[0].indices|
    && (forall t: nat :: t < m ==> Fixable(v, k, IndexValue(w, t)))
    && forall p :: 0 <= p < |data| ==> data[p] == Overlay(v, k, w, m, p)
  }

  /** The table that the join leaves when no lookup fails and no write leaves the buffer. */
  ghost function JoinResult(v: TableView, k: nat, w: TableView): (r: TableView)
    requires ValidView(v) && k < |v.axes| && ValidView(w) && |w.axes| == 1 && EveryFixable(v, k, w)
    ensures r.axes == CanonicalAxes(JoinedAxes(v.axes, k, w.axes[0].indices)) && |r.data| == Product(Sizes(r.axes))
    ensures Overlaid(v, k, w, |w.axes[0].indices|, r.data)
  {
    var axes, n := CanonicalAxes(JoinedAxes(v.axes, k, w.axes[0].indices)), |w.axes[0].indices|;
    TableView(axes, seq(Product(Sizes(axes)), p requires 0 <= p < Product(Sizes(axes)) => Overlay(v, k, w, n, p)))
  }

  // --- One slice -----------------------------------------------------------

  lemma {:induction false} JoinedLayout(v: TableView, k: nat, indices: seq<real>, r: TableView)
    requires ValidView(v) && k < |v.axes| && r.axes == CanonicalAxes(JoinedAxes(v.axes, k, indices))
    ensures |r.axes| == |v.axes| && Sizes(r.axes)[k] == |indices| && r.axes[k].id == v.axes[k].id
    ensures Remove(Sizes(r.axes), k) == Remove(Sizes(v.axes), k)
    ensures IdSet(r.axes) == IdSet(v.axes)
    ensures Strides(r.axes)[k] == Product(Sizes(v.axes)[..k])
  {
    var j := JoinedAxes(v.axes, k, indices);
    assert Sizes(j)[..k] == Sizes(v.axes)[..k];
    forall id ensures id in IdSet(r.axes) <==> id in IdSet(v.axes) {
      if id in IdSet(v.axes) {
        var i: nat :| i < |v.axes| && v.axes[i].id == id;
        assert r.axes[i].id == id;
      }
      if id in IdSet(r.axes) {
        var i: nat :| i < |r.axes| && r.axes[i].id == id;
        assert v.axes[i].id == id;
      }
    }
  }

  // Two tables with the same index box apart from axis k, where r has n indices.
  ghost predicate Beside(v: TableView, k: nat, n: nat, r: TableView) {
    && ValidView(v) && ValidView(r) && k < |v.axes| == |r.axes|
    && Remove(Sizes(r.axes), k) == Remove(Sizes(v.axes), k) && Sizes(r.axes)[k] == n
    && (forall j :: 0 <= j < |v.axes| ==> v.axes[j].id == r.axes[j].id)
  }

  // The walked axes of a slice: all but the joined one, the same in both tables.
  lemma {:induction false} SliceWalk(v: TableView, k: nat, n: nat, r: TableView)
    requires Beside(v, k, n, r)
    ensures var keep := IdSet(v.axes) - {v.axes[k].id};
            && Selected(r.axes, keep) == Remove(r.axes, k)
            && SourceStrides(Remove(r.axes, k), v.axes) == Remove(Strides(v.axes), k)
            && SameSizes(Remove(r.axes, k), v.axes)
            && Sizes(Remove(r.axes, k)) == Remove(Sizes(v.axes), k)
            && Strides(Remove(r.axes, k)) == Remove(Strides(r.axes), k)
  {
    forall j | 0 <= j < |r.axes| ensures r.axes[j].id in IdSet(v.axes) - {v.axes[k].id} <==> j != k {
      assert v.axes[j].id in IdSet(v.axes);
    }
    SelectedBut(r.axes, IdSet(v.axes) - {v.axes[k].id}, k);
    RemoveLayout(r.axes, k);
    var m := Remove(r.axes, k);
    forall j | 0 <= j < |m| ensures SameSize(m[j], v.axes) && StrideIn(v.axes, m[j].id) == Remove(Strides(v.axes), k)[j] {
      RemovedAxis(v, k, n, r, j);
    }
  }

  lemma {:induction false} RemovedAxis(v: TableView, k: nat, n: nat, r: TableView, j: nat)
    requires Beside(v, k, n, r) && j + 1 < |r.axes|
    ensures var a := Remove(r.axes, k)[j]; SameSize(a, v.axes) && StrideIn(v.axes, a.id) == Remove(Strides(v.axes), k)[j]
  {
    var i := if j < k then j else j + 1;
    FindSorted(v.axes, i);
    assert Remove(Sizes(r.axes), k)[j] == Sizes(r.axes)[i] && Remove(Sizes(v.axes), k)[j] == Sizes(v.axes)[i];
  }

  // An entry of slice i lies at the slice's offset plus its address in the rest.
  lemma {:induction false} SliceAddress(v: TableView, k: nat, n: nat, r: TableView, i: nat, offset: nat, jx: seq<nat>)
    requires Beside(v, k, n, r) && i < n && offset == i * Strides(r.axes)[k]
    requires InBox(jx, Remove(Sizes(v.axes), k))
    ensures InBox(Insert(jx, k, i), Sizes(r.axes))
    ensures offset + Dot(jx, Remove(Strides(r.axes), k)) == Dot(Insert(jx, k, i), Strides(r.axes)) < |r.data|
  {
    InsertInBox(jx, Sizes(r.axes), k, i);
    DotInsert(jx, Strides(r.axes), k, i);
    PackedRange(Insert(jx, k, i), Sizes(r.axes), Strides(r.axes), |r.data|);
  }

  lemma {:induction false} OnlyLerp(v: TableView, k: nat, l: Lerp)
    requires ValidView(v) && k < |v.axes| && l.axisId == v.axes[k].id
    requires l.lower < |v.axes[k].indices| && l.upper < |v.axes[k].indices| && 0.0 <= l.f <= 1.0
    ensures Placed(v.axes, IdSet(v.axes) - {v.axes[k].id}, [l])
    ensures Selected(v.axes, IdSet(v.axes) - {v.axes[k].id}) == Remove(v.axes, k)
  {
    FindSorted(v.axes, k);
    assert PlacedAt(v.axes, IdSet(v.axes) - {v.axes[k].id}, l);
    SelectedRemove(v.axes, k);
  }

  // What a slice reads from the base for one remaining index vector.
  lemma {:induction false} SliceReads(v: TableView, k: nat, l: Lerp, jx: seq<nat>)
    requires ValidView(v) && k < |v.axes| && l.axisId == v.axes[k].id
    requires l.lower < |v.axes[k].indices| && l.upper < |v.axes[k].indices| && 0.0 <= l.f <= 1.0
    requires InBox(jx, Remove(Sizes(v.axes), k))
    ensures SlotsWithin(Slots(v.axes, [l]), Dot(jx, Remove(Strides(v.axes), k)), |v.data|)
    ensures SlotSum(v.data, Dot(jx, Remove(Strides(v.axes), k)), Slots(v.axes, [l])) == Mix(Row(v, k, jx)[l.lower], Row(v, k, jx)[l.upper], l.f)
  {
    OnlyLerp(v, k, l);
    RemoveLayout(v.axes, k);
    ReduceReads(v, IdSet(v.axes) - {v.axes[k].id}, [l], jx);
    SlotsInRow(v, k, l, jx, Dot(jx, Remove(Strides(v.axes), k)));
  }

  lemma {:induction false} SliceFits(v: TableView, k: nat, n: nat, r: TableView, l: Lerp, offset: nat)
    requires Beside(v, k, n, r) && n > 0 && offset <= Start(n - 1, Strides(r.axes)[k]) && l.axisId == v.axes[k].id
    requires l.lower < |v.axes[k].indices| && l.upper < |v.axes[k].indices| && 0.0 <= l.f <= 1.0
    ensures var keep := IdSet(v.axes) - {v.axes[k].id};
            && SameSizes(Selected(r.axes, keep), v.axes)
            && WritesFit(keep, r.axes, |r.data|, offset)
            && ReadsFit(keep, r.axes, v.axes, |v.data|, 0, Slots(v.axes, [l]))
  {
    SliceWalk(v, k, n, r);
    forall jx | InBox(jx, Remove(Sizes(v.axes), k))
      ensures offset + Dot(jx, Remove(Strides(r.axes), k)) < |r.data|
      ensures SlotsWithin(Slots(v.axes, [l]), Dot(jx, Remove(Strides(v.axes), k)), |v.data|)
    {
      SliceAddress(v, k, n, r, n - 1, Start(n - 1, Strides(r.axes)[k]), jx);
      SliceReads(v, k, l, jx);
    }
  }

  // The copy of one slice in terms of the remaining axes.
  lemma {:induction false} CopiedSlice(v: TableView, k: nat, n: nat, r: TableView, was: seq<real>, offset: nat, slots: seq<Slot>)
    requires Beside(v, k, n, r)
    requires var m := Selected(r.axes, IdSet(v.axes) - {v.axes[k].id});
             Copied(was, r.data, v.data, Sizes(m), Strides(m), SourceStrides(m, v.axes), offset, 0, slots)
    ensures Copied(was, r.data, v.data, Remove(Sizes(v.axes), k), Remove(Strides(r.axes), k), Remove(Strides(v.axes), k), offset, 0, slots)
  {
    SliceWalk(v, k, n, r);
  }

  lemma {:induction false} CoversWalked(g: Slicing, t: nat, p: int)
    requires |g.sizes| == |g.rest|
    ensures Covers(g, t, p) <==> Walked(p, Start(t, g.step), g.sizes, g.rest)
  {
    if Walked(p, Start(t, g.step), g.sizes, g.rest) {
      var jx :| InBox(jx, g.sizes) && Dot(jx, g.rest) == p - t * g.step;
      assert EntryAt(g, t, jx, p);
    }
    if Covers(g, t, p) {
      var jx :| EntryAt(g, t, jx, p);
    }
  }

  // What the copy of one slice does to the whole table.
  lemma {:induction false} SliceOverlaid(v: TableView, k: nat, w: TableView, g: Slicing, was: seq<real>, now: seq<real>, l: Lerp, t: nat)
    requires Overlaid(v, k, w, t, was) && t < |w.axes[0].indices|
    requires Fixable(v, k, IndexValue(w, t)) && l == LerpOf(v, k, IndexValue(w, t))
    requires g == SlicingOf(v.axes, k, w.axes[0].indices)
    requires Copied(was, now, v.data, g.sizes, g.rest, Remove(Strides(v.axes), k), Start(t, g.step), 0, Slots(v.axes, [l]))
    ensures Overlaid(v, k, w, t + 1, now)
  {
    hide Walked, Packed, SlicingOf, ValidView, Fixable;
    forall p | 0 <= p < |now| ensures now[p] == Overlay(v, k, w, t + 1, p) {
      CoversWalked(g, t, p);
      var e := LastWrite(g, t + 1, p);
      if Covers(g, t, p) {
        assert e.value.slice == t;
        EntryCopied(v, k, w, g, now, l, e.value, p);
      } else {
        assert e == LastWrite(g, t, p) && now[p] == was[p];
      }
    }
  }

  lemma {:induction false} EntryCopied(v: TableView, k: nat, w: TableView, g: Slicing, now: seq<real>, l: Lerp, e: Entry, p: nat)
    requires ValidView(v) && k < |v.axes| && ValidView(w) && |w.axes| == 1 && e.slice < |w.axes[0].indices|
    requires Fixable(v, k, IndexValue(w, e.slice)) && l == LerpOf(v, k, IndexValue(w, e.slice))
    requires g.sizes == Remove(Sizes(v.axes), k) && |g.rest| == |g.sizes| && EntryAt(g, e.slice, e.jx, p)
    requires forall ix {:trigger InBox(ix, g.sizes)} :: InBox(ix, g.sizes) ==>
               Filled(now, v.data, ix, g.rest, Remove(Strides(v.axes), k), Start(e.slice, g.step), 0, Slots(v.axes, [l]))
    ensures p < |now| && now[p] == EntryOf(v, k, w, e)
  {
    hide ValidView;
    assert Filled(now, v.data, e.jx, g.rest, Remove(Strides(v.axes), k), Start(e.slice, g.step), 0, Slots(v.axes, [l]));
    SliceReads(v, k, l, e.jx);
  }

  // --- When that is the join ------------------------------------------------------

  lemma {:induction false} ResultSlices(v: TableView, k: nat, w: TableView, r: TableView) returns (top: seq<nat>)
    requires ValidView(v) && k < |v.axes| && IndexesAlong(w, v.axes[k].id)
    requires r.axes == CanonicalAxes(JoinedAxes(v.axes, k, w.axes[0].indices)) && |r.data| == Product(Sizes(r.axes))
    ensures var g := SlicingOf(v.axes, k, w.axes[0].indices);
            && Beside(v, k, |w.axes[0].indices|, r) && g.size == |r.data| > 0 && |w.axes[0].indices| > 0
            && Strides(r.axes)[k] == g.own && Remove(Strides(r.axes), k) == g.rest
            && Fills(g, top) && OwnSlots(g)
  {
    var g := SlicingOf(v.axes, k, w.axes[0].indices);
    assert Sizes(w.axes)[0] == |w.axes[0].indices|;
    FreshBeside(v, k, w.axes[0].indices, r);
    ProductPositive(Sizes(r.axes));
    SlicesHere(v, k, w.axes[0].indices, r, g);
    top := TopEntry(g, Sizes(r.axes), Strides(r.axes), k);
    PackedOneToOne(g, Sizes(r.axes), Strides(r.axes), k);
  }

  lemma {:induction false} SlicesHere(v: TableView, k: nat, indices: seq<real>, r: TableView, g: Slicing)
    requires k < |v.axes| && |indices| > 0 && Beside(v, k, |indices|, r) && Strides(r.axes)[k] == Product(Sizes(v.axes)[..k])
    requires r.axes == CanonicalAxes(JoinedAxes(v.axes, k, indices)) && |r.data| == Product(Sizes(r.axes))
    requires g == SlicingOf(v.axes, k, indices)
    ensures SlicesOf(g, Sizes(r.axes), Strides(r.axes), k)
  {
  }

  /** Where the strides agree, or with a single slice, the result is the composition. */
  lemma {:induction false} AgreeingJoin(v: TableView, k: nat, w: TableView)
    requires ValidView(v) && k < |v.axes| && IndexesAlong(w, v.axes[k].id) && EveryFixable(v, k, w)
    requires StrideAgrees(v.axes, k) || |w.axes[0].indices| == 1
    ensures Joined(v, k, w, JoinResult(v, k, w))
  {
    var r := JoinResult(v, k, w);
    var top := ResultSlices(v, k, w, r);
    forall i: nat | i < |w.axes[0].indices| ensures SliceJoined(v, k, w, r, i) {
      SliceAgrees(v, k, w, r, i);
    }
  }

  lemma {:induction false} SliceAgrees(v: TableView, k: nat, w: TableView, r: TableView, i: nat)
    requires k < |v.axes| && IndexesAlong(w, v.axes[k].id) && EveryFixable(v, k, w) && i < |w.axes[0].indices|
    requires StrideAgrees(v.axes, k) || |w.axes[0].indices| == 1
    requires Beside(v, k, |w.axes[0].indices|, r) && Overlaid(v, k, w, |w.axes[0].indices|, r.data)
    requires var g := SlicingOf(v.axes, k, w.axes[0].indices);
             Strides(r.axes)[k] == g.own && Remove(Strides(r.axes), k) == g.rest && OwnSlots(g)
    ensures SliceJoined(v, k, w, r, i)
  {
    var g := SlicingOf(v.axes, k, w.axes[0].indices);
    forall jx {:trigger InBox(jx, Remove(Sizes(v.axes), k))} | InBox(jx, Remove(Sizes(v.axes), k))
      ensures EntryJoined(v, k, LerpOf(v, k, IndexValue(w, i)), r, i, jx)
    {
      EntryAddressed(v, k, r, g, i, jx);
      EntryInPlace(v, k, w, r, i, jx);
    }
  }

  lemma {:induction false} EntryAddressed(v: TableView, k: nat, r: TableView, g: Slicing, i: nat, jx: seq<nat>)
    requires Beside(v, k, g.n, r) && i < g.n && g.sizes == Remove(Sizes(v.axes), k) && InBox(jx, g.sizes)
    requires Strides(r.axes)[k] == g.own && Remove(Strides(r.axes), k) == g.rest && OwnSlots(g) && (g.step == g.own || g.n == 1)
    ensures k <= |jx| && InBox(Insert(jx, k, i), Sizes(r.axes)) && Dot(Insert(jx, k, i), Strides(r.axes)) < |r.data|
    ensures LastWrite(g, g.n, Dot(Insert(jx, k, i), Strides(r.axes))) == Some(Entry(i, jx))
  {
    hide Packed, ValidView, OwnSlots;
    EntryStays(g, i, jx, g.n);
    SliceAddress(v, k, g.n, r, i, Start(i, g.own), jx);
  }

  lemma {:induction false} EntryInPlace(v: TableView, k: nat, w: TableView, r: TableView, i: nat, jx: seq<nat>)
    requires k < |v.axes| && ValidView(w) && |w.axes| == 1 && i < |w.axes[0].indices| && EveryFixable(v, k, w)
    requires ValidView(v) && ValidView(r) && k <= |jx| && InBox(jx, Remove(Sizes(v.axes), k)) && InBox(Insert(jx, k, i), Sizes(r.axes))
    requires Dot(Insert(jx, k, i), Strides(r.axes)) < |r.data|
    requires Overlaid(v, k, w, |w.axes[0].indices|, r.data)
    requires LastWrite(SlicingOf(v.axes, k, w.axes[0].indices), |w.axes[0].indices|, Dot(Insert(jx, k, i), Strides(r.axes))) == Some(Entry(i, jx))
    ensures EntryJoined(v, k, LerpOf(v, k, IndexValue(w, i)), r, i, jx)
  {
    assert r.data[Dot(Insert(jx, k, i), Strides(r.axes))] == EntryOf(v, k, w, Entry(i, jx));
  }

  /** No write leaves the result exactly when the base's stride is at most the result's own, or
      there is only one slice. */
  lemma {:induction false} WritesInsideIff(v: TableView, k: nat, w: TableView)
    requires ValidView(v) && k < |v.axes| && IndexesAlong(w, v.axes[k].id)
    ensures AllInside(SlicingOf(v.axes, k, w.axes[0].indices)) <==> v.axes[k].stride <= OwnStride(v.axes, k) || |w.axes[0].indices| == 1
  {
    var axes := CanonicalAxes(JoinedAxes(v.axes, k, w.axes[0].indices));
    var top := ResultSlices(v, k, w, TableView(axes, Ones(Product(Sizes(axes)))));
    AllInsideIff(SlicingOf(v.axes, k, w.axes[0].indices), top);
  }

  ghost function Ones(n: nat): (d: seq<real>)
    ensures |d| == n && forall p :: 0 <= p < n ==> d[p] == 1.0
  {
    seq(n, p => 1.0)
  }

  ghost predicate Joinable(axes: seq<Axis>, k: nat, along: seq<Axis>, v: TableView, w: TableView) {
    && v.axes == axes && w.axes == along && ValidView(v) && k < |axes| && IndexesAlong(w, axes[k].id) && EveryFixable(v, k, w)
  }

  ghost predicate JoinsExactly(v: TableView, k: nat, w: TableView) {
    ValidView(v) && k < |v.axes| && ValidView(w) && |w.axes| == 1 && EveryFixable(v, k, w) && Joined(v, k, w, JoinResult(v, k, w))
  }

  /** With a stride that stays inside, the result is the composition for every base and index
      data exactly when the strides agree or there is only one slice. */
  lemma {:induction false} JoinStrideIff(axes: seq<Axis>, k: nat, along: seq<Axis>)
    requires ValidAxes(axes) && k < |axes| && Packed(Sizes(axes), Strides(axes), Product(Sizes(axes)))
    requires ValidAxes(along) && |along| == 1 && along[0].id == axes[k].id
    requires Packed(Sizes(along), Strides(along), Product(Sizes(along)))
    requires axes[k].stride <= OwnStride(axes, k) || |along[0].indices| == 1
    ensures StrideAgrees(axes, k) || |along[0].indices| == 1 <==>
            forall v: TableView, w: TableView {:trigger Joinable(axes, k, along, v, w)} :: Joinable(axes, k, along, v, w) ==> JoinsExactly(v, k, w)
  {
    if StrideAgrees(axes, k) || |along[0].indices| == 1 {
      forall v: TableView, w: TableView {:trigger Joinable(axes, k, along, v, w)} | Joinable(axes, k, along, v, w) ensures JoinsExactly(v, k, w) {
        AgreeingJoin(v, k, w);
      }
    } else {
      var v, w := OnesAndFirsts(axes, k, along);
      SmallStrideFails(v, k, w);
    }
  }

  // A table of ones, looked up at its first index throughout.
  lemma {:induction false} OnesAndFirsts(axes: seq<Axis>, k: nat, along: seq<Axis>) returns (v: TableView, w: TableView)
    requires ValidAxes(axes) && k < |axes| && Packed(Sizes(axes), Strides(axes), Product(Sizes(axes)))
    requires ValidAxes(along) && |along| == 1 && along[0].id == axes[k].id
    requires Packed(Sizes(along), Strides(along), Product(Sizes(along)))
    ensures Joinable(axes, k, along, v, w) && |along[0].indices| > 0
    ensures forall p :: 0 <= p < |v.data| ==> v.data[p] == 1.0
  {
    assert Sizes(axes)[k] > 0 && Sizes(along)[0] == |along[0].indices|;
    var x := axes[k].indices[0];
    v, w := TableView(axes, Ones(Product(Sizes(axes)))), TableView(along, seq(Product(Sizes(along)), p => x));
    ConstantQuery(axes, k, v, w);
  }

  lemma {:induction false} ConstantQuery(axes: seq<Axis>, k: nat, v: TableView, w: TableView)
    requires ValidView(v) && v.axes == axes && k < |axes| && ValidView(w) && |w.axes| == 1 && |axes[k].indices| > 0
    requires forall p :: 0 <= p < |w.data| ==> w.data[p] == axes[k].indices[0]
    ensures EveryFixable(v, k, w)
  {
    forall i: nat | i < |w.axes[0].indices| ensures Fixable(v, k, IndexValue(w, i)) {
      assert InBox([i], Sizes(w.axes));
      PackedRange([i], Sizes(w.axes), Strides(w.axes), |w.data|);
    }
  }

  /** With a smaller stride and two slices or more, no base of positive values is joined right:
      the last slot of the result is never written and still zero. */
  lemma {:induction false} SmallStrideFails(v: TableView, k: nat, w: TableView)
    requires ValidView(v) && k < |v.axes| && IndexesAlong(w, v.axes[k].id) && EveryFixable(v, k, w)
    requires |w.axes[0].indices| > 1 && v.axes[k].stride < OwnStride(v.axes, k)
    requires forall p :: 0 <= p < |v.data| ==> v.data[p] >= 1.0
    ensures var r := JoinResult(v, k, w); |r.data| > 0 && r.data[|r.data| - 1] == 0.0 && !Joined(v, k, w, r)
  {
    var r := JoinResult(v, k, w);
    var top := ResultSlices(v, k, w, r);
    LastSlotFree(SlicingOf(v.axes, k, w.axes[0].indices), top, |w.axes[0].indices|);
    if Joined(v, k, w, r) {
      JoinAbove(v, k, w, r, 1.0);
    }
  }

  // No entry of a join is below all of the base.
  lemma {:induction false} JoinAbove(v: TableView, k: nat, w: TableView, r: TableView, lo: real)
    requires Joined(v, k, w, r) && forall p :: 0 <= p < |v.data| ==> lo <= v.data[p]
    ensures forall p :: 0 <= p < |r.data| ==> lo <= r.data[p]
  {
    var hi := Bound(v.data);
    JoinBetween(v, k, w, r, lo, hi);
  }

  ghost function Bound(data: seq<real>): (hi: real)
    ensures forall p :: 0 <= p < |data| ==> data[p] <= hi
  {
    if data == [] then 0.0
    else
      var n, b := |data| - 1, Bound(data[..|data| - 1]);
      assert forall p :: 0 <= p < n ==> data[..n][p] == data[p];
      if data[n] <= b then b else data[n]
  }

  /** Tables with their axes given in reverse order fail both ways: joined along the second axis
      one slot stays zero, and along the first axis a slice lies behind the end. */
  lemma {:induction false} ReversedAxesExample()
    ensures var axes := [Axis(0, 2, [0.0, 1.0]), Axis(1, 1, [0.0, 1.0])];
            var v := TableView(axes, [1.0, 1.0, 1.0, 1.0]);
            var w := TableView([Axis(1, 1, [0.0, 1.0])], [0.0, 0.0]);
            && LaidOut(axes, [1, 0], [2, 2]) && ValidView(v) && IndexesAlong(w, 1) && EveryFixable(v, 1, w)
            && JoinResult(v, 1, w).data[3..] == [0.0] && !Joined(v, 1, w, JoinResult(v, 1, w))
            && axes[0].stride > OwnStride(axes, 0)
  {
    var axes := [Axis(0, 2, [0.0, 1.0]), Axis(1, 1, [0.0, 1.0])];
    var v, w := TableView(axes, [1.0, 1.0, 1.0, 1.0]), TableView([Axis(1, 1, [0.0, 1.0])], [0.0, 0.0]);
    ReversedLayout(axes);
    ReversedStrides(axes);
    OneAxis(w.axes);
    ConstantQuery(axes, 1, v, w);
    SmallStrideFails(v, 1, w);
    var r := JoinResult(v, 1, w);
    assert Sizes(r.axes) == [2, 2];
    TwoByTwo();
    assert r.data[3..] == [r.data[3]];
  }

  lemma {:induction false} TwoByTwo()
    ensures Product([2, 2]) == 4 && Product([2]) == 2 && Product([]) == 1
  {
    var two: seq<nat> := [2, 2];
    assert two[..1] == [2] && two[..0] == [] && two[..1][..0] == [];
  }

  lemma {:induction false} ReversedLayout(axes: seq<Axis>)
    requires axes == [Axis(0, 2, [0.0, 1.0]), Axis(1, 1, [0.0, 1.0])]
    ensures LaidOut(axes, [1, 0], [2, 2]) && ValidAxes(axes) && Packed(Sizes(axes), Strides(axes), 4)
  {
    ReversedIsLaidOut(axes);
    LaidOutPacked(axes, [1, 0], [2, 2]);
    TwoByTwo();
  }

  lemma {:induction false} ReversedStrides(axes: seq<Axis>)
    requires axes == [Axis(0, 2, [0.0, 1.0]), Axis(1, 1, [0.0, 1.0])]
    ensures OwnStride(axes, 0) == 1 && OwnStride(axes, 1) == 2
  {
    TwoByTwo();
    assert Sizes(axes) == [2, 2] && Sizes(axes)[..1] == [2] && Sizes(axes)[..0] == [];
  }

  lemma {:induction false} ReversedIsLaidOut(axes: seq<Axis>)
    requires axes == [Axis(0, 2, [0.0, 1.0]), Axis(1, 1, [0.0, 1.0])]
    ensures LaidOut(axes, [1, 0], [2, 2]) && Distinct([1, 0])
    ensures forall j :: 0 <= j < |axes| ==> |axes[j].indices| == [2, 2][IndexOf([1, 0], axes[j].id)]
  {
    TwoByTwo();
    var q: seq<nat>, n: seq<nat> := [1, 0], [2, 2];
    assert n[..1] == [2] && n[..0] == [];
    assert axes[1].id == q[0] && axes[0].id == q[1] && q[1..][0] == 0;
    assert LaidOutAt(axes, q, n, 0) && LaidOutAt(axes, q, n, 1);
  }

  lemma {:induction false} OneAxis(axes: seq<Axis>)
    requires axes == [Axis(1, 1, [0.0, 1.0])]
    ensures ValidAxes(axes) && Packed(Sizes(axes), Strides(axes), 2)
  {
    TwoByTwo();
    CanonicalPacked(Sizes(axes));
    assert Sizes(axes) == [2] && Sizes(axes)[..0] == [];
    assert Strides(axes) == Canonical(Sizes(axes));
  }

  // --- The operation -------------------------------------------------------

  // A new table over the joined axes.
  lemma {:induction false} FreshBeside(v: TableView, k: nat, indices: seq<real>, r: TableView)
    requires ValidView(v) && k < |v.axes| && Increasing(indices) && |indices| > 0
    requires r.axes == CanonicalAxes(JoinedAxes(v.axes, k, indices)) && |r.data| == Product(Sizes(JoinedAxes(v.axes, k, indices)))
    ensures Beside(v, k, |indices|, r) && Strides(r.axes)[k] == Product(Sizes(v.axes)[..k])
  {
    JoinedLayout(v, k, indices, r);
    CanonicalPacked(Sizes(JoinedAxes(v.axes, k, indices)));
    JoinedValid(v, k, indices, r.axes);
  }

  lemma {:induction false} JoinedValid(v: TableView, k: nat, indices: seq<real>, axes: seq<Axis>)
    requires ValidView(v) && k < |v.axes| && Increasing(indices) && |indices| > 0
    requires axes == CanonicalAxes(JoinedAxes(v.axes, k, indices))
    ensures ValidAxes(axes)
  {
    forall i | 0 <= i < |axes| ensures Sizes(axes)[i] > 0 && Increasing(axes[i].indices) {
      assert Sizes(v.axes)[i] > 0;
    }
  }

  lemma {:induction false} JoinedWanted(v: TableView, k: nat, w: seq<Axis>)
    requires ValidView(v) && k < |v.axes| && ValidAxes(w) && |w| == 1 && w[0].id == v.axes[k].id
    ensures var j := JoinedAxes(v.axes, k, w[0].indices);
            Wanted(j, IdSet(v.axes), w, v.axes) && AllPositive(Sizes(j)) && Increasing(w[0].indices) && |w[0].indices| > 0
  {
    var j := JoinedAxes(v.axes, k, w[0].indices);
    assert Sizes(w)[0] == |w[0].indices|;
    forall i | 0 <= i < |j|
      ensures Sizes(j)[i] > 0 && (Has(w, j[i].id) || Has(v.axes, j[i].id)) && j[i].indices == IndicesFrom(w, v.axes, j[i].id)
    {
      assert Sizes(v.axes)[i] > 0;
      FindSorted(v.axes, i);
      FindSorted(v.axes, k);
      FindUnique(w, j[i].id, if i == k then 0 else 1);
    }
    forall id ensures id in IdSet(j) <==> id in IdSet(v.axes) {
      if id in IdSet(v.axes) {
        var i: nat :| i < |v.axes| && v.axes[i].id == id;
        assert j[i].id == id;
      }
      if id in IdSet(j) {
        var i: nat :| i < |j| && j[i].id == id;
        assert v.axes[i].id == id;
      }
    }
  }

  // One turn of the loop: copy the base, looked up at one index value, into its slice.
  method CopySlice(r: Table, base: Table, l: Lerp, offset: nat, ghost v: TableView, ghost k: nat, ghost w: TableView, ghost t: nat)
    requires base.Valid() && v == base.View() && base.fmt != null && r.FormatValid() && r.data != base.data
    requires k < |v.axes| && IndexesAlong(w, v.axes[k].id) && t < |w.axes[0].indices| && l.axisId < MAX_AXES
    requires Beside(v, k, |w.axes[0].indices|, r.View())
    requires Remove(Strides(r.Axes()), k) == SlicingOf(v.axes, k, w.axes[0].indices).rest
    requires offset == Start(t, v.axes[k].stride) <= Start(|w.axes[0].indices| - 1, Strides(r.Axes())[k])
    requires Fixable(v, k, IndexValue(w, t)) && l == LerpOf(v, k, IndexValue(w, t))
    requires Overlaid(v, k, w, t, r.data[..])
    modifies r.data
    ensures r.FormatValid() && r.Axes() == old(r.Axes()) && Beside(v, k, |w.axes[0].indices|, r.View())
    ensures Overlaid(v, k, w, t + 1, r.data[..])
  {
    hide ValidView;
    hide Packed, SlicingOf;
    ghost var was, n := r.View(), |w.axes[0].indices|;
    FormatIds(base.fmt.axes, base.fmt.lookup, base.fmt.axesSet);
    SliceFits(v, k, n, was, l, offset);
    var _ := CopyValues(base.fmt.axesSet - {l.axisId}, r, base, offset, 0, [l]);
    SameBeside(v, k, n, was, r.View());
    CopiedSlice(v, k, n, r.View(), was.data, offset, Slots(v.axes, [l]));
    SliceOverlaid(v, k, w, SlicingOf(v.axes, k, w.axes[0].indices), was.data, r.data[..], l, t);
  }

  lemma {:induction false} SameBeside(v: TableView, k: nat, n: nat, r: TableView, s: TableView)
    requires Beside(v, k, n, r) && s.axes == r.axes && |s.data| == |r.data|
    ensures Beside(v, k, n, s)
  {
  }

  lemma {:induction false} OneDigit(t: nat, n: nat)
    ensures Rank([t], [n]) == t && Product([n]) == n
    ensures forall stride: nat :: Dot([t], [stride]) == t * stride
  {
    var sizes: seq<nat> := [n];
    assert sizes[..0] == [];
    forall stride: nat ensures Dot([t], [stride]) == t * stride {
      DotSnoc([], [], t, stride);
      assert [] + [t] == [t] && [] + [stride] == [stride];
    }
    assert Canonical(sizes) == [1];
  }

  // The index axes' sizes and strides, and the strides of the same axes in the base table.
  method JoinLoops(base: Table, index: Table) returns (max: seq<nat>, srcStride: seq<nat>, dstStride: seq<nat>)
    requires base.FormatValid() && index.FormatValid() && base.fmt != null && index.fmt != null
    requires forall u :: 0 <= u < |index.fmt.axes| ==> index.fmt.axes[u].id in base.fmt.axesSet
    ensures max == Sizes(index.fmt.axes) && srcStride == Strides(index.fmt.axes) && |dstStride| == |max|
    ensures forall u :: 0 <= u < |max| ==> dstStride[u] == StrideIn(base.fmt.axes, index.fmt.axes[u].id)
  {
    max, srcStride, dstStride := [], [], [];
    var u := 0;
    while u < |index.fmt.axes|
      invariant u <= |index.fmt.axes| && |max| == |srcStride| == |dstStride| == u
      invariant forall j :: 0 <= j < u ==> max[j] == |index.fmt.axes[j].indices| && srcStride[j] == index.fmt.axes[j].stride
      invariant forall j :: 0 <= j < u ==> dstStride[j] == StrideIn(base.fmt.axes, index.fmt.axes[j].id)
    {
      var axis := index.fmt.axes[u];
      var k := base.fmt.GetAxis(axis.id);
      max, srcStride, dstStride := max + [|axis.indices|], srcStride + [axis.stride], dstStride + [base.fmt.axes[k].stride];
      u := u + 1;
    }
  }

  // The offset of the slice and the query it is looked up at.
  method SliceQuery(index: Table, at: array<nat>, srcStride: seq<nat>, dstStride: seq<nat>, ghost w: TableView, ghost t: nat)
    returns (query: real, offset: nat)
    requires index.Valid() && w == index.View() && |w.axes| == 1 && at.Length == 1 && at[0] == t < |w.axes[0].indices|
    requires srcStride == Strides(w.axes) && |dstStride| == 1
    ensures query == IndexValue(w, t) && offset == t * dstStride[0]
  {
    var srcIdx := Offset(at, srcStride);
    offset := Offset(at, dstStride);
    assert at[..] == [t] && dstStride == [dstStride[0]];
    OneDigit(t, 1);
    assert InBox([t], Sizes(w.axes));
    PackedRange([t], Sizes(w.axes), Strides(w.axes), |w.data|);
    query := index.data[srcIdx];
  }

  // The lookup of the base at one value of the index table.
  method SliceLerp(base: Table, axisId: nat, index: Table, at: array<nat>, srcStride: seq<nat>, dstStride: seq<nat>,
                   ghost v: TableView, ghost k: nat, ghost w: TableView, ghost t: nat) returns (l: Option<Lerp>, offset: nat)
    requires base.Valid() && v == base.View() && index.Valid() && w == index.View() && |w.axes| == 1
    requires k < |v.axes| && v.axes[k].id == axisId && axisId < MAX_AXES
    requires at.Length == 1 && at[0] == t < |w.axes[0].indices| && srcStride == Strides(w.axes) && |dstStride| == 1
    ensures l.Some? <==> Fixable(v, k, IndexValue(w, t))
    ensures l.Some? ==> l.value == LerpOf(v, k, IndexValue(w, t))
    ensures offset == t * dstStride[0]
  {
    var query, o := SliceQuery(index, at, srcStride, dstStride, w, t);
    FindSorted(v.axes, k);
    var _, found := GetLerp(base, axisId, query);
    l, offset := found, o;
  }

  // The single digit of the odometer.
  method NextSlice(at: array<nat>, max: seq<nat>) returns (carry: bool)
    requires at.Length == 1 && |max| == 1 && at[0] < max[0]
    modifies at
    ensures carry <==> old(at[0]) + 1 == max[0]
    ensures !carry ==> at[0] == old(at[0]) + 1
  {
    ghost var t := at[0];
    OneDigit(t, max[0]);
    assert at[..] == [t] && max == [max[0]];
    carry := Advance(at, max);
    OneDigit(at[0], max[0]);
    assert at[..] == [at[0]];
  }

  /** How a join ends: with a table, in a failed assertion of a lookup, or with a write
      behind the end of the result's buffer, after which nothing is promised. */
  datatype Ending = Finished | LookupAborts | WritesOutside

  ghost predicate Passes(v: TableView, k: nat, w: TableView, t: nat)
    requires ValidView(w) && |w.axes| == 1 && t < |w.axes[0].indices| && k < |v.axes|
  {
    Fixable(v, k, IndexValue(w, t)) && Start(t, v.axes[k].stride) <= Start(|w.axes[0].indices| - 1, OwnStride(v.axes, k))
  }

  // The first turn that does not pass decides the ending.
  ghost predicate EndsWith(v: TableView, k: nat, w: TableView, e: Ending)
    requires ValidView(w) && |w.axes| == 1 && k < |v.axes|
  {
    if e == Finished then forall t: nat :: t < |w.axes[0].indices| ==> Passes(v, k, w, t)
    else
      exists t: nat :: t < |w.axes[0].indices| && !Passes(v, k, w, t) && (forall j: nat :: j < t ==> Passes(v, k, w, j))
                       && (e == LookupAborts <==> !Fixable(v, k, IndexValue(w, t)))
  }

  ghost predicate Progressed(v: TableView, k: nat, w: TableView, t: nat, data: seq<real>) {
    Overlaid(v, k, w, t, data) && forall j: nat :: j < t ==> Passes(v, k, w, j)
  }

  lemma {:induction false} StopsAt(v: TableView, k: nat, w: TableView, t: nat, e: Ending, data: seq<real>)
    requires Progressed(v, k, w, t, data) && t < |w.axes[0].indices| && !Passes(v, k, w, t)
    requires e == (if Fixable(v, k, IndexValue(w, t)) then WritesOutside else LookupAborts)
    ensures EndsWith(v, k, w, e)
  {
  }

  lemma {:induction false} ProgressedAll(v: TableView, k: nat, w: TableView, data: seq<real>)
    requires ValidView(w) && |w.axes| == 1 && Progressed(v, k, w, |w.axes[0].indices|, data)
    ensures EndsWith(v, k, w, Finished) && EveryFixable(v, k, w)
  {
    forall i: nat | i < |w.axes[0].indices| ensures Fixable(v, k, IndexValue(w, i)) {
      assert Passes(v, k, w, i);
    }
  }

  /** A join finishes exactly when all its lookups pass and no slice starts too late. */
  lemma {:induction false} FinishesIff(v: TableView, k: nat, w: TableView)
    requires ValidView(v) && k < |v.axes| && IndexesAlong(w, v.axes[k].id)
    ensures EndsWith(v, k, w, Finished) <==>
            (EveryFixable(v, k, w) && (v.axes[k].stride <= OwnStride(v.axes, k) || |w.axes[0].indices| == 1))
  {
    var n, s, own := |w.axes[0].indices|, v.axes[k].stride, OwnStride(v.axes, k);
    assert Sizes(w.axes)[0] == n;
    if s <= own || n == 1 {
      forall t: nat | t < n ensures Start(t, s) <= Start(n - 1, own) {
        StartsEarly(t, n, s, own);
      }
    } else {
      StartsLate(n, s, own);
      assert !Passes(v, k, w, n - 1);
    }
    if EndsWith(v, k, w, Finished) {
      forall t: nat | t < n ensures Fixable(v, k, IndexValue(w, t)) {
        assert Passes(v, k, w, t);
      }
    }
  }

  /** The loop over the index table.  It stops where a lookup fails or a slice lies outside. */
  method JoinSlices(r: Table, base: Table, axisId: nat, index: Table, ghost v: TableView, ghost k: nat, ghost w: TableView) returns (e: Ending)
    requires base.Valid() && v == base.View() && base.fmt != null && index.Valid() && w == index.View() && index.fmt != null
    requires r.FormatValid() && r.fmt != null && r.data != base.data && r.data != index.data && axisId < MAX_AXES
    requires k < |v.axes| && v.axes[k].id == axisId && IndexesAlong(w, axisId)
    requires Beside(v, k, |w.axes[0].indices|, r.View()) && Strides(r.Axes())[k] == OwnStride(v.axes, k)
    requires Remove(Strides(r.Axes()), k) == SlicingOf(v.axes, k, w.axes[0].indices).rest && Overlaid(v, k, w, 0, r.data[..])
    modifies r.data
    ensures r.FormatValid() && r.Axes() == old(r.Axes()) && Beside(v, k, |w.axes[0].indices|, r.View())
    ensures EndsWith(v, k, w, e)
    ensures e == Finished ==> EveryFixable(v, k, w) && Overlaid(v, k, w, |w.axes[0].indices|, r.data[..])
  {
    hide Packed;
    ghost var n, axes := |w.axes[0].indices|, r.Axes();
    FindSorted(v.axes, k);
    FindSorted(r.Axes(), k);
    HasFormatAxis(base, axisId);
    HasFormatAxis(r, axisId);
    var max, srcStride, dstStride := JoinLoops(base, index);
    var kr := r.fmt.GetAxis(axisId);
    assert Sizes(w.axes)[0] == n && max == [n] && r.fmt.axes[kr].stride == Strides(r.Axes())[k];
    var limit := Start(max[0] - 1, r.fmt.axes[kr].stride);
    e := SliceLoop(r, base, axisId, index, max, srcStride, dstStride, limit, v, k, w);
  }

  method SliceLoop(r: Table, base: Table, axisId: nat, index: Table, max: seq<nat>, srcStride: seq<nat>, dstStride: seq<nat>, limit: nat,
                   ghost v: TableView, ghost k: nat, ghost w: TableView) returns (e: Ending)
    requires base.Valid() && v == base.View() && base.fmt != null && index.Valid() && w == index.View()
    requires r.FormatValid() && r.data != base.data && r.data != index.data
    requires k < |v.axes| && v.axes[k].id == axisId < MAX_AXES && IndexesAlong(w, axisId)
    requires max == [|w.axes[0].indices|] && srcStride == Strides(w.axes) && dstStride == [v.axes[k].stride] && |w.axes[0].indices| > 0
    requires limit == Start(|w.axes[0].indices| - 1, OwnStride(v.axes, k))
    requires Beside(v, k, |w.axes[0].indices|, r.View()) && Strides(r.Axes())[k] == OwnStride(v.axes, k)
    requires Remove(Strides(r.Axes()), k) == SlicingOf(v.axes, k, w.axes[0].indices).rest && Progressed(v, k, w, 0, r.data[..])
    modifies r.data
    ensures r.FormatValid() && r.Axes() == old(r.Axes()) && Beside(v, k, |w.axes[0].indices|, r.View())
    ensures EndsWith(v, k, w, e)
    ensures e == Finished ==> EveryFixable(v, k, w) && Progressed(v, k, w, |w.axes[0].indices|, r.data[..])
  {
    hide Packed, Overlaid, Beside, Progressed, EndsWith, SlicingOf, OwnStride;
    ghost var n, axes := |w.axes[0].indices|, r.Axes();
    var at := new nat[1](_ => 0);
    ghost var t := 0;
    var carry := false;
    while !carry
      invariant fresh(at) && at.Length == 1 && t <= n && (carry <==> t == n) && (!carry ==> at[0] == t)
      invariant r.FormatValid() && r.Axes() == axes && Beside(v, k, n, r.View())
      invariant Progressed(v, k, w, t, r.data[..])
      decreases n - t
    {
      e := JoinSlice(r, base, axisId, index, at, srcStride, dstStride, limit, v, k, w, t);
      if e != Finished {
        return;
      }
      ghost var data := r.data[..];
      carry := NextSlice(at, max);
      assert r.data[..] == data;
      t := t + 1;
    }
    ProgressedAll(v, k, w, r.data[..]);
    e := Finished;
  }

  // One turn of the loop.
  method JoinSlice(r: Table, base: Table, axisId: nat, index: Table, at: array<nat>, srcStride: seq<nat>, dstStride: seq<nat>, limit: nat,
                   ghost v: TableView, ghost k: nat, ghost w: TableView, ghost t: nat) returns (e: Ending)
    requires base.Valid() && v == base.View() && base.fmt != null && index.Valid() && w == index.View()
    requires r.FormatValid() && r.data != base.data && k < |v.axes| && v.axes[k].id == axisId < MAX_AXES && IndexesAlong(w, axisId)
    requires at.Length == 1 && at[0] == t < |w.axes[0].indices| && srcStride == Strides(w.axes) && dstStride == [v.axes[k].stride]
    requires Beside(v, k, |w.axes[0].indices|, r.View()) && Strides(r.Axes())[k] == OwnStride(v.axes, k)
    requires Remove(Strides(r.Axes()), k) == SlicingOf(v.axes, k, w.axes[0].indices).rest
    requires |w.axes[0].indices| > 0 && limit == Start(|w.axes[0].indices| - 1, OwnStride(v.axes, k)) && Progressed(v, k, w, t, r.data[..])
    modifies r.data
    ensures r.FormatValid() && r.Axes() == old(r.Axes()) && Beside(v, k, |w.axes[0].indices|, r.View())
    ensures if e == Finished then Progressed(v, k, w, t + 1, r.data[..]) else EndsWith(v, k, w, e)
  {
    hide Packed, Overlaid, Beside;
    var l, offset := SliceLerp(base, axisId, index, at, srcStride, dstStride, v, k, w, t);
    if l.None? {
      StopsAt(v, k, w, t, LookupAborts, r.data[..]);
      return LookupAborts;
    }
    if offset > limit {
      StopsAt(v, k, w, t, WritesOutside, r.data[..]);
      return WritesOutside;
    }
    assert Passes(v, k, w, t);
    CopySlice(r, base, l.value, offset, v, k, w, t);
    e := Finished;
  }

  lemma {:induction false} HasFormatAxis(t: Table, id: nat)
    requires t.FormatValid() && t.fmt != null && Has(t.Axes(), id)
    ensures id in t.fmt.axesSet
  {
  }

  /** phx_table_join.  The index table is a scalar or varies along the joined axis alone. */
  method Join(base: Table, axisId: nat, index: Table) returns (e: Ending, r: Table?)
    requires base.Valid() && index.Valid() && axisId < MAX_AXES
    requires Has(base.Axes(), axisId) && index.fmt != null ==> IndexesAlong(index.View(), axisId)
    ensures r != null <==> e == Finished
    ensures !Has(base.Axes(), axisId) ==> r == base
    ensures Has(base.Axes(), axisId) && index.fmt == null ==>
              var v, k, x := base.View(), Find(base.Axes(), axisId), index.data[0];
              && e == (if Fixable(v, k, x) then Finished else LookupAborts)
              && (r != null ==> fresh(r) && r.Valid() && Looked(v, k, LerpOf(v, k, x), r.View()))
    ensures Has(base.Axes(), axisId) && index.fmt != null ==>
              var v, k, w := base.View(), Find(base.Axes(), axisId), index.View();
              && EndsWith(v, k, w, e)
              && (r != null ==> fresh(r) && r.Valid() && EveryFixable(v, k, w) && r.View() == JoinResult(v, k, w))
              && (r != null && (StrideAgrees(v.axes, k) || |w.axes[0].indices| == 1) ==> Joined(v, k, w, r.View()))
  {
    if base.fmt == null {
      return Finished, base;
    }
    if axisId !in base.fmt.axesSet {
      AbsentAxis(base, axisId);
      return Finished, base;
    }
    ghost var v, k := base.View(), Find(base.Axes(), axisId);
    assert ListedId(base.fmt.axes, base.fmt.lookup, base.fmt.axesSet, axisId);
    if index.fmt == null {
      assert index.View().axes == [];
      ghost var x := index.data[0];
      SingleFixGathers(v, k, x);
      r := Reduce(base, [Fix(axisId, index.data[0])]);
      e := if r != null then Finished else LookupAborts;
      if r != null {
        ReduceIsLookup(v, k, x, r.View());
      }
      return;
    }
    ghost var w := index.View();
    e, r := JoinTables(base, axisId, index, v, k, w);
    if r != null && (StrideAgrees(v.axes, k) || |w.axes[0].indices| == 1) {
      AgreeingJoin(v, k, w);
    }
  }

  method JoinTables(base: Table, axisId: nat, index: Table, ghost v: TableView, ghost k: nat, ghost w: TableView)
    returns (e: Ending, r: Table?)
    requires base.Valid() && v == base.View() && base.fmt != null && index.Valid() && w == index.View() && index.fmt != null
    requires axisId < MAX_AXES && k < |v.axes| && v.axes[k].id == axisId && IndexesAlong(w, axisId)
    ensures EndsWith(v, k, w, e) && (r != null <==> e == Finished)
    ensures r != null ==> fresh(r) && r.Valid() && EveryFixable(v, k, w) && r.View() == JoinResult(v, k, w)
  {
    hide ValidView;
    hide Packed, SlicingOf, EndsWith, JoinedAxes, CanonicalAxes, OwnSlots, Fills;
    var t := NewJoinTable(base, axisId, index, v, k, w);
    ghost var top := ResultSlices(v, k, w, t.View());
    e := JoinSlices(t, base, axisId, index, v, k, w);
    r := if e == Finished then t else null;
    if e == Finished {
      ResultIs(v, k, w, t.View());
    }
  }

  // The zeroed table over the joined axes.
  method NewJoinTable(base: Table, axisId: nat, index: Table, ghost v: TableView, ghost k: nat, ghost w: TableView) returns (t: Table)
    requires base.Valid() && v == base.View() && base.fmt != null && index.Valid() && w == index.View() && index.fmt != null
    requires axisId < MAX_AXES && k < |v.axes| && v.axes[k].id == axisId && IndexesAlong(w, axisId)
    ensures fresh(t) && fresh(t.data) && t.FormatValid() && t.fmt != null
    ensures t.Axes() == CanonicalAxes(JoinedAxes(v.axes, k, w.axes[0].indices)) && t.data.Length == Product(Sizes(t.Axes()))
    ensures Overlaid(v, k, w, 0, t.data[..])
  {
    hide Packed, SlicingOf;
    ghost var want := JoinedAxes(v.axes, k, w.axes[0].indices);
    JoinedWanted(v, k, w.axes);
    FormatIds(base.fmt.axes, base.fmt.lookup, base.fmt.axesSet);
    FormatIds(index.fmt.axes, index.fmt.lookup, index.fmt.axesSet);
    JoinedIdSet(v.axes, k, w.axes);
    var fmt := DeriveFormat(base.fmt.axesSet - {axisId} + index.fmt.axesSet, index.fmt, base.fmt, want);
    assert v.axes[k].id in base.fmt.axesSet;
    t := new Table.WithFormat(fmt);
  }

  lemma {:induction false} ResultIs(v: TableView, k: nat, w: TableView, r: TableView)
    requires ValidView(v) && k < |v.axes| && ValidView(w) && |w.axes| == 1 && EveryFixable(v, k, w)
    requires r.axes == CanonicalAxes(JoinedAxes(v.axes, k, w.axes[0].indices)) && |r.data| == Product(Sizes(r.axes))
    requires Overlaid(v, k, w, |w.axes[0].indices|, r.data)
    ensures r == JoinResult(v, k, w)
  {
    assert r.data == JoinResult(v, k, w).data;
  }

  lemma {:induction false} JoinedIdSet(axes: seq<Axis>, k: nat, w: seq<Axis>)
    requires k < |axes| && |w| == 1 && w[0].id == axes[k].id
    ensures IdSet(axes) - {axes[k].id} + IdSet(w) == IdSet(axes)
  {
    assert w[0].id in IdSet(w) && axes[k].id in IdSet(axes);
  }
}
