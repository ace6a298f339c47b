/** Table objects: storage for the values plus the axes seen by the older, sorted-axis
    operations.  phx_table_new lays the axes out in the order given by the caller. */
module TableObjects {
  import opened MixedRadix
  import opened AxisLookup
  import opened Tables

  function Zeros(n: nat): (s: seq<real>)
    ensures |s| == n && forall i :: 0 <= i < n ==> s[i] == 0.0
  {
    seq(n, i => 0.0)
  }

  ghost predicate Distinct(q: seq<nat>) {
    forall i, j :: 0 <= i < j < |q| ==> q[i] != q[j]
  }

  // The axis of the u-th quantity: stride fixed by the axes given before it.
  ghost predicate LaidOutAt(axes: seq<Axis>, q: seq<nat>, n: seq<nat>, u: nat)
    requires u < |q| == |n|
  {
    Has(axes, q[u]) && StrideIn(axes, q[u]) == Product(n[..u])
  }

  ghost predicate LaidOut(axes: seq<Axis>, q: seq<nat>, n: seq<nat>) {
    && |q| == |n| == |axes|
    && Sorted(axes)
    && (forall j :: 0 <= j < |axes| ==> axes[j].id in q)
    && (forall u: nat :: u < |q| ==> LaidOutAt(axes, q, n, u))
  }

  function IndexOf(q: seq<nat>, x: nat): (i: nat)
    requires x in q
    ensures i < |q| && q[i] == x
  {
    if q[0] == x then 0 else 1 + IndexOf(q[1..], x)
  }

  /** Once every axis has its indices, the table's addressing is a bijection,
      whatever the order in which the axes were given. */
  lemma {:induction false} LaidOutPacked(axes: seq<Axis>, q: seq<nat>, n: seq<nat>)
    requires LaidOut(axes, q, n) && Distinct(q)
    requires forall j :: 0 <= j < |axes| ==> |axes[j].indices| == n[IndexOf(q, axes[j].id)]
    ensures Packed(Sizes(axes), Strides(axes), Product(n))
  {
    var order := seq(|axes|, j requires 0 <= j < |axes| => IndexOf(q, axes[j].id));
    forall u: nat | u < |q| ensures u in order {
      assert LaidOutAt(axes, q, n, u);
      assert order[Find(axes, q[u])] == u;
    }
    forall j | 0 <= j < |axes| ensures axes[j].stride == Product(n[..order[j]]) {
      assert LaidOutAt(axes, q, n, order[j]);
      FindSorted(axes, j);
    }
    PermutedCanonicalPacked(Sizes(axes), Strides(axes), n, order);
  }

  // qsort by quantity.
  function InsertAxis(a: Axis, sorted: seq<Axis>): (r: seq<Axis>)
    requires Sorted(sorted) && forall k :: 0 <= k < |sorted| ==> sorted[k].id != a.id
    ensures Sorted(r) && |r| == |sorted| + 1
    ensures forall x :: x in r <==> x == a || x in sorted
  {
    if sorted == [] || a.id < sorted[0].id then [a] + sorted
    else
      var rest := InsertAxis(a, sorted[1..]);
      assert forall k :: 0 <= k < |rest| ==> rest[k] in rest;
      [sorted[0]] + rest
  }

  function SortAxes(axes: seq<Axis>): (r: seq<Axis>)
    requires forall i, j :: 0 <= i < j < |axes| ==> axes[i].id != axes[j].id
    ensures Sorted(r) && |r| == |axes|
    ensures forall x :: x in r <==> x in axes
  {
    if axes == [] then []
    else
      var rest := SortAxes(axes[1..]);
      assert forall k :: 0 <= k < |rest| ==> rest[k] in rest;
      InsertAxis(axes[0], rest)
  }

  lemma {:induction false} FindMember(axes: seq<Axis>, a: Axis)
    requires Sorted(axes) && a in axes
    ensures Has(axes, a.id) && axes[Find(axes, a.id)] == a
  {
    var k: nat :| k < |axes| && axes[k] == a;
    FindSorted(axes, k);
  }

  function Members(q: seq<nat>): set<nat> {
    set x | x in q
  }

  lemma {:induction false} NoMembers(q: seq<nat>)
    ensures Members(q) == {} <==> q == []
  {
    if q != [] {
      assert q[0] in Members(q);
    }
  }

  function IdsOf(axes: seq<Axis>): (s: seq<nat>)
    ensures |s| == |axes| && forall k :: 0 <= k < |axes| ==> s[k] == axes[k].id
  {
    seq(|axes|, k requires 0 <= k < |axes| => axes[k].id)
  }

  lemma {:induction false} DistinctCount(q: seq<nat>)
    requires Distinct(q)
    ensures |Members(q)| == |q|
  {
    if q != [] {
      var n := |q| - 1;
      DistinctCount(q[..n]);
      assert q == q[..n] + [q[n]];
      assert Members(q) == Members(q[..n]) + {q[n]};
      assert q[n] !in q[..n];
    }
  }

  lemma {:induction false} FormatCount(axes: seq<Axis>, lookup: seq<int>, q: seq<nat>)
    requires Distinct(q) && Indexed(axes, lookup, Members(q))
    ensures |axes| == |q| && forall j :: 0 <= j < |axes| ==> axes[j].id in q
  {
    var s := Members(q);
    forall id | id in s ensures id in IdsOf(axes) {
      assert ListedId(axes, lookup, s, id);
      assert IdsOf(axes)[Find(axes, id)] == id;
    }
    forall j | 0 <= j < |axes| ensures axes[j].id in q {
      assert axes[j].id in s;
    }
    assert s == Members(IdsOf(axes));
    DistinctCount(q);
    DistinctCount(IdsOf(axes));
  }

  ghost predicate AsGiven(ax: seq<Axis>, q: seq<nat>, n: seq<nat>) {
    |ax| == |q| == |n| && forall k :: 0 <= k < |ax| ==> ax[k] == Axis(q[k], Product(n[..k]), Zeros(n[k]))
  }

  lemma {:induction false} SortedLaidOut(ax: seq<Axis>, q: seq<nat>, n: seq<nat>)
    requires AsGiven(ax, q, n) && Distinct(q)
    ensures var r := SortAxes(ax); LaidOut(r, q, n) && forall j :: 0 <= j < |r| ==> |r[j].indices| == n[IndexOf(q, r[j].id)]
  {
    var r := SortAxes(ax);
    forall j | 0 <= j < |r| ensures r[j].id in q && |r[j].indices| == n[IndexOf(q, r[j].id)] {
      assert r[j] in ax;
      var k: nat :| k < |ax| && ax[k] == r[j];
      assert q[k] == r[j].id;
    }
    forall u: nat | u < |q| ensures LaidOutAt(r, q, n, u) {
      assert ax[u] in ax;
      FindMember(r, ax[u]);
    }
  }

  lemma {:induction false} SetStrideLaidOut(axes: seq<Axis>, axes': seq<Axis>, q: seq<nat>, n: seq<nat>, u: nat)
    requires u < |q| == |n| && Distinct(q) && Has(axes, q[u])
    requires axes' == axes[Find(axes, q[u]) := axes[Find(axes, q[u])].(stride := Product(n[..u]))]
    requires forall k: nat :: k < u ==> LaidOutAt(axes, q, n, k)
    ensures forall k: nat :: k <= u ==> LaidOutAt(axes', q, n, k)
  {
    SameIdsFind(axes, axes');
    forall k: nat | k <= u ensures LaidOutAt(axes', q, n, k) {
      assert k < u ==> LaidOutAt(axes, q, n, k) && q[k] != q[u];
    }
  }

  // Two axis lists laid out for the same quantities have the same ids in the same places.
  lemma {:induction false} SameAxisIds(a: seq<Axis>, b: seq<Axis>, q: seq<nat>, n: seq<nat>)
    requires LaidOut(a, q, n) && LaidOut(b, q, n)
    ensures forall j :: 0 <= j < |a| ==> a[j].id == b[j].id
  {
    forall id ensures id in IdsOf(a) <==> id in IdsOf(b) {
      SameMember(a, b, q, n, id);
      SameMember(b, a, q, n, id);
    }
    SortedUnique(IdsOf(a), IdsOf(b));
  }

  lemma {:induction false} SameMember(a: seq<Axis>, b: seq<Axis>, q: seq<nat>, n: seq<nat>, id: nat)
    requires LaidOut(a, q, n) && LaidOut(b, q, n)
    ensures id in IdsOf(a) ==> id in IdsOf(b)
  {
    if id in IdsOf(a) {
      var j: nat :| j < |a| && IdsOf(a)[j] == id;
      assert a[j].id in q;
      assert LaidOutAt(b, q, n, IndexOf(q, id));
      assert IdsOf(b)[Find(b, id)] == id;
    }
  }

  lemma {:induction false} SortedUnique(s: seq<nat>, t: seq<nat>)
    requires forall i, j :: 0 <= i < j < |s| ==> s[i] < s[j]
    requires forall i, j :: 0 <= i < j < |t| ==> t[i] < t[j]
    requires |s| == |t| && forall x :: x in s <==> x in t
    ensures s == t
  {
    if s != [] {
      assert s[0] in t;
      assert t[0] in s;
      assert s[0] == t[0];
      forall x ensures x in s[1..] <==> x in t[1..] {
        assert x in s[1..] ==> x in s && x != s[0];
        assert x in t[1..] ==> x in t && x != t[0];
      }
      SortedUnique(s[1..], t[1..]);
    }
  }

  lemma {:induction false} NewIndices(axes: seq<Axis>, k: nat, indices: seq<real>, q: seq<nat>, n: seq<nat>)
    requires LaidOut(axes, q, n) && k < |axes|
    ensures var r := axes[k := axes[k].(indices := indices)];
            LaidOut(r, q, n) && forall id :: Find(r, id) == Find(axes, id)
  {
    var r := axes[k := axes[k].(indices := indices)];
    SameIdsFind(axes, r);
    forall u: nat | u < |q| ensures LaidOutAt(r, q, n, u) {
      assert LaidOutAt(axes, q, n, u);
    }
  }

  // The axes in the caller's order, with strides that multiply up.
  method GivenAxes(q: seq<nat>, n: seq<nat>) returns (ax: seq<Axis>, stride: nat)
    requires |q| == |n|
    ensures AsGiven(ax, q, n) && stride == Product(n)
  {
    ax, stride := [], 1;
    var u := 0;
    while u < |q|
      invariant u <= |q| && |ax| == u && stride == Product(n[..u])
      invariant forall k :: 0 <= k < u ==> ax[k] == Axis(q[k], Product(n[..k]), Zeros(n[k]))
    {
      ax := ax + [Axis(q[u], stride, Zeros(n[u]))];
      ProductStep(n, u);
      stride := stride * n[u];
      u := u + 1;
    }
    assert n[..|q|] == n;
  }

  // The format of the same axes, stored by id but with the strides given above.
  method StridedFormat(q: seq<nat>, n: seq<nat>, ax: seq<Axis>) returns (format: Format?)
    requires AsGiven(ax, q, n) && Distinct(q) && forall u :: 0 <= u < |q| ==> q[u] < MAX_AXES
    ensures format == null <==> q == []
    ensures format != null ==> fresh(format) && format.Valid() && LaidOut(format.axes, q, n)
    ensures format != null ==> forall j :: 0 <= j < |format.axes| ==> format.axes[j].indices == []
  {
    NoMembers(q);
    format := CreateFormat(Members(q));
    if format == null {
      return;
    }
    FormatCount(format.axes, format.lookup, q);
    var u := 0;
    while u < |q|
      invariant u <= |q| && fresh(format) && format.Valid()
      invariant format.axesSet == Members(q) && |format.axes| == |q|
      invariant forall k :: 0 <= k < |format.axes| ==> format.axes[k].indices == [] && format.axes[k].id in q
      invariant forall k: nat :: k < u ==> LaidOutAt(format.axes, q, n, k)
    {
      assert q[u] in format.axesSet;
      ghost var was := format.axes;
      assert ListedId(was, format.lookup, format.axesSet, q[u]);
      format.SetStride(q[u], ax[u].stride);
      SetStrideLaidOut(was, format.axes, q, n, u);
      u := u + 1;
    }
    format.Finalize();
  }

  class Table {
    const fmt: Format?
    const size: nat
    const data: array<real>
    var axes: seq<Axis>

    ghost function Axes(): seq<Axis>
      reads this, fmt
    {
      if fmt == null then [] else fmt.axes
    }

    ghost function View(): TableView
      reads this, fmt, data
    {
      TableView(Axes(), data[..])
    }

    ghost predicate FormatValid()
      reads this, fmt
    {
      fmt != null ==> fmt.Valid() && fmt.axes != []
    }

    ghost predicate Valid()
      reads this, fmt, data
    {
      FormatValid() && ValidView(View())
    }

    /** phx_table_create_with_format: zero values, no sorted axes and no size. */
    constructor WithFormat(f: Format?)
      requires f != null ==> f.Valid() && f.numValues > 0
      ensures fmt == f && axes == [] && size == 0 && fresh(data)
      ensures data[..] == Zeros(if f == null then 1 else f.numValues)
    {
      fmt, size, axes := f, 0, [];
      data := new real[if f == null then 1 else f.numValues](i => 0.0);
    }

    // What phx_table_new promises about a table made from quantities q and sizes n.
    ghost predicate MadeFrom(q: seq<nat>, n: seq<nat>)
      reads this, fmt
    {
      && (fmt == null <==> q == [])
      && data.Length == size == Product(n)
      && LaidOut(axes, q, n)
      && Distinct(q)
      && (forall j :: 0 <= j < |axes| ==> |axes[j].indices| == n[IndexOf(q, axes[j].id)])
      && (fmt != null ==>
            && fmt.Valid()
            && LaidOut(fmt.axes, q, n)
            && (forall j :: 0 <= j < |axes| ==>
                  && fmt.axes[j].id == axes[j].id
                  && (fmt.axes[j].indices == [] || fmt.axes[j].indices == axes[j].indices)))
    }

    // Every axis has been given its indices.
    ghost predicate Complete()
      reads this, fmt
    {
      fmt != null ==> Sizes(fmt.axes) == Sizes(axes)
    }

    /** phx_table_new. */
    constructor New(q: seq<nat>, n: seq<nat>)
      requires |q| == |n| && Distinct(q) && AllPositive(n) && forall u :: 0 <= u < |q| ==> q[u] < MAX_AXES
      ensures MadeFrom(q, n)
      ensures fmt != null ==> fresh(fmt) && forall j :: 0 <= j < |fmt.axes| ==> fmt.axes[j].indices == []
      ensures fresh(data) && data[..] == Zeros(Product(n))
    {
      var ax, stride := GivenAxes(q, n);
      var format := StridedFormat(q, n, ax);
      fmt, size := format, stride;
      data := new real[stride](i => 0.0);
      axes := SortAxes(ax);
      SortedLaidOut(ax, q, n);
      new;
      if fmt != null {
        SameAxisIds(fmt.axes, axes, q, n);
      }
    }

    /** phx_table_set_indices: both the sorted axis and the format axis are set. */
    method SetIndices(ghost q: seq<nat>, ghost n: seq<nat>, qty: nat, indices: seq<real>)
      requires MadeFrom(q, n) && qty in q && |indices| == n[IndexOf(q, qty)]
      modifies this`axes, fmt
      ensures MadeFrom(q, n)
      ensures |axes| == |old(axes)| && Find(axes, qty) == Find(old(axes), qty) < |axes|
      ensures axes == old(axes)[Find(axes, qty) := old(axes)[Find(axes, qty)].(indices := indices)]
      ensures fmt.axes == old(fmt.axes)[Find(axes, qty) := old(fmt.axes)[Find(axes, qty)].(indices := indices)]
      ensures fmt.numValues == Product(Sizes(fmt.axes))
    {
      ghost var u := IndexOf(q, qty);
      assert LaidOutAt(axes, q, n, u) && LaidOutAt(fmt.axes, q, n, u);
      var k := Find(axes, qty);
      SameIdsFind(axes, fmt.axes);
      NewIndices(axes, k, indices, q, n);
      NewIndices(fmt.axes, k, indices, q, n);
      assert fmt.axes[k].id == qty;
      axes := axes[k := axes[k].(indices := indices)];
      fmt.SetIndices(qty, indices);
      fmt.Finalize();
    }

    /** phx_table_lerp_axes: a search per quantity, and a zeroed result for one that the table lacks.
        None where an axis has too few indices and the assertion fails. */
    method LerpQuantities(quantities: seq<nat>, values: seq<real>) returns (r: Option<seq<Lerp>>)
      requires |quantities| == |values| > 0 && forall j :: 0 <= j < |axes| ==> Increasing(axes[j].indices)
      ensures r.Some? <==> forall u :: 0 <= u < |quantities| && Has(axes, quantities[u]) ==> |axes[Find(axes, quantities[u])].indices| >= 2
      ensures r.Some? ==> |r.value| == |quantities| && forall u :: 0 <= u < |quantities| ==>
                Some(r.value[u]) == (if Has(axes, quantities[u]) then LerpAxis(quantities[u], axes[Find(axes, quantities[u])].indices, values[u])
                                     else Some(Lerp(0, 0, 0, 0.0)))
    {
      var out, u := [], 0;
      while u < |quantities|
        invariant u <= |quantities| && |out| == u
        invariant forall j :: 0 <= j < u && Has(axes, quantities[j]) ==> |axes[Find(axes, quantities[j])].indices| >= 2
        invariant forall j :: 0 <= j < u ==>
                    Some(out[j]) == (if Has(axes, quantities[j]) then LerpAxis(quantities[j], axes[Find(axes, quantities[j])].indices, values[j])
                                     else Some(Lerp(0, 0, 0, 0.0)))
      {
        var k, lerp := Find(axes, quantities[u]), Some(Lerp(0, 0, 0, 0.0));
        if k < |axes| {
          lerp := LerpAxes(axes[k].id, axes[k].indices, values[u]);
        }
        if lerp.None? {
          return None;
        }
        out, u := out + [lerp.value], u + 1;
      }
      r := Some(out);
    }

    /** A table whose indices are all set addresses its values one-to-one. */
    lemma {:induction false} CompleteIsValid(q: seq<nat>, n: seq<nat>)
      requires MadeFrom(q, n) && Complete()
      requires forall j :: 0 <= j < |axes| ==> Increasing(axes[j].indices)
      requires AllPositive(n)
      ensures Valid() && View().axes == axes
    {
      if fmt != null {
        forall j | 0 <= j < |axes| ensures fmt.axes[j] == axes[j] {
          var u := IndexOf(q, axes[j].id);
          assert LaidOutAt(axes, q, n, u) && LaidOutAt(fmt.axes, q, n, u);
          FindSorted(axes, j);
          FindSorted(fmt.axes, j);
          assert Sizes(fmt.axes)[j] == Sizes(axes)[j];
        }
        assert fmt.axes == axes;
      }
      LaidOutPacked(axes, q, n);
    }
  }
}
