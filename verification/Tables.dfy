/** Lookup tables: the format object that describes the axes, the table object
    that owns the values, and the view of a table as a function of index vectors. */
module Tables {
  import opened MixedRadix
  import opened AxisLookup

  const MAX_AXES := 3

  /** One axis; the number of indices is the length of `indices`. */
  datatype Axis = Axis(id: nat, stride: nat, indices: seq<real>)

  function Sizes(axes: seq<Axis>): (s: seq<nat>)
    ensures |s| == |axes|
  {
    seq(|axes|, k requires 0 <= k < |axes| => |axes[k].indices|)
  }

  function Strides(axes: seq<Axis>): (s: seq<nat>)
    ensures |s| == |axes|
  {
    seq(|axes|, k requires 0 <= k < |axes| => axes[k].stride)
  }

  ghost predicate Sorted(axes: seq<Axis>) {
    forall i, j :: 0 <= i < j < |axes| ==> axes[i].id < axes[j].id
  }

  /** Position of the axis with the given id, or |axes| when there is none. */
  function Find(axes: seq<Axis>, id: nat): (k: nat)
    ensures k <= |axes|
    ensures k < |axes| ==> axes[k].id == id
    ensures forall i :: 0 <= i < k ==> axes[i].id != id
  {
    if axes == [] || axes[0].id == id then 0 else 1 + Find(axes[1..], id)
  }

  predicate Has(axes: seq<Axis>, id: nat) {
    Find(axes, id) < |axes|
  }

  // The stride along an axis, zero where the table is constant along it.
  function StrideIn(axes: seq<Axis>, id: nat): nat {
    if Has(axes, id) then axes[Find(axes, id)].stride else 0
  }

  lemma {:induction false} FindSorted(axes: seq<Axis>, k: nat)
    requires Sorted(axes) && k < |axes|
    ensures Find(axes, axes[k].id) == k
  {
    FindUnique(axes, axes[k].id, k);
  }

  /** The value of a table: its axes and its flat data. */
  datatype TableView = TableView(axes: seq<Axis>, data: seq<real>)

  ghost predicate ValidAxes(axes: seq<Axis>) {
    && Sorted(axes)
    && AllPositive(Sizes(axes))
    && (forall k :: 0 <= k < |axes| ==> Increasing(axes[k].indices))
  }

  ghost predicate ValidView(v: TableView) {
    ValidAxes(v.axes) && Packed(Sizes(v.axes), Strides(v.axes), |v.data|)
  }

  /** A table denotes a function from index vectors to reals. */
  ghost function At(v: TableView, ix: seq<nat>): real
    requires ValidView(v) && InBox(ix, Sizes(v.axes))
  {
    PackedRange(ix, Sizes(v.axes), Strides(v.axes), |v.data|);
    v.data[Dot(ix, Strides(v.axes))]
  }

  /** The axes with the first one fastest, as the stride update leaves them. */
  function CanonicalAxes(axes: seq<Axis>): (r: seq<Axis>)
    ensures Sizes(r) == Sizes(axes) && Strides(r) == Canonical(Sizes(axes))
    ensures |r| == |axes| && forall k :: 0 <= k < |r| ==> r[k].id == axes[k].id && r[k].indices == axes[k].indices
  {
    seq(|axes|, k requires 0 <= k < |axes| => axes[k].(stride := Canonical(Sizes(axes))[k]))
  }

  // The axes are exactly those of the set, ordered, and the lookup table finds them.
  ghost predicate Indexed(axes: seq<Axis>, lookup: seq<int>, axesSet: set<nat>) {
    && |lookup| == MAX_AXES
    && Sorted(axes)
    && (forall k :: 0 <= k < |axes| ==> axes[k].id < MAX_AXES && axes[k].id in axesSet)
    && (forall id :: id in axesSet ==> id < MAX_AXES)
    && (forall id: nat :: id < MAX_AXES ==> ListedId(axes, lookup, axesSet, id))
  }

  ghost predicate ListedId(axes: seq<Axis>, lookup: seq<int>, axesSet: set<nat>, id: nat) {
    && id < |lookup|
    && (id in axesSet <==> Has(axes, id))
    && lookup[id] == if Has(axes, id) then Find(axes, id) else -1
  }

  /** A table format: axes ordered by id, with a lookup table from id to position. */
  class Format {
    var axesSet: set<nat>
    var lookup: seq<int>
    var axes: seq<Axis>
    var numValues: nat

    ghost predicate Valid()
      reads this
    {
      Indexed(axes, lookup, axesSet)
    }

    /** phx_table_format_create, for a set of axes that is not empty. */
    constructor (set_: set<nat>)
      requires set_ != {} && forall id :: id in set_ ==> id < MAX_AXES
      ensures Valid() && axesSet == set_ && numValues == 0 && axes != []
      ensures forall k :: 0 <= k < |axes| ==> axes[k].stride == 0 && axes[k].indices == []
    {
      var ax: seq<Axis>, table: seq<int> := [], [];
      var u := 0;
      while u < MAX_AXES
        invariant u <= MAX_AXES && Listed(ax, table, set_, u)
      {
        ListOne(ax, table, set_, u);
        if u in set_ {
          table := table + [|ax|];
          ax := ax + [Axis(u, 0, [])];
        } else {
          table := table + [-1];
        }
        u := u + 1;
      }
      axesSet, lookup, axes, numValues := set_, table, ax, 0;
      new;
      assert Indexed(axes, lookup, axesSet);
      var id :| id in set_;
      assert ListedId(axes, lookup, axesSet, id);
    }

    /** phx_table_format_get_axis: the position of an axis that must exist. */
    method GetAxis(id: nat) returns (k: nat)
      requires Valid() && id in axesSet
      ensures k < |axes| && axes[k].id == id && k == Find(axes, id)
    {
      assert ListedId(axes, lookup, axesSet, id);
      k := lookup[id];
    }

    /** phx_table_format_set_indices. */
    method SetIndices(id: nat, indices: seq<real>)
      requires Valid() && id in axesSet
      modifies this`axes
      ensures Valid()
      ensures |axes| == |old(axes)| && Find(axes, id) == Find(old(axes), id) < |axes|
      ensures axes == old(axes)[Find(axes, id) := old(axes)[Find(axes, id)].(indices := indices)]
    {
      var k := GetAxis(id);
      var updated := axes[k := axes[k].(indices := indices)];
      SameIdsIndexed(axes, updated, lookup, axesSet);
      axes := updated;
    }

    /** phx_table_format_set_stride. */
    method SetStride(id: nat, stride: nat)
      requires Valid() && id in axesSet
      modifies this`axes
      ensures Valid()
      ensures |axes| == |old(axes)| && Find(axes, id) == Find(old(axes), id) < |axes|
      ensures axes == old(axes)[Find(axes, id) := old(axes)[Find(axes, id)].(stride := stride)]
    {
      var k := GetAxis(id);
      var updated := axes[k := axes[k].(stride := stride)];
      SameIdsIndexed(axes, updated, lookup, axesSet);
      axes := updated;
    }

    /** phx_table_format_update_strides: canonical strides, first axis fastest. */
    method UpdateStrides()
      requires Valid()
      modifies this`axes
      ensures Valid() && axes == CanonicalAxes(old(axes))
    {
      ghost var was := axes;
      var stride, u := 1, 0;
      while u < |axes|
        invariant u <= |was| && axes == Restrided(was, u) && stride == Product(Sizes(was)[..u])
      {
        RestrideStep(was, u);
        axes := axes[u := axes[u].(stride := stride)];
        ProductStep(Sizes(was), u);
        stride := stride * |axes[u].indices|;
        u := u + 1;
      }
      RestrideDone(was);
      SameIdsIndexed(was, axes, lookup, axesSet);
    }

    /** phx_table_format_finalize. */
    method Finalize()
      requires Valid()
      modifies this`numValues
      ensures Valid() && numValues == Product(Sizes(axes))
    {
      numValues := 1;
      var u := 0;
      while u < |axes|
        invariant u <= |axes| && numValues == Product(Sizes(axes)[..u])
      {
        ProductStep(Sizes(axes), u);
        numValues := numValues * |axes[u].indices|;
        u := u + 1;
      }
      assert Sizes(axes)[..|axes|] == Sizes(axes);
    }
  }

  // The axes with ids below n that are in the set, and where to find them.
  ghost predicate Listed(ax: seq<Axis>, table: seq<int>, set_: set<nat>, n: nat) {
    && |table| == n
    && Sorted(ax)
    && (forall k :: 0 <= k < |ax| ==> ax[k] == Axis(ax[k].id, 0, []) && ax[k].id < n && ax[k].id in set_)
    && (forall id: nat :: id < n ==> ListedId(ax, table, set_, id))
  }

  lemma {:induction false} ListOne(ax: seq<Axis>, table: seq<int>, set_: set<nat>, n: nat)
    requires Listed(ax, table, set_, n)
    ensures n in set_ ==> Listed(ax + [Axis(n, 0, [])], table + [|ax|], set_, n + 1)
    ensures n !in set_ ==> Listed(ax, table + [-1], set_, n + 1)
  {
    FindUnique(ax, n, |ax|);
    if n in set_ {
      var ax', table' := ax + [Axis(n, 0, [])], table + [|ax|];
      forall id: nat | id < n + 1 ensures ListedId(ax', table', set_, id) {
        assert id < n ==> ListedId(ax, table, set_, id);
        FindUnique(ax', id, if id == n || Has(ax, id) then Find(ax, id) else |ax| + 1);
      }
    } else {
      forall id: nat | id < n + 1 ensures ListedId(ax, table + [-1], set_, id) {
        assert id < n ==> ListedId(ax, table, set_, id);
      }
    }
  }

  lemma {:induction false} FindUnique(axes: seq<Axis>, id: nat, k: nat)
    requires k <= |axes| && (k < |axes| ==> axes[k].id == id) && forall i :: 0 <= i < k ==> axes[i].id != id
    ensures Find(axes, id) == k
  {
    assert Find(axes, id) < k ==> Has(axes, id);
  }

  // Looking an axis up depends on the ids alone.
  lemma {:induction false} SameIdsFind(axes: seq<Axis>, axes': seq<Axis>)
    requires |axes| == |axes'| && forall k :: 0 <= k < |axes| ==> axes[k].id == axes'[k].id
    ensures forall id :: Find(axes, id) == Find(axes', id)
  {
    forall id ensures Find(axes, id) == Find(axes', id) {
      FindUnique(axes', id, Find(axes, id));
    }
  }

  lemma {:induction false} SameIdsIndexed(axes: seq<Axis>, axes': seq<Axis>, lookup: seq<int>, axesSet: set<nat>)
    requires |axes| == |axes'| && forall k :: 0 <= k < |axes| ==> axes[k].id == axes'[k].id
    requires Indexed(axes, lookup, axesSet)
    ensures Indexed(axes', lookup, axesSet)
    ensures forall id :: Find(axes, id) == Find(axes', id)
  {
    SameIdsFind(axes, axes');
    forall id: nat | id < MAX_AXES ensures ListedId(axes', lookup, axesSet, id) {
      assert ListedId(axes, lookup, axesSet, id);
    }
  }

  // Canonical strides on the first u axes only.
  ghost function Restrided(axes: seq<Axis>, u: nat): (r: seq<Axis>)
    requires u <= |axes|
    ensures |r| == |axes|
  {
    seq(|axes|, k requires 0 <= k < |axes| => if k < u then axes[k].(stride := Product(Sizes(axes)[..k])) else axes[k])
  }

  lemma {:induction false} RestrideStep(axes: seq<Axis>, u: nat)
    requires u < |axes|
    ensures Restrided(axes, u)[u := axes[u].(stride := Product(Sizes(axes)[..u]))] == Restrided(axes, u + 1)
  {
  }

  lemma {:induction false} RestrideDone(axes: seq<Axis>)
    ensures Restrided(axes, |axes|) == CanonicalAxes(axes)
  {
  }

  /** phx_table_format_create: the empty set of axes gives the scalar format. */
  method CreateFormat(axesSet: set<nat>) returns (fmt: Format?)
    requires forall id :: id in axesSet ==> id < MAX_AXES
    ensures fmt == null <==> axesSet == {}
    ensures fmt != null ==> fresh(fmt) && fmt.Valid() && fmt.axesSet == axesSet && fmt.axes != []
    ensures fmt != null ==> forall k :: 0 <= k < |fmt.axes| ==> fmt.axes[k].stride == 0 && fmt.axes[k].indices == []
  {
    if axesSet == {} {
      return null;
    }
    fmt := new Format(axesSet);
  }
}
